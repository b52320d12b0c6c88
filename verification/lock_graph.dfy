/**
 * The lock-graph closure of packages/alphaforge/scripts/dev_audit.py: an indexed graph of locked
 * packages, the worklist that visits (package, requested extra) pairs, and the check of an
 * exported requirements file against it.
 */
module LockGraph {
  import opened Basics

  type Version = nat
  type Marker = string

  datatype Key = Key(name: string, version: Version)

  /** A worklist entry; the empty extra stands for the package's own dependencies. */
  datatype Node = Node(key: Key, extra: string)

  datatype Field<+T> = Absent | Malformed | Given(value: T)

  datatype Source = Editable | Registry | Elsewhere(text: string)

  /** Names are given in canonical form; a name the grammar refuses is Malformed. */
  datatype Edge =
    | NotATable
    | Edge(supported: bool, marker: Option<Marker>, name: Field<string>, version: Field<Version>,
           source: Option<Source>, extras: Field<seq<Field<string>>>)

  /** hashed: whether every artifact of the package carries a digest of the required form. */
  datatype Package = Package(
    key: Key, source: Source, resolution: Field<seq<Marker>>,
    dependencies: seq<Edge>, groups: map<string, seq<Edge>>, hashes: set<nat>, hashed: bool)

  datatype Error =
    | PackageCountLimit | DuplicateLockPackage | UntrustedSource | EdgeCountLimit | InvalidLockHash | MissingLockHashes
    | MissingProjectRoot | InvalidMapping | InvalidSequence | UnsupportedEdge | InvalidMarker
    | InvalidName | InvalidVersion | UnknownRequestedExtra | MissingOrAmbiguous
    | HashMismatch | DuplicateExportRecord | DuplicateActivePackage | ClosureMismatch | UnpatchedToolchain

  /** Marker evaluation under one environment; None is an evaluation that raises. */
  type Environment = Marker -> Option<bool>

  const PROJECT := "alphaforge"
  const MAX_PACKAGES := 2048
  const MAX_EDGES := 32768

  /** One hashed requirement of the exported file. */
  datatype Pin = Pin(key: Key, marker: Option<Marker>, hashes: set<nat>)

  datatype Report = Report(active: set<Key>, runtime: nat, additional: nat)

  datatype Graph = Graph(packages: map<Key, Package>, names: map<string, seq<Key>>) {
    /** The index lists exactly the packages of each name, each of them once. */
    ghost predicate Valid() {
      && (forall k :: k in packages ==> packages[k].key == k)
      && (forall n, i :: n in names && 0 <= i < |names[n]| ==> names[n][i] in packages && names[n][i].name == n)
      && (forall n, i, j :: n in names && 0 <= i < j < |names[n]| ==> names[n][i] != names[n][j])
      && (forall k :: k in packages ==> k.name in names && k in names[k.name])
    }

    /** Valid, with exactly one project package. */
    ghost predicate Rooted() {
      Valid() && PROJECT in names && |names[PROJECT]| == 1
    }

    function Named(name: string): seq<Key> {
      if name in names then names[name] else []
    }

    function Root(): Key
      requires Rooted()
    {
      names[PROJECT][0]
    }
  }

  // ----- one dependency edge -----

  function Active(env: Environment, marker: Option<Marker>): Option<bool> {
    if marker.None? then Some(true) else env(marker.value)
  }

  /** any(...) over markers: stops at the first true one, and raises at the first bad one before it. */
  function AnyActive(env: Environment, markers: seq<Marker>): Result<bool, Error> {
    if markers == [] then Success(false)
    else if env(markers[0]).None? then Failure(InvalidMarker)
    else if env(markers[0]).value then Success(true)
    else AnyActive(env, markers[1..])
  }

  function SelectVersion(keys: seq<Key>, version: Version): (selected: seq<Key>)
    ensures forall i :: 0 <= i < |selected| ==> selected[i] in keys && selected[i].version == version
  {
    if keys == [] then []
    else (if keys[0].version == version then [keys[0]] else []) + SelectVersion(keys[1..], version)
  }

  /** Whether a candidate has the edge's source and one of its resolution markers is active. */
  function Suits(g: Graph, env: Environment, edge: Edge, k: Key): Result<bool, Error>
    requires edge.Edge? && k in g.packages
  {
    var package := g.packages[k];
    if edge.source.Some? && edge.source.value != package.source then Success(false)
    else if package.resolution.Absent? || package.resolution == Given([]) then Success(true)
    else if package.resolution.Malformed? then Failure(InvalidSequence)
    else AnyActive(env, package.resolution.value)
  }

  function Suitable(g: Graph, env: Environment, edge: Edge, keys: seq<Key>): Result<seq<Key>, Error>
    requires edge.Edge? && forall i :: 0 <= i < |keys| ==> keys[i] in g.packages
  {
    if keys == [] then Success([])
    else
      var first :- Suits(g, env, edge, keys[0]);
      var others :- Suitable(g, env, edge, keys[1..]);
      Success((if first then [keys[0]] else []) + others)
  }

  function Requested(target: Key, extras: seq<Field<string>>): Result<seq<Node>, Error> {
    if extras == [] then Success([])
    else if !extras[0].Given? then Failure(InvalidName)
    else
      var others :- Requested(target, extras[1..]);
      Success([Node(target, extras[0].value)] + others)
  }

  function Targets(target: Key, extras: Field<seq<Field<string>>>): Result<seq<Node>, Error> {
    match extras
    case Malformed => Failure(InvalidSequence)
    case Absent => Success([Node(target, "")])
    case Given(names) =>
      var nodes :- Requested(target, names);
      Success([Node(target, "")] + nodes)
  }

  function Candidates(g: Graph, edge: Edge): (keys: seq<Key>)
    requires g.Valid() && edge.Edge? && edge.name.Given?
    ensures forall i :: 0 <= i < |keys| ==> keys[i] in g.packages
  {
    var named := g.Named(edge.name.value);
    if edge.version.Given? then SelectVersion(named, edge.version.value) else named
  }

  /** What one dependency edge adds to the worklist. */
  function Resolve(g: Graph, env: Environment, edge: Edge): Result<seq<Node>, Error>
    requires g.Valid()
  {
    if edge.NotATable? then Failure(InvalidMapping)
    else if !edge.supported then Failure(UnsupportedEdge)
    else if Active(env, edge.marker).None? then Failure(InvalidMarker)
    else if !Active(env, edge.marker).value then Success([])
    else if !edge.name.Given? then Failure(InvalidName)
    else if edge.version.Malformed? && g.Named(edge.name.value) != [] then Failure(InvalidVersion)
    else
      var found :- Suitable(g, env, edge, Candidates(g, edge));
      if |found| != 1 then Failure(MissingOrAmbiguous) else Targets(found[0], edge.extras)
  }

  /** Everything a list of edges adds, left to right; the first edge that raises decides. */
  function ResolveAll(g: Graph, env: Environment, edges: seq<Edge>): Result<seq<Node>, Error>
    requires g.Valid()
  {
    if edges == [] then Success([])
    else
      var earlier :- ResolveAll(g, env, edges[..|edges| - 1]);
      var last :- Resolve(g, env, edges[|edges| - 1]);
      Success(earlier + last)
  }

  function Edges(g: Graph, node: Node): Result<seq<Edge>, Error>
    requires node.key in g.packages
  {
    var package := g.packages[node.key];
    if node.extra == "" then Success(package.dependencies)
    else if node.extra in package.groups then Success(package.groups[node.extra])
    else Failure(UnknownRequestedExtra)
  }

  /** The successors of a worklist entry. */
  function Next(g: Graph, env: Environment, node: Node): Result<seq<Node>, Error>
    requires g.Valid() && node.key in g.packages
  {
    var edges :- Edges(g, node);
    ResolveAll(g, env, edges)
  }

  lemma {:induction false} SelectedAre(keys: seq<Key>, version: Version, k: Key)
    ensures k in SelectVersion(keys, version) <==> k in keys && k.version == version
  {
    if keys != [] {
      SelectedAre(keys[1..], version, k);
      assert k in keys <==> k == keys[0] || k in keys[1..];
    }
  }

  lemma {:induction false} SuitableAre(g: Graph, env: Environment, edge: Edge, keys: seq<Key>, k: Key)
    requires edge.Edge? && forall i :: 0 <= i < |keys| ==> keys[i] in g.packages
    requires Suitable(g, env, edge, keys).Success?
    ensures k in Suitable(g, env, edge, keys).value <==> k in keys && Suits(g, env, edge, k) == Success(true)
    ensures k in keys ==> Suits(g, env, edge, k).Success?
  {
    if keys != [] {
      SuitableAre(g, env, edge, keys[1..], k);
      assert k in keys <==> k == keys[0] || k in keys[1..];
    }
  }

  /** A package the edge may mean: right name, version if one is given, source, and an active fork. */
  ghost predicate Matches(g: Graph, env: Environment, edge: Edge, k: Key)
    requires edge.Edge?
  {
    && k in g.packages && edge.name == Given(k.name)
    && (edge.version.Given? ==> k.version == edge.version.value)
    && (edge.source.Some? ==> edge.source.value == g.packages[k].source)
    && (g.packages[k].resolution.Given? && g.packages[k].resolution.value != [] ==>
          exists i :: 0 <= i < |g.packages[k].resolution.value|
                      && env(g.packages[k].resolution.value[i]) == Some(true))
  }

  lemma {:induction false} AnyIsExists(env: Environment, markers: seq<Marker>)
    requires AnyActive(env, markers).Success?
    ensures AnyActive(env, markers).value <==> exists i :: 0 <= i < |markers| && env(markers[i]) == Some(true)
  {
    if markers != [] && !env(markers[0]).value {
      AnyIsExists(env, markers[1..]);
      assert forall i :: 0 < i < |markers| ==> markers[i] == markers[1..][i - 1];
    }
  }

  lemma CandidateMatches(g: Graph, env: Environment, edge: Edge, k: Key)
    requires g.Valid() && edge.Edge? && edge.name.Given?
    requires k in Candidates(g, edge) ==> k in g.packages && Suits(g, env, edge, k).Success?
    ensures !edge.version.Malformed? ==>
      (Matches(g, env, edge, k) <==> k in Candidates(g, edge) && Suits(g, env, edge, k) == Success(true))
  {
    var named := g.Named(edge.name.value);
    assert k in named <==> k in g.packages && k.name == edge.name.value;
    if edge.version.Given? {
      SelectedAre(named, edge.version.value, k);
    }
    if k in Candidates(g, edge) && g.packages[k].resolution.Given?
       && AnyActive(env, g.packages[k].resolution.value).Success? {
      AnyIsExists(env, g.packages[k].resolution.value);
    }
  }

  lemma {:induction false} RequestedOf(target: Key, extras: seq<Field<string>>)
    requires Requested(target, extras).Success?
    ensures forall n :: n in Requested(target, extras).value <==> n.key == target && Given(n.extra) in extras
  {
    if extras != [] {
      RequestedOf(target, extras[1..]);
      assert forall e :: e in extras <==> e == extras[0] || e in extras[1..];
    }
  }

  /** The one candidate left over is the only package the edge may mean. */
  lemma OnlyMatch(g: Graph, env: Environment, edge: Edge, k: Key)
    requires g.Valid() && edge.Edge? && Resolve(g, env, edge).Success?
    requires Active(env, edge.marker) == Some(true)
    ensures var found := Suitable(g, env, edge, Candidates(g, edge));
      && found.Success? && |found.value| == 1 && Resolve(g, env, edge) == Targets(found.value[0], edge.extras)
      && (Matches(g, env, edge, k) <==> k == found.value[0])
  {
    var candidates := Candidates(g, edge);
    var found := Suitable(g, env, edge, candidates).value;
    assert !edge.version.Malformed?;
    SuitableAre(g, env, edge, candidates, k);
    CandidateMatches(g, env, edge, k);
    assert k in found <==> k == found[0];
  }

  lemma TargetsAre(target: Key, extras: Field<seq<Field<string>>>, n: Node)
    requires Targets(target, extras).Success?
    ensures var nodes := Targets(target, extras).value;
      && nodes != [] && nodes[0].key == target
      && (n in nodes <==>
            n.key == target && (n.extra == "" || (extras.Given? && Given(n.extra) in extras.value)))
  {
    if extras.Given? {
      RequestedOf(target, extras.value);
      assert n in Targets(target, extras).value <==>
        n == Node(target, "") || n in Requested(target, extras.value).value;
    }
  }

  /**
   * An active edge that does not raise leads to the one package of the lock that matches it, once
   * for the package itself and once for every extra the edge asks for.
   */
  lemma ResolvesToTheOnlyMatch(g: Graph, env: Environment, edge: Edge, k: Key, extra: string)
    requires g.Valid() && edge.Edge? && Resolve(g, env, edge).Success?
    requires Active(env, edge.marker) == Some(true)
    ensures var nodes := Resolve(g, env, edge).value;
      && nodes != [] && (Matches(g, env, edge, k) <==> k == nodes[0].key)
      && (Node(k, extra) in nodes <==>
            Matches(g, env, edge, k)
            && (extra == "" || (edge.extras.Given? && Given(extra) in edge.extras.value)))
  {
    OnlyMatch(g, env, edge, k);
    TargetsAre(Suitable(g, env, edge, Candidates(g, edge)).value[0], edge.extras, Node(k, extra));
  }

  lemma {:induction false} RequestedKeys(target: Key, extras: seq<Field<string>>)
    requires Requested(target, extras).Success?
    ensures forall i :: 0 <= i < |Requested(target, extras).value| ==> Requested(target, extras).value[i].key == target
  {
    if extras != [] {
      RequestedKeys(target, extras[1..]);
    }
  }

  lemma {:induction false} ResolvedAreLocked(g: Graph, env: Environment, edges: seq<Edge>)
    requires g.Valid() && ResolveAll(g, env, edges).Success?
    ensures forall n :: n in ResolveAll(g, env, edges).value ==> n.key in g.packages
    decreases |edges|
  {
    if edges != [] {
      ResolvedAreLocked(g, env, edges[..|edges| - 1]);
      var edge := edges[|edges| - 1];
      if edge.Edge? && Active(env, edge.marker) == Some(true) {
        var found := Suitable(g, env, edge, Candidates(g, edge)).value;
        SuitableAre(g, env, edge, Candidates(g, edge), found[0]);
        if edge.extras.Given? {
          RequestedKeys(found[0], edge.extras.value);
        }
        assert forall n :: n in Resolve(g, env, edge).value ==> n.key == found[0];
      }
    }
  }

  // ----- reachability -----

  ghost predicate Leads(g: Graph, env: Environment, a: Node, b: Node)
    requires g.Valid()
  {
    a.key in g.packages && Next(g, env, a).Success? && b in Next(g, env, a).value
  }

  ghost predicate IsPath(g: Graph, env: Environment, p: seq<Node>)
    requires g.Valid()
  {
    p != [] && forall i :: 0 < i < |p| ==> Leads(g, env, p[i - 1], p[i])
  }

  /** The worklist's first entries: the project itself, and each requested extra of it. */
  function Seeds(root: Key, extras: seq<string>): (seeds: seq<Node>)
    ensures |seeds| == |extras| + 1
    ensures forall n :: n in seeds <==> n.key == root && (n.extra == "" || n.extra in extras)
  {
    var seeds := [Node(root, "")] + seq(|extras|, i requires 0 <= i < |extras| => Node(root, extras[i]));
    assert forall i :: 0 <= i < |extras| ==> seeds[i + 1] == Node(root, extras[i]);
    seeds
  }

  ghost predicate Reachable(g: Graph, env: Environment, extras: seq<string>, n: Node)
    requires g.Rooted()
  {
    exists p :: IsPath(g, env, p) && p[0] in Seeds(g.Root(), extras) && p[|p| - 1] == n
  }

  /** No entry that can be reached raises. */
  ghost predicate Sound(g: Graph, env: Environment, extras: seq<string>)
    requires g.Rooted()
  {
    forall n :: Reachable(g, env, extras, n) ==> n.key in g.packages && Next(g, env, n).Success?
  }

  /** k is a third-party package reachable through active edges. */
  ghost predicate Needed(g: Graph, env: Environment, extras: seq<string>, k: Key)
    requires g.Rooted()
  {
    k != g.Root() && exists extra :: Reachable(g, env, extras, Node(k, extra))
  }

  lemma SeedReachable(g: Graph, env: Environment, extras: seq<string>, n: Node)
    requires g.Rooted() && n in Seeds(g.Root(), extras)
    ensures Reachable(g, env, extras, n)
  {
    assert IsPath(g, env, [n]);
  }

  lemma ReachableLeads(g: Graph, env: Environment, extras: seq<string>, a: Node, b: Node)
    requires g.Rooted() && Reachable(g, env, extras, a) && Leads(g, env, a, b)
    ensures Reachable(g, env, extras, b)
  {
    hide Leads, Seeds;
    var p :| IsPath(g, env, p) && p[0] in Seeds(g.Root(), extras) && p[|p| - 1] == a;
    ExtendPath(g, env, p, b);
    assert IsPath(g, env, p + [b]);
  }

  lemma ExtendPath(g: Graph, env: Environment, p: seq<Node>, b: Node)
    requires g.Valid() && IsPath(g, env, p) && Leads(g, env, p[|p| - 1], b)
    ensures IsPath(g, env, p + [b])
  {
    hide Leads;
    var q := p + [b];
    forall i | 0 < i < |q| ensures Leads(g, env, q[i - 1], q[i]) {
      assert q[i - 1] == p[i - 1];
      assert i < |p| ==> q[i] == p[i];
    }
  }

  /** A set that holds the seeds and is closed under edges holds everything reachable. */
  lemma {:induction false} ClosedHoldsPath(g: Graph, env: Environment, s: set<Node>, p: seq<Node>)
    requires g.Valid() && IsPath(g, env, p) && p[0] in s
    requires forall a, b :: a in s && Leads(g, env, a, b) ==> b in s
    ensures p[|p| - 1] in s
    decreases |p|
  {
    if |p| > 1 {
      var q := p[..|p| - 1];
      assert IsPath(g, env, q);
      ClosedHoldsPath(g, env, s, q);
      assert Leads(g, env, p[|p| - 2], p[|p| - 1]);
    }
  }

  // ----- the worklist -----

  function Universe(g: Graph): set<Node> {
    set k, e | k in g.packages && e in g.packages[k].groups.Keys + {""} :: Node(k, e)
  }

  /** Where the worklist stands: everything visited is reachable, does not raise, and is expanded. */
  ghost predicate Explored(g: Graph, env: Environment, extras: seq<string>, queue: seq<Node>, visited: set<Node>)
    requires g.Rooted()
  {
    && (forall n :: n in queue || n in visited ==> Reachable(g, env, extras, n) && n.key in g.packages)
    && (forall n :: n in Seeds(g.Root(), extras) ==> n in queue || n in visited)
    && (forall n :: n in visited ==> n.key in g.packages && Next(g, env, n).Success?)
    && (forall a, b :: a in visited && Leads(g, env, a, b) ==> b in queue || b in visited)
  }

  /** An empty queue: what was visited is exactly what can be reached. */
  lemma ExploredAll(g: Graph, env: Environment, extras: seq<string>, visited: set<Node>, keys: set<Key>)
    requires g.Rooted() && Explored(g, env, extras, [], visited)
    requires keys == set n | n in visited && n.key != g.Root() :: n.key
    ensures Sound(g, env, extras)
    ensures forall k :: k in keys <==> Needed(g, env, extras, k)
  {
    VisitedIsReachable(g, env, extras, visited);
    hide Reachable, Next, Leads, Seeds;
    forall k | k in keys ensures Needed(g, env, extras, k) {
      var n :| n in visited && n.key == k && k != g.Root();
      assert Reachable(g, env, extras, Node(k, n.extra));
    }
    forall k | Needed(g, env, extras, k) ensures k in keys {
      var extra :| Reachable(g, env, extras, Node(k, extra));
      assert Node(k, extra) in visited;
    }
  }

  lemma VisitedIsReachable(g: Graph, env: Environment, extras: seq<string>, visited: set<Node>)
    requires g.Rooted() && Explored(g, env, extras, [], visited)
    ensures forall n :: Reachable(g, env, extras, n) <==> n in visited
  {
    forall n | Reachable(g, env, extras, n) ensures n in visited {
      var p :| IsPath(g, env, p) && p[0] in Seeds(g.Root(), extras) && p[|p| - 1] == n;
      ClosedHoldsPath(g, env, visited, p);
    }
  }

  lemma NextAreReachable(g: Graph, env: Environment, extras: seq<string>, node: Node)
    requires g.Rooted() && Reachable(g, env, extras, node) && node.key in g.packages
    requires Next(g, env, node).Success?
    ensures forall n :: n in Next(g, env, node).value ==> Reachable(g, env, extras, n) && n.key in g.packages
    ensures forall n :: Leads(g, env, node, n) <==> n in Next(g, env, node).value
  {
    ResolvedAreLocked(g, env, Edges(g, node).value);
    forall n | n in Next(g, env, node).value ensures Reachable(g, env, extras, n) {
      assert Leads(g, env, node, n);
      ReachableLeads(g, env, extras, node, n);
    }
  }

  lemma ExploredMore(
    g: Graph, env: Environment, extras: seq<string>, rest: seq<Node>, node: Node, visited: set<Node>)
    requires g.Rooted() && Explored(g, env, extras, rest + [node], visited)
    requires node.key in g.packages && Next(g, env, node).Success?
    ensures Explored(g, env, extras, rest + Next(g, env, node).value, visited + {node})
  {
    hide Next, Leads, Reachable, Seeds;
    assert node in rest + [node];
    NextAreReachable(g, env, extras, node);
    assert forall n :: n in rest + [node] <==> n in rest || n == node;
    var added := Next(g, env, node).value;
    assert forall n :: n in rest + added <==> n in rest || n in added;
  }

  lemma ExploredTop(
    g: Graph, env: Environment, extras: seq<string>, rest: seq<Node>, node: Node, visited: set<Node>)
    requires g.Rooted() && Explored(g, env, extras, rest + [node], visited)
    ensures Reachable(g, env, extras, node) && node.key in g.packages
  {
    assert node in rest + [node];
  }

  lemma Unsound(g: Graph, env: Environment, extras: seq<string>, node: Node)
    requires g.Rooted() && Reachable(g, env, extras, node)
    requires node.key in g.packages && Next(g, env, node).Failure?
    ensures !Sound(g, env, extras)
  {
  }

  lemma ExploredSkip(
    g: Graph, env: Environment, extras: seq<string>, rest: seq<Node>, node: Node, visited: set<Node>)
    requires g.Rooted() && Explored(g, env, extras, rest + [node], visited) && node in visited
    ensures Explored(g, env, extras, rest, visited)
  {
    hide Next, Leads, Reachable, Seeds;
    assert forall n :: n in rest + [node] <==> n in rest || n == node;
  }

  lemma ExploredStart(g: Graph, env: Environment, extras: seq<string>)
    requires g.Rooted()
    ensures Explored(g, env, extras, Seeds(g.Root(), extras), {})
  {
    forall n | n in Seeds(g.Root(), extras) ensures Reachable(g, env, extras, n) {
      SeedReachable(g, env, extras, n);
    }
  }

  /** The edges of one worklist entry, appended to the queue from left to right. */
  method Expand(g: Graph, env: Environment, node: Node, rest: seq<Node>) returns (r: Result<seq<Node>, Error>)
    requires g.Valid() && node.key in g.packages
    ensures r.Success? ==> Next(g, env, node).Success? && r.value == rest + Next(g, env, node).value
    ensures r.Failure? ==> Next(g, env, node) == Failure(r.error)
  {
    hide Resolve;
    var edges :- Edges(g, node);
    var queue := rest;
    for i := 0 to |edges|
      invariant ResolveAll(g, env, edges[..i]).Success?
      invariant queue == rest + ResolveAll(g, env, edges[..i]).value
    {
      assert edges[..i + 1][..i] == edges[..i];
      var found := Resolve(g, env, edges[i]);
      if found.Failure? {
        FailureStays(g, env, edges, i + 1);
        return Failure(found.error);
      }
      queue := queue + found.value;
    }
    assert edges[..|edges|] == edges;
    r := Success(queue);
  }

  /** Runs the worklist to its end, or to the first entry that raises. */
  method Closure(g: Graph, env: Environment, extras: seq<string>) returns (r: Result<set<Key>, Error>)
    requires g.Rooted()
    ensures r.Success? <==> Sound(g, env, extras)
    ensures r.Success? ==> forall k :: k in r.value <==> Needed(g, env, extras, k)
    ensures r.Failure? ==>
      exists n :: Reachable(g, env, extras, n) && n.key in g.packages && Next(g, env, n) == Failure(r.error)
  {
    hide Next, Leads, Reachable, Seeds, Explored, Universe, Sound, Needed;
    var root := g.names[PROJECT][0];
    var queue := Seeds(root, extras);
    var visited: set<Node> := {};
    ExploredStart(g, env, extras);
    while queue != []
      invariant Explored(g, env, extras, queue, visited)
      invariant visited <= Universe(g)
      decreases |Universe(g) - visited|, |queue|
    {
      var node, rest := queue[|queue| - 1], queue[..|queue| - 1];
      assert queue == rest + [node];
      ExploredTop(g, env, extras, rest, node, visited);
      if node in visited {
        ExploredSkip(g, env, extras, rest, node, visited);
        queue := rest;
        continue;
      }
      var expanded := Expand(g, env, node, rest);
      if expanded.Failure? {
        Unsound(g, env, extras, node);
        return Failure(expanded.error);
      }
      ExploredMore(g, env, extras, rest, node, visited);
      InUniverse(g, env, node);
      queue := expanded.value;
      visited := visited + {node};
    }
    r := Success(set n | n in visited && n.key != root :: n.key);
    ExploredAll(g, env, extras, visited, r.value);
  }

  lemma InUniverse(g: Graph, env: Environment, node: Node)
    requires g.Valid() && node.key in g.packages && Next(g, env, node).Success?
    ensures node in Universe(g)
  {
  }

  lemma {:induction false} FailureStays(g: Graph, env: Environment, edges: seq<Edge>, i: nat)
    requires g.Valid() && i <= |edges| && ResolveAll(g, env, edges[..i]).Failure?
    ensures ResolveAll(g, env, edges) == ResolveAll(g, env, edges[..i])
    decreases |edges|
  {
    if i == |edges| {
      assert edges[..i] == edges;
    } else {
      assert edges[..|edges| - 1][..i] == edges[..i];
      FailureStays(g, env, edges[..|edges| - 1], i);
    }
  }

  /** More requested extras only ever reach more. */
  lemma ReachableMonotone(g: Graph, env: Environment, fewer: seq<string>, more: seq<string>, n: Node)
    requires g.Rooted() && (forall e :: e in fewer ==> e in more)
    requires Reachable(g, env, fewer, n)
    ensures Reachable(g, env, more, n)
  {
    var p :| IsPath(g, env, p) && p[0] in Seeds(g.Root(), fewer) && p[|p| - 1] == n;
    assert p[0] in Seeds(g.Root(), more);
  }

  /**
   * Success and result are monotone in the requested extras: if the larger closure does not raise,
   * neither does the smaller one, and it needs no package that the larger one does not.
   */
  lemma ClosureMonotone(g: Graph, env: Environment, fewer: seq<string>, more: seq<string>)
    requires g.Rooted() && (forall e :: e in fewer ==> e in more)
    ensures Sound(g, env, more) ==> Sound(g, env, fewer)
    ensures forall k :: Needed(g, env, fewer, k) ==> Needed(g, env, more, k)
  {
    forall n | Reachable(g, env, fewer, n) ensures Reachable(g, env, more, n) {
      ReachableMonotone(g, env, fewer, more, n);
    }
  }

  // ----- the index -----

  predicate Trusted(p: Package) {
    p.source == if p.key.name == PROJECT then Editable else Registry
  }

  /** The edges of the given groups; GroupEdgesSplit says that their order does not matter. */
  ghost function GroupEdges(groups: map<string, seq<Edge>>, names: set<string>): nat
    requires names <= groups.Keys
    decreases |names|
  {
    if names == {} then 0
    else
      var n :| n in names;
      |groups[n]| + GroupEdges(groups, names - {n})
  }

  lemma {:induction false} GroupEdgesSplit(groups: map<string, seq<Edge>>, names: set<string>, n: string)
    requires names <= groups.Keys && n in names
    ensures GroupEdges(groups, names) == |groups[n]| + GroupEdges(groups, names - {n})
    decreases |names|
  {
    var m :| m in names && GroupEdges(groups, names) == |groups[m]| + GroupEdges(groups, names - {m});
    if m != n {
      GroupEdgesSplit(groups, names - {m}, n);
      GroupEdgesSplit(groups, names - {n}, m);
      assert names - {m} - {n} == names - {n} - {m};
    }
  }

  ghost function PackageEdges(p: Package): nat {
    |p.dependencies| + GroupEdges(p.groups, p.groups.Keys)
  }

  ghost function TotalEdges(packages: seq<Package>): nat {
    if packages == [] then 0
    else TotalEdges(packages[..|packages| - 1]) + PackageEdges(packages[|packages| - 1])
  }

  method CountEdges(p: Package) returns (n: nat)
    ensures n == PackageEdges(p)
  {
    n := |p.dependencies|;
    var rest := p.groups.Keys;
    while rest != {}
      invariant rest <= p.groups.Keys && n + GroupEdges(p.groups, rest) == PackageEdges(p)
      decreases |rest|
    {
      var name :| name in rest;
      GroupEdgesSplit(p.groups, rest, name);
      n, rest := n + |p.groups[name]|, rest - {name};
    }
  }

  /** What is wrong with a package, given those listed before it. */
  ghost function Fault(earlier: seq<Package>, p: Package): Option<Error> {
    if exists i :: 0 <= i < |earlier| && earlier[i].key == p.key then Some(DuplicateLockPackage)
    else if !Trusted(p) then Some(UntrustedSource)
    else if TotalEdges(earlier) + PackageEdges(p) > MAX_EDGES then Some(EdgeCountLimit)
    else if !p.hashed then Some(InvalidLockHash)
    else if p.key.name != PROJECT && p.hashes == {} then Some(MissingLockHashes)
    else None
  }

  ghost predicate Faultless(packages: seq<Package>) {
    forall i :: 0 <= i < |packages| ==> Fault(packages[..i], packages[i]).None?
  }

  /** The keys of one name, in file order. */
  function KeysNamed(packages: seq<Package>, name: string): (keys: seq<Key>)
    ensures forall k :: k in keys <==> k.name == name && exists p :: p in packages && p.key == k
  {
    if packages == [] then []
    else
      var n := |packages| - 1;
      assert forall p :: p in packages <==> p in packages[..n] || p == packages[n];
      KeysNamed(packages[..n], name) + (if packages[n].key.name == name then [packages[n].key] else [])
  }

  ghost predicate Indexed(g: Graph, packages: seq<Package>) {
    && (forall p :: p in packages ==> p.key in g.packages && g.packages[p.key] == p)
    && (forall k :: k in g.packages ==> g.packages[k] in packages && g.packages[k].key == k)
    && (forall name :: g.Named(name) == KeysNamed(packages, name))
  }

  function Add(g: Graph, p: Package): Graph {
    Graph(g.packages[p.key := p], g.names[p.key.name := g.Named(p.key.name) + [p.key]])
  }

  lemma AddKeepsValid(g: Graph, p: Package)
    requires g.Valid() && p.key !in g.packages
    ensures Add(g, p).Valid()
  {
    var next, name := Add(g, p), p.key.name;
    assert next.names[name] == g.Named(name) + [p.key];
    assert forall k :: k in g.names && k != name ==> next.names[k] == g.names[k];
    forall k | k in next.packages ensures k.name in next.names && k in next.names[k.name] {
      if k == p.key {
        assert next.names[name][|g.Named(name)|] == k;
      }
    }
  }

  lemma AddKeepsIndexed(g: Graph, packages: seq<Package>, p: Package)
    requires Indexed(g, packages) && p.key !in g.packages
    ensures Indexed(Add(g, p), packages + [p])
  {
    var more := packages + [p];
    assert more[..|packages|] == packages;
    assert forall q :: q in more <==> q in packages || q == p;
    forall name ensures Add(g, p).Named(name) == KeysNamed(more, name) {
      assert KeysNamed(more, name) == KeysNamed(packages, name) + (if p.key.name == name then [p.key] else []);
    }
  }

  lemma ListedOrNot(g: Graph, packages: seq<Package>, key: Key)
    requires Indexed(g, packages)
    ensures key in g.packages <==> exists i :: 0 <= i < |packages| && packages[i].key == key
  {
    if key in g.packages {
      var i :| 0 <= i < |packages| && packages[i] == g.packages[key];
    }
  }

  lemma FaultlessMore(packages: seq<Package>, p: Package)
    ensures Faultless(packages + [p]) <==> Faultless(packages) && Fault(packages, p).None?
  {
    hide Fault;
    var more := packages + [p];
    assert more[..|packages|] == packages;
    assert forall i :: 0 <= i < |packages| ==> more[..i] == packages[..i] && more[i] == packages[i];
  }

  /** Builds the index, and refuses the lock at the first package with a fault. */
  method Index(packages: seq<Package>) returns (r: Result<Graph, Error>)
    ensures r.Success? <==>
      0 < |packages| <= MAX_PACKAGES && Faultless(packages) && |KeysNamed(packages, PROJECT)| == 1
    ensures r.Success? ==> r.value.Rooted() && Indexed(r.value, packages)
    ensures r.Failure? && 0 < |packages| <= MAX_PACKAGES ==>
      (Faultless(packages) && r.error == MissingProjectRoot)
      || exists i :: 0 <= i < |packages| && Faultless(packages[..i])
                     && Fault(packages[..i], packages[i]) == Some(r.error)
  {
    if packages == [] || |packages| > MAX_PACKAGES {
      return Failure(PackageCountLimit);
    }
    hide Faultless, Fault, Indexed, KeysNamed, Graph.Valid, TotalEdges, PackageEdges, Add;
    var g, edges := Graph(map[], map[]), 0;
    IndexStart();
    for i := 0 to |packages|
      invariant Faultless(packages[..i]) && edges == TotalEdges(packages[..i])
      invariant g.Valid() && Indexed(g, packages[..i])
    {
      var p := packages[i];
      assert packages[..i + 1] == packages[..i] + [p];
      ListedOrNot(g, packages[..i], p.key);
      FaultIs(packages, i);
      FaultlessMore(packages[..i], p);
      if p.key in g.packages {
        NotFaultless(packages, i);
        return Failure(DuplicateLockPackage);
      }
      if !Trusted(p) {
        NotFaultless(packages, i);
        return Failure(UntrustedSource);
      }
      var added := CountEdges(p);
      edges := edges + added;
      if edges > MAX_EDGES {
        NotFaultless(packages, i);
        return Failure(EdgeCountLimit);
      }
      if !p.hashed {
        NotFaultless(packages, i);
        return Failure(InvalidLockHash);
      }
      if p.key.name != PROJECT && p.hashes == {} {
        NotFaultless(packages, i);
        return Failure(MissingLockHashes);
      }
      AddKeepsValid(g, p);
      AddKeepsIndexed(g, packages[..i], p);
      g := Add(g, p);
    }
    assert packages[..|packages|] == packages;
    IndexedName(g, packages);
    if |g.Named(PROJECT)| != 1 {
      return Failure(MissingProjectRoot);
    }
    r := Success(g);
  }

  /** The faults of one package, and the running edge count after it. */
  lemma FaultIs(packages: seq<Package>, i: nat)
    requires i < |packages|
    ensures var earlier, p := packages[..i], packages[i];
      && TotalEdges(packages[..i + 1]) == TotalEdges(earlier) + PackageEdges(p)
      && Fault(earlier, p) ==
           if exists j :: 0 <= j < |earlier| && earlier[j].key == p.key then Some(DuplicateLockPackage)
           else if !Trusted(p) then Some(UntrustedSource)
           else if TotalEdges(packages[..i + 1]) > MAX_EDGES then Some(EdgeCountLimit)
           else if !p.hashed then Some(InvalidLockHash)
           else if p.key.name != PROJECT && p.hashes == {} then Some(MissingLockHashes)
           else None
  {
    assert packages[..i + 1][..i] == packages[..i];
  }

  lemma IndexStart()
    ensures TotalEdges([]) == 0
    ensures Faultless([]) && Graph(map[], map[]).Valid() && Indexed(Graph(map[], map[]), [])
  {
  }

  lemma IndexedName(g: Graph, packages: seq<Package>)
    requires Indexed(g, packages)
    ensures g.Named(PROJECT) == KeysNamed(packages, PROJECT)
  {
  }

  lemma NotFaultless(packages: seq<Package>, i: nat)
    requires i < |packages| && Fault(packages[..i], packages[i]).Some?
    ensures !Faultless(packages)
  {
  }

  // ----- the exported requirements -----

  predicate PinHolds(g: Graph, env: Environment, pin: Pin) {
    pin.key in g.packages && pin.hashes == g.packages[pin.key].hashes && Active(env, pin.marker).Some?
  }

  predicate IsActive(env: Environment, pin: Pin) {
    Active(env, pin.marker) == Some(true)
  }

  /** No record occurs twice, and no two active records share a package name. */
  predicate Distinct(env: Environment, pins: seq<Pin>) {
    forall i, j :: 0 <= i < j < |pins| ==>
      && (pins[i].key, pins[i].marker) != (pins[j].key, pins[j].marker)
      && (IsActive(env, pins[i]) && IsActive(env, pins[j]) ==> pins[i].key.name != pins[j].key.name)
  }

  function ActiveKeys(env: Environment, pins: seq<Pin>): set<Key> {
    set pin | pin in pins && IsActive(env, pin) :: pin.key
  }

  predicate Patched(keys: set<Key>, floor: Version) {
    && (exists k :: k in keys && k.name == "pip" && k.version >= floor)
    && (exists k :: k in keys && k.name == "pip-audit")
  }

  /** Every record is checked against the lock; the active ones are collected. */
  method CollectPins(g: Graph, env: Environment, pins: seq<Pin>) returns (r: Result<set<Key>, Error>)
    ensures r.Success? <==> (forall i :: 0 <= i < |pins| ==> PinHolds(g, env, pins[i])) && Distinct(env, pins)
    ensures r.Success? ==> r.value == ActiveKeys(env, pins)
  {
    var active: set<Key>, names: set<string>, seen: set<(Key, Option<Marker>)> := {}, {}, {};
    for i := 0 to |pins|
      invariant forall j :: 0 <= j < i ==> PinHolds(g, env, pins[j])
      invariant Distinct(env, pins[..i])
      invariant active == ActiveKeys(env, pins[..i]) && names == set k | k in active :: k.name
      invariant seen == set j | 0 <= j < i :: (pins[j].key, pins[j].marker)
    {
      var pin := pins[i];
      if pin.key !in g.packages || pin.hashes != g.packages[pin.key].hashes {
        return Failure(HashMismatch);
      }
      if (pin.key, pin.marker) in seen {
        return Failure(DuplicateExportRecord);
      }
      seen := seen + {(pin.key, pin.marker)};
      if Active(env, pin.marker).None? {
        return Failure(InvalidMarker);
      }
      if Active(env, pin.marker).value {
        if pin.key.name in names {
          return Failure(DuplicateActivePackage);
        }
        active := active + {pin.key};
        names := names + {pin.key.name};
      }
    }
    assert pins[..|pins|] == pins;
    r := Success(active);
  }

  /**
   * The export is accepted exactly when no reachable entry raises, every record is the lock's, and
   * the active records are the packages needed by the project and its dev extra, with a patched
   * audit toolchain. The second closure, for the runtime alone, then never raises, and the two
   * counts add up to the active packages.
   */
  method ValidateExport(g: Graph, env: Environment, pins: seq<Pin>, floor: Version)
    returns (r: Result<Report, Error>)
    requires g.Rooted()
    ensures r.Success? <==>
      && Sound(g, env, ["dev"])
      && (forall i :: 0 <= i < |pins| ==> PinHolds(g, env, pins[i])) && Distinct(env, pins)
      && (forall k :: k in ActiveKeys(env, pins) <==> Needed(g, env, ["dev"], k))
      && Patched(ActiveKeys(env, pins), floor)
    ensures r.Success? ==>
      && r.value.active == ActiveKeys(env, pins)
      && r.value.runtime + r.value.additional == |r.value.active|
      && exists runtime: set<Key> ::
           && |runtime| == r.value.runtime && runtime <= r.value.active
           && forall k :: k in runtime <==> Needed(g, env, [], k)
  {
    hide Sound, Needed, PinHolds, Distinct, ActiveKeys;
    var expected := Closure(g, env, ["dev"]);
    if expected.Failure? {
      return Failure(expected.error);
    }
    var collected := CollectPins(g, env, pins);
    if collected.Failure? {
      return Failure(collected.error);
    }
    var active := collected.value;
    if active != expected.value {
      return Failure(ClosureMismatch);
    }
    if !Patched(active, floor) {
      return Failure(UnpatchedToolchain);
    }
    var runtime := Closure(g, env, []);
    // A smaller closure than the one above: it cannot raise.
    ClosureMonotone(g, env, [], ["dev"]);
    SplitCount(active, runtime.value);
    r := Success(Report(active, |runtime.value|, |active - runtime.value|));
  }

  lemma SplitCount<T>(whole: set<T>, part: set<T>)
    requires part <= whole
    ensures |part| + |whole - part| == |whole|
  {
    assert whole == part + (whole - part);
  }
}
