/** The closure of a lock, said in the lock's own entries: which edges count, when one raises, what is reached. */
module LockLaws {
  import opened Basics
  import opened LockGraph

  /** The entry (p, extra) lists this edge: among the package's dependencies, or in the group of that extra. */
  ghost predicate Lists(g: Graph, n: Node, edge: Edge) {
    && n.key in g.packages
    && if n.extra == "" then edge in g.packages[n.key].dependencies
       else n.extra in g.packages[n.key].groups && edge in g.packages[n.key].groups[n.extra]
  }

  ghost predicate On(env: Environment, edge: Edge) {
    edge.Edge? && (edge.marker.None? || env(edge.marker.value) == Some(true))
  }

  /** One step of the lock: an active edge of a, to the package it matches, for itself or an extra it asks for. */
  ghost predicate Hop(g: Graph, env: Environment, a: Node, b: Node) {
    exists edge ::
      && Lists(g, a, edge) && On(env, edge) && Matches(g, env, edge, b.key)
      && (b.extra == "" || (edge.extras.Given? && Given(b.extra) in edge.extras.value))
  }

  /** Evaluating any(...) over the markers comes to an answer. */
  predicate Evaluates(env: Environment, markers: seq<Marker>) {
    forall i :: 0 <= i < |markers| && env(markers[i]).None? ==>
      exists j :: 0 <= j < i && env(markers[j]) == Some(true)
  }

  /** A package whose resolution markers the edge makes the audit look at. */
  ghost predicate LookedAt(g: Graph, edge: Edge, k: Key)
    requires edge.Edge?
  {
    && k in g.packages && edge.name == Given(k.name)
    && (edge.version.Given? ==> k.version == edge.version.value)
    && (edge.source.Some? ==> edge.source.value == g.packages[k].source)
  }

  ghost predicate Readable(g: Graph, env: Environment, k: Key)
    requires k in g.packages
  {
    match g.packages[k].resolution
    case Absent => true
    case Malformed => false
    case Given(markers) => Evaluates(env, markers)
  }

  ghost predicate OneMatch(g: Graph, env: Environment, edge: Edge)
    requires edge.Edge?
  {
    exists k :: Matches(g, env, edge, k) && forall other :: Matches(g, env, edge, other) ==> other == k
  }

  /** An edge that does not raise: of the known form, its marker evaluates, and, if active, it means one package. */
  ghost predicate Sane(g: Graph, env: Environment, edge: Edge) {
    && edge.Edge? && edge.supported && (edge.marker.Some? ==> env(edge.marker.value).Some?)
    && (On(env, edge) ==>
          && edge.name.Given? && !edge.version.Malformed?
          && (forall k :: LookedAt(g, edge, k) ==> Readable(g, env, k))
          && OneMatch(g, env, edge)
          && !edge.extras.Malformed?
          && (edge.extras.Given? ==> forall e :: e in edge.extras.value ==> e.Given?))
  }

  /** An entry does not raise: its extra is the package's own, and all its edges are sane. */
  ghost predicate Healthy(g: Graph, env: Environment, n: Node) {
    && n.key in g.packages && (n.extra == "" || n.extra in g.packages[n.key].groups)
    && forall edge :: Lists(g, n, edge) ==> Sane(g, env, edge)
  }

  // ----- single edges -----

  lemma {:induction false} AnyEvaluates(env: Environment, markers: seq<Marker>)
    ensures AnyActive(env, markers).Success? <==> Evaluates(env, markers)
  {
    if markers != [] && env(markers[0]) == Some(false) {
      AnyEvaluates(env, markers[1..]);
      var rest := markers[1..];
      assert forall i :: 0 < i < |markers| ==> markers[i] == rest[i - 1];
      if Evaluates(env, rest) {
        forall i | 0 <= i < |markers| && env(markers[i]).None?
          ensures exists j :: 0 <= j < i && env(markers[j]) == Some(true)
        {
          var j :| 0 <= j < i - 1 && env(rest[j]) == Some(true);
          assert env(markers[j + 1]) == Some(true);
        }
      }
      if Evaluates(env, markers) {
        forall i | 0 <= i < |rest| && env(rest[i]).None?
          ensures exists j :: 0 <= j < i && env(rest[j]) == Some(true)
        {
          assert env(markers[i + 1]).None?;
          var j :| 0 <= j < i + 1 && env(markers[j]) == Some(true);
          assert env(rest[j - 1]) == Some(true);
        }
      }
    }
  }

  lemma SuitsEvaluates(g: Graph, env: Environment, edge: Edge, k: Key)
    requires edge.Edge? && k in g.packages
    ensures Suits(g, env, edge, k).Success? <==>
      ((edge.source.Some? ==> edge.source.value == g.packages[k].source) ==> Readable(g, env, k))
  {
    if g.packages[k].resolution.Given? {
      AnyEvaluates(env, g.packages[k].resolution.value);
    }
  }

  lemma {:induction false} SuitableSucceeds(g: Graph, env: Environment, edge: Edge, keys: seq<Key>)
    requires edge.Edge? && forall i :: 0 <= i < |keys| ==> keys[i] in g.packages
    ensures Suitable(g, env, edge, keys).Success? <==>
      forall k :: k in keys ==> k in g.packages && Suits(g, env, edge, k).Success?
  {
    if keys != [] {
      SuitableSucceeds(g, env, edge, keys[1..]);
      assert forall k :: k in keys <==> k == keys[0] || k in keys[1..];
    }
  }

  lemma {:induction false} SelectedApart(keys: seq<Key>, version: Version)
    requires NoDuplicates(keys)
    ensures NoDuplicates(SelectVersion(keys, version))
  {
    if keys != [] {
      SelectedApart(keys[1..], version);
      SelectedAre(keys[1..], version, keys[0]);
    }
  }

  lemma {:induction false} SuitableApart(g: Graph, env: Environment, edge: Edge, keys: seq<Key>)
    requires edge.Edge? && NoDuplicates(keys) && forall i :: 0 <= i < |keys| ==> keys[i] in g.packages
    requires Suitable(g, env, edge, keys).Success?
    ensures NoDuplicates(Suitable(g, env, edge, keys).value)
  {
    if keys != [] {
      SuitableApart(g, env, edge, keys[1..]);
      SuitableAre(g, env, edge, keys[1..], keys[0]);
    }
  }

  lemma {:induction false} RequestedSucceeds(target: Key, extras: seq<Field<string>>)
    ensures Requested(target, extras).Success? <==> forall e :: e in extras ==> e.Given?
  {
    if extras != [] {
      RequestedSucceeds(target, extras[1..]);
      assert forall e :: e in extras <==> e == extras[0] || e in extras[1..];
    }
  }

  lemma CandidatesAre(g: Graph, edge: Edge, k: Key)
    requires g.Valid() && edge.Edge? && edge.name.Given?
    ensures k in Candidates(g, edge) <==>
      k in g.packages && k.name == edge.name.value && (edge.version.Given? ==> k.version == edge.version.value)
    ensures NoDuplicates(Candidates(g, edge))
  {
    var named := g.Named(edge.name.value);
    if edge.version.Given? {
      SelectedAre(named, edge.version.value, k);
      SelectedApart(named, edge.version.value);
    }
  }

  lemma CandidatesEvaluate(g: Graph, env: Environment, edge: Edge)
    requires g.Valid() && edge.Edge? && edge.name.Given?
    ensures Suitable(g, env, edge, Candidates(g, edge)).Success? <==>
      forall k :: LookedAt(g, edge, k) ==> Readable(g, env, k)
  {
    hide Candidates, Suits, Readable, Suitable;
    var candidates := Candidates(g, edge);
    SuitableSucceeds(g, env, edge, candidates);
    forall k | k in g.packages
      ensures k in candidates ==> (Suits(g, env, edge, k).Success? <==> (LookedAt(g, edge, k) ==> Readable(g, env, k)))
      ensures LookedAt(g, edge, k) ==> k in candidates
    {
      CandidatesAre(g, edge, k);
      SuitsEvaluates(g, env, edge, k);
    }
  }

  /** Among candidates that can be looked at, exactly those that suit are matches, each of them once. */
  lemma FoundAreMatches(g: Graph, env: Environment, edge: Edge)
    requires g.Valid() && edge.Edge? && edge.name.Given? && !edge.version.Malformed?
    requires Suitable(g, env, edge, Candidates(g, edge)).Success?
    ensures var found := Suitable(g, env, edge, Candidates(g, edge)).value;
      NoDuplicates(found) && forall k :: k in found <==> Matches(g, env, edge, k)
  {
    hide Candidates, Suits, Suitable, Matches;
    var candidates := Candidates(g, edge);
    CandidatesApart(g, edge);
    SuitableApart(g, env, edge, candidates);
    forall k ensures k in Suitable(g, env, edge, candidates).value <==> Matches(g, env, edge, k) {
      SuitableAre(g, env, edge, candidates, k);
      CandidateMatches(g, env, edge, k);
    }
  }

  lemma CandidatesApart(g: Graph, edge: Edge)
    requires g.Valid() && edge.Edge? && edge.name.Given?
    ensures NoDuplicates(Candidates(g, edge))
  {
    CandidatesAre(g, edge, Key("", 0));
  }

  lemma TwoDiffer(keys: seq<Key>)
    requires NoDuplicates(keys)
    ensures |keys| > 1 ==> keys[0] != keys[1]
  {
  }

  lemma OneOrNot(g: Graph, env: Environment, edge: Edge, found: seq<Key>)
    requires edge.Edge? && NoDuplicates(found) && forall k :: k in found <==> Matches(g, env, edge, k)
    ensures |found| == 1 <==> OneMatch(g, env, edge)
  {
    hide Matches;
    if |found| == 1 {
      assert found[0] in found;
      forall other | Matches(g, env, edge, other) ensures other == found[0] {
        assert other in found;
      }
    }
    TwoDiffer(found);
    if OneMatch(g, env, edge) {
      var k :| Matches(g, env, edge, k) && forall other :: Matches(g, env, edge, other) ==> other == k;
      assert k in found;
      forall i | 0 <= i < |found| ensures found[i] == k {
        assert found[i] in found;
      }
    }
  }

  /** An edge raises exactly when it is not sane. */
  lemma ResolveSucceeds(g: Graph, env: Environment, edge: Edge)
    requires g.Valid()
    ensures Resolve(g, env, edge).Success? <==> Sane(g, env, edge)
  {
    hide Candidates, Suits, Suitable, Matches, Readable, LookedAt, OneMatch, Requested;
    if edge.Edge? && edge.supported && On(env, edge) && edge.name.Given? {
      if edge.version.Malformed? && g.Named(edge.name.value) == [] {
        UnknownName(g, env, edge);
      } else if !edge.version.Malformed? {
        CandidatesEvaluate(g, env, edge);
        if Suitable(g, env, edge, Candidates(g, edge)).Success? {
          var found := Suitable(g, env, edge, Candidates(g, edge)).value;
          FoundAreMatches(g, env, edge);
          OneOrNot(g, env, edge, found);
          if |found| == 1 && edge.extras.Given? {
            RequestedSucceeds(found[0], edge.extras.value);
          }
        }
      }
    }
  }

  lemma UnknownName(g: Graph, env: Environment, edge: Edge)
    requires g.Valid() && edge.Edge? && edge.name.Given? && edge.version.Malformed?
    requires g.Named(edge.name.value) == []
    ensures Suitable(g, env, edge, Candidates(g, edge)) == Success([])
  {
  }

  // ----- whole entries -----

  lemma {:induction false} ResolveAllMeans(g: Graph, env: Environment, edges: seq<Edge>)
    requires g.Valid()
    ensures ResolveAll(g, env, edges).Success? <==> forall edge :: edge in edges ==> Resolve(g, env, edge).Success?
    ensures ResolveAll(g, env, edges).Success? ==> forall n ::
      n in ResolveAll(g, env, edges).value <==> exists edge :: edge in edges && Resolve(g, env, edge).Success?
                                                              && n in Resolve(g, env, edge).value
    decreases |edges|
  {
    hide Resolve;
    if edges != [] {
      var init, last := edges[..|edges| - 1], edges[|edges| - 1];
      assert edges == init + [last];
      ResolveAllMeans(g, env, init);
    }
  }

  /** The entry's edges are those the lock lists for it; a requested extra the package does not have is refused. */
  lemma EdgesAreListed(g: Graph, n: Node, edge: Edge)
    requires n.key in g.packages
    ensures Edges(g, n).Success? <==> n.extra == "" || n.extra in g.packages[n.key].groups
    ensures Edges(g, n).Failure? ==> Edges(g, n).error == UnknownRequestedExtra
    ensures Edges(g, n).Success? ==> (edge in Edges(g, n).value <==> Lists(g, n, edge))
  {
  }

  /** An entry raises exactly when it is not healthy: for an extra the package does not have, by that name. */
  lemma NextSucceeds(g: Graph, env: Environment, n: Node)
    requires g.Valid() && n.key in g.packages
    ensures Next(g, env, n).Success? <==> Healthy(g, env, n)
    ensures n.extra != "" && n.extra !in g.packages[n.key].groups ==>
      Next(g, env, n) == Failure(UnknownRequestedExtra)
  {
    hide Resolve, ResolveAll, Sane, Lists, Edges;
    forall edge
      ensures Edges(g, n).Success? ==> (edge in Edges(g, n).value <==> Lists(g, n, edge))
      ensures Resolve(g, env, edge).Success? <==> Sane(g, env, edge)
    {
      EdgesAreListed(g, n, edge);
      ResolveSucceeds(g, env, edge);
    }
    EdgesAreListed(g, n, NotATable);
    if Edges(g, n).Success? {
      ResolveAllMeans(g, env, Edges(g, n).value);
    }
  }

  lemma InactiveAddsNothing(g: Graph, env: Environment, edge: Edge)
    requires g.Valid() && Resolve(g, env, edge).Success? && !On(env, edge)
    ensures Resolve(g, env, edge).value == []
  {
  }

  lemma ResolveMeans(g: Graph, env: Environment, edge: Edge, b: Node)
    requires g.Valid() && Resolve(g, env, edge).Success?
    ensures b in Resolve(g, env, edge).value <==>
      && On(env, edge) && Matches(g, env, edge, b.key)
      && (b.extra == "" || (edge.extras.Given? && Given(b.extra) in edge.extras.value))
  {
    hide Matches;
    if On(env, edge) {
      assert Active(env, edge.marker) == Some(true);
      hide Resolve;
      ResolvesToTheOnlyMatch(g, env, edge, b.key, b.extra);
    } else {
      InactiveAddsNothing(g, env, edge);
    }
  }

  /** What an entry adds to the worklist is exactly one step of the lock away. */
  lemma NextMeans(g: Graph, env: Environment, a: Node, b: Node)
    requires g.Valid() && a.key in g.packages && Next(g, env, a).Success?
    ensures b in Next(g, env, a).value <==> Hop(g, env, a, b)
  {
    hide Resolve, ResolveAll, Matches, Lists, Edges;
    var edges := Edges(g, a).value;
    ResolveAllMeans(g, env, edges);
    forall edge
      ensures edge in edges <==> Lists(g, a, edge)
      ensures Resolve(g, env, edge).Success? ==>
        (b in Resolve(g, env, edge).value <==>
           && On(env, edge) && Matches(g, env, edge, b.key)
           && (b.extra == "" || (edge.extras.Given? && Given(b.extra) in edge.extras.value)))
    {
      EdgesAreListed(g, a, edge);
      if Resolve(g, env, edge).Success? {
        ResolveMeans(g, env, edge, b);
      }
    }
  }

  // ----- the closure -----

  /** A walk through the lock from the project, or from one of its requested extras. */
  ghost predicate Walk(g: Graph, env: Environment, extras: seq<string>, p: seq<Node>)
    requires g.Rooted()
  {
    && p != [] && p[0].key == g.Root() && (p[0].extra == "" || p[0].extra in extras)
    && forall i :: 0 < i < |p| ==> Hop(g, env, p[i - 1], p[i])
  }

  ghost predicate Reached(g: Graph, env: Environment, extras: seq<string>, n: Node)
    requires g.Rooted()
  {
    exists p :: Walk(g, env, extras, p) && p[|p| - 1] == n
  }

  /** A package other than the project that some walk ends in. */
  ghost predicate WalkedTo(g: Graph, env: Environment, extras: seq<string>, k: Key)
    requires g.Rooted()
  {
    k != g.Root() && exists extra :: Reached(g, env, extras, Node(k, extra))
  }

  /** Nothing that can be reached raises. */
  ghost predicate AllHealthy(g: Graph, env: Environment, extras: seq<string>)
    requires g.Rooted()
  {
    forall n :: Reached(g, env, extras, n) ==> Healthy(g, env, n)
  }

  lemma LeadsHop(g: Graph, env: Environment, a: Node, b: Node)
    requires g.Valid()
    ensures Leads(g, env, a, b) ==> Hop(g, env, a, b)
    ensures a.key in g.packages && Next(g, env, a).Success? && Hop(g, env, a, b) ==> Leads(g, env, a, b)
  {
    hide Next, Hop;
    if a.key in g.packages && Next(g, env, a).Success? {
      NextMeans(g, env, a, b);
    }
  }

  /** Every path of the worklist is a walk. */
  lemma PathIsWalk(g: Graph, env: Environment, extras: seq<string>, p: seq<Node>)
    requires g.Rooted() && IsPath(g, env, p) && p[0] in Seeds(g.Root(), extras)
    ensures Walk(g, env, extras, p)
  {
    hide Leads, Hop;
    forall i | 0 < i < |p| ensures Hop(g, env, p[i - 1], p[i]) {
      LeadsHop(g, env, p[i - 1], p[i]);
    }
  }

  lemma PathIsReachable(g: Graph, env: Environment, extras: seq<string>, p: seq<Node>)
    requires g.Rooted() && IsPath(g, env, p) && p[0] in Seeds(g.Root(), extras)
    ensures Reachable(g, env, extras, p[|p| - 1])
    ensures Sound(g, env, extras) ==>
      p[|p| - 1].key in g.packages && Next(g, env, p[|p| - 1]).Success?
  {
    hide Leads, Next, Seeds;
  }

  lemma WalkPrefix(g: Graph, env: Environment, extras: seq<string>, p: seq<Node>)
    requires g.Rooted() && Walk(g, env, extras, p) && |p| > 1
    ensures Walk(g, env, extras, p[..|p| - 1]) && Hop(g, env, p[|p| - 2], p[|p| - 1])
  {
    hide Hop;
    var q := p[..|p| - 1];
    assert forall i :: 0 <= i < |q| ==> q[i] == p[i];
  }

  lemma RootIsSeed(g: Graph, env: Environment, extras: seq<string>, p: seq<Node>)
    requires g.Rooted() && Walk(g, env, extras, p)
    ensures p[0] in Seeds(g.Root(), extras)
  {
    hide Hop;
  }

  lemma OneIsPath(g: Graph, env: Environment, p: seq<Node>)
    requires g.Valid() && |p| == 1
    ensures IsPath(g, env, p)
  {
  }

  /** And every walk whose entries do not raise is such a path. */
  lemma {:induction false} WalkIsPath(g: Graph, env: Environment, extras: seq<string>, p: seq<Node>)
    requires g.Rooted() && p != [] && Walk(g, env, extras, p) && Sound(g, env, extras)
    ensures IsPath(g, env, p) && p[0] in Seeds(g.Root(), extras)
    decreases |p|
  {
    hide Leads, Hop, Next, Sound, Seeds, IsPath, Walk;
    RootIsSeed(g, env, extras, p);
    if |p| > 1 {
      var q := p[..|p| - 1];
      WalkPrefix(g, env, extras, p);
      WalkIsPath(g, env, extras, q);
      PathIsReachable(g, env, extras, q);
      LeadsHop(g, env, q[|q| - 1], p[|p| - 1]);
      ExtendPath(g, env, q, p[|p| - 1]);
      assert q + [p[|p| - 1]] == p;
    } else {
      OneIsPath(g, env, p);
    }
  }

  lemma ReachableIsReached(g: Graph, env: Environment, extras: seq<string>, n: Node)
    requires g.Rooted()
    ensures Reachable(g, env, extras, n) ==> Reached(g, env, extras, n)
    ensures Sound(g, env, extras) && Reached(g, env, extras, n) ==> Reachable(g, env, extras, n)
  {
    hide Next, Leads, Hop, Seeds, Sound;
    if Reachable(g, env, extras, n) {
      var p :| IsPath(g, env, p) && p[0] in Seeds(g.Root(), extras) && p[|p| - 1] == n;
      PathIsWalk(g, env, extras, p);
    }
    if Sound(g, env, extras) && Reached(g, env, extras, n) {
      var p :| Walk(g, env, extras, p) && p[|p| - 1] == n;
      WalkIsPath(g, env, extras, p);
    }
  }

  lemma WalksStayLocked(g: Graph, env: Environment, extras: seq<string>, n: Node)
    requires g.Rooted() && Reached(g, env, extras, n)
    ensures n.key in g.packages
  {
    var p :| Walk(g, env, extras, p) && p[|p| - 1] == n;
    if |p| > 1 {
      assert Hop(g, env, p[|p| - 2], p[|p| - 1]);
    }
  }

  /**
   * The audit's closure, read off the lock: it succeeds exactly when every entry that can be walked to
   * is healthy, and then needs exactly the packages, other than the project, that can be walked to.
   */
  lemma ClosureFollowsTheLock(g: Graph, env: Environment, extras: seq<string>)
    requires g.Rooted()
    ensures Sound(g, env, extras) <==> AllHealthy(g, env, extras)
    ensures Sound(g, env, extras) ==> forall k ::
      Needed(g, env, extras, k) <==> WalkedTo(g, env, extras, k)
  {
    hide Next, Healthy, Reachable, Reached;
    forall n
      ensures Reachable(g, env, extras, n) ==> Reached(g, env, extras, n)
      ensures Sound(g, env, extras) && Reached(g, env, extras, n) ==> Reachable(g, env, extras, n)
      ensures Reached(g, env, extras, n) ==>
        n.key in g.packages && (Next(g, env, n).Success? <==> Healthy(g, env, n))
    {
      ReachableIsReached(g, env, extras, n);
      if Reached(g, env, extras, n) {
        WalksStayLocked(g, env, extras, n);
        NextSucceeds(g, env, n);
      }
    }
  }

  /** A package other than the project is needed exactly when an active edge of something reached matches it. */
  lemma NeededByAnEdge(g: Graph, env: Environment, extras: seq<string>, k: Key)
    requires g.Rooted() && Sound(g, env, extras) && k != g.Root()
    ensures Needed(g, env, extras, k) <==>
      exists n, edge :: Reachable(g, env, extras, n) && Lists(g, n, edge) && On(env, edge) && Matches(g, env, edge, k)
  {
    hide Next, Matches, Lists, Reachable, Reached, Walk, Sound;
    ClosureFollowsTheLock(g, env, extras);
    if Needed(g, env, extras, k) {
      var extra :| Reached(g, env, extras, Node(k, extra));
      var a := LastHop(g, env, extras, Node(k, extra));
      ReachableIsReached(g, env, extras, a);
      assert Hop(g, env, a, Node(k, extra));
    }
    if n, edge :| Reachable(g, env, extras, n) && Lists(g, n, edge) && On(env, edge) && Matches(g, env, edge, k) {
      ReachableIsReached(g, env, extras, n);
      assert Hop(g, env, n, Node(k, ""));
      HopFurther(g, env, extras, n, Node(k, ""));
    }
  }

  lemma LastHop(g: Graph, env: Environment, extras: seq<string>, n: Node) returns (a: Node)
    requires g.Rooted() && Reached(g, env, extras, n) && n.key != g.Root()
    ensures Reached(g, env, extras, a) && Hop(g, env, a, n)
  {
    hide Hop;
    var p :| Walk(g, env, extras, p) && p[|p| - 1] == n;
    a := p[|p| - 2];
    var q := p[..|p| - 1];
    assert Walk(g, env, extras, q) && q[|q| - 1] == a;
  }

  lemma HopFurther(g: Graph, env: Environment, extras: seq<string>, a: Node, b: Node)
    requires g.Rooted() && Reached(g, env, extras, a) && Hop(g, env, a, b)
    ensures Reached(g, env, extras, b)
  {
    hide Hop;
    var p :| Walk(g, env, extras, p) && p[|p| - 1] == a;
    var q := p + [b];
    forall i | 0 < i < |q| ensures Hop(g, env, q[i - 1], q[i]) {
      assert q[i - 1] == p[i - 1];
      assert i < |p| ==> q[i] == p[i];
    }
    assert Walk(g, env, extras, q);
  }

  // ----- the index and the export -----

  /** In a faultless lock the project alone is editable, and everything else comes hashed from the registry. */
  lemma FaultlessMeans(packages: seq<Package>, p: Package)
    requires Faultless(packages) && p in packages
    ensures p.key.name == "alphaforge" ==> p.source == Editable
    ensures p.key.name != "alphaforge" ==> p.source == Registry && p.hashes != {}
    ensures p.hashed
  {
    hide TotalEdges, PackageEdges;
    var i :| 0 <= i < |packages| && packages[i] == p;
    assert Fault(packages[..i], packages[i]).None?;
  }

  /** And no package is listed twice, nor are there more than 32,768 edges in all. */
  lemma FaultlessIsBounded(packages: seq<Package>)
    requires Faultless(packages)
    ensures forall i, j :: 0 <= i < j < |packages| ==> packages[i].key != packages[j].key
    ensures TotalEdges(packages) <= 32_768
  {
    hide PackageEdges;
    forall i, j | 0 <= i < j < |packages| ensures packages[i].key != packages[j].key {
      assert Fault(packages[..j], packages[j]).None?;
      assert packages[..j][i] == packages[i];
    }
    if packages != [] {
      FaultIs(packages, |packages| - 1);
      assert packages[..|packages|] == packages;
      assert Fault(packages[..|packages| - 1], packages[|packages| - 1]).None?;
    }
  }

  ghost predicate Applies(env: Environment, pin: Pin) {
    pin.marker.None? || env(pin.marker.value) == Some(true)
  }

  ghost predicate Present(env: Environment, pins: seq<Pin>, k: Key) {
    exists pin :: pin in pins && pin.key == k && Applies(env, pin)
  }

  /**
   * An accepted export, record by record: each is a package of the lock with exactly its hashes, those
   * that apply are exactly the packages that can be walked to, and among them are an audit tool and a
   * pip no older than the floor.
   */
  lemma AcceptedExportMeans(g: Graph, env: Environment, pins: seq<Pin>, floor: Version)
    requires g.Rooted() && Sound(g, env, ["dev"])
    requires (forall i :: 0 <= i < |pins| ==> PinHolds(g, env, pins[i])) && Distinct(env, pins)
    ensures forall pin :: pin in pins ==> pin.key in g.packages && pin.hashes == g.packages[pin.key].hashes
    ensures (forall k :: k in ActiveKeys(env, pins) <==> Needed(g, env, ["dev"], k)) <==>
      forall k :: Present(env, pins, k) <==> WalkedTo(g, env, ["dev"], k)
    ensures Patched(ActiveKeys(env, pins), floor) <==>
      && (exists pin :: pin in pins && Applies(env, pin) && pin.key.name == "pip" && pin.key.version >= floor)
      && (exists pin :: pin in pins && Applies(env, pin) && pin.key.name == "pip-audit")
  {
    hide Sound, Needed, WalkedTo, Distinct;
    ClosureFollowsTheLock(g, env, ["dev"]);
    forall k ensures k in ActiveKeys(env, pins) <==> Present(env, pins, k) {
      ActiveMeans(env, pins, k);
    }
    forall pin | pin in pins && Applies(env, pin) ensures Present(env, pins, pin.key) {
    }
    hide ActiveKeys;
  }

  lemma ActiveMeans(env: Environment, pins: seq<Pin>, k: Key)
    ensures k in ActiveKeys(env, pins) <==> Present(env, pins, k)
  {
    assert forall pin :: IsActive(env, pin) <==> Applies(env, pin);
  }
}
