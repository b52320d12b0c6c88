/**
 * The explicit-stack budget walks over parsed JSON: decode in signal_foundry/boundary.py and
 * finiteTree in apps/nexus/src/api.ts.
 */
module JsonWalk {
  import opened Basics

  const MAX_DEPTH := 32

  /** A parsed value; an object keeps its members in order. */
  datatype Json =
    | Null
    | Bool(truth: bool)
    | Number(finite: bool)
    | Text(text: string)
    | Array(items: seq<Json>)
    | Object(keys: seq<string>, values: seq<Json>)

  function Children(v: Json): seq<Json> {
    match v
    case Array(items) => items
    case Object(_, values) => values
    case _ => []
  }

  // ----- the recursive meaning of the budget -----

  /** Nodes of a tree, and of a forest. */
  function Size(v: Json): (n: nat)
    ensures n >= 1
    decreases v, 1
  {
    match v
    case Array(items) => 1 + SizeAll(items)
    case Object(_, values) => 1 + SizeAll(values)
    case _ => 1
  }

  function SizeAll(vs: seq<Json>): (n: nat)
    ensures n >= |vs|
    decreases vs, 0
  {
    if vs == [] then 0 else Size(vs[0]) + SizeAll(vs[1..])
  }

  /** No node lies deeper than budget levels below the top. */
  predicate Shallow(v: Json, budget: int)
    decreases v, 1
  {
    budget >= 0 &&
    match v
    case Array(items) => ShallowAll(items, budget - 1)
    case Object(_, values) => ShallowAll(values, budget - 1)
    case _ => true
  }

  predicate ShallowAll(vs: seq<Json>, budget: int)
    decreases vs, 0
  {
    vs != [] ==> Shallow(vs[0], budget) && ShallowAll(vs[1..], budget)
  }

  predicate Finite(v: Json)
    decreases v, 1
  {
    match v
    case Number(finite) => finite
    case Array(items) => FiniteAll(items)
    case Object(_, values) => FiniteAll(values)
    case _ => true
  }

  predicate FiniteAll(vs: seq<Json>)
    decreases vs, 0
  {
    vs != [] ==> Finite(vs[0]) && FiniteAll(vs[1..])
  }

  /** What either walk promises about the trees it lets through. */
  predicate WithinBudget(v: Json, nodes: nat) {
    Size(v) <= nodes && Shallow(v, MAX_DEPTH) && Finite(v)
  }

  /** A value under that many arrays. */
  function Nested(levels: nat, v: Json): Json {
    if levels == 0 then v else Array([Nested(levels - 1, v)])
  }

  /** Nesting costs one node and one level each time: a scalar may lie under 32 arrays, and no more. */
  lemma {:induction false} NestingCosts(levels: nat, v: Json, budget: int)
    ensures Size(Nested(levels, v)) == levels + Size(v)
    ensures Shallow(Nested(levels, v), budget) <==> budget >= levels && Shallow(v, budget - levels)
    ensures Finite(Nested(levels, v)) == Finite(v)
  {
    if levels > 0 {
      NestingCosts(levels - 1, v, budget - 1);
      var inner := Nested(levels - 1, v);
      assert [inner][1..] == [];
      assert SizeAll([inner]) == Size(inner);
      assert ShallowAll([inner], budget - 1) == Shallow(inner, budget - 1);
      assert FiniteAll([inner]) == Finite(inner);
    }
  }

  lemma ThirtyTwoLevels(levels: nat, nodes: nat)
    requires nodes > 32
    ensures WithinBudget(Nested(levels, Null), nodes) <==> levels <= 32
  {
    NestingCosts(levels, Null, MAX_DEPTH);
  }

  // ----- the stack -----

  datatype Item = Item(value: Json, depth: nat)

  function StackSize(stack: seq<Item>): nat {
    if stack == [] then 0 else StackSize(stack[..|stack| - 1]) + Size(stack[|stack| - 1].value)
  }

  /** Nothing below the item is too deep or not finite. */
  predicate Fits(item: Item) {
    Shallow(item.value, MAX_DEPTH - item.depth) && Finite(item.value)
  }

  predicate StackFits(stack: seq<Item>) {
    forall i :: 0 <= i < |stack| ==> Fits(stack[i])
  }

  function Pushed(stack: seq<Item>, children: seq<Json>, depth: nat): seq<Item> {
    stack + seq(|children|, i requires 0 <= i < |children| => Item(children[i], depth))
  }

  lemma {:induction false} StackAtLeast(stack: seq<Item>)
    ensures StackSize(stack) >= |stack|
  {
    if stack != [] {
      StackAtLeast(stack[..|stack| - 1]);
    }
  }

  lemma {:induction false} PushedSize(stack: seq<Item>, children: seq<Json>, depth: nat)
    ensures StackSize(Pushed(stack, children, depth)) == StackSize(stack) + SizeAll(children)
    decreases |children|
  {
    if children == [] {
      assert Pushed(stack, children, depth) == stack;
    } else {
      var first := stack + [Item(children[0], depth)];
      assert Pushed(stack, children, depth) == Pushed(first, children[1..], depth);
      assert first[..|stack|] == stack;
      PushedSize(first, children[1..], depth);
    }
  }

  lemma {:induction false} AllFit(vs: seq<Json>, depth: nat)
    ensures ShallowAll(vs, MAX_DEPTH - depth) && FiniteAll(vs) <==>
      forall i :: 0 <= i < |vs| ==> Fits(Item(vs[i], depth))
    decreases |vs|
  {
    if vs != [] {
      AllFit(vs[1..], depth);
      assert Fits(Item(vs[0], depth)) <==> Shallow(vs[0], MAX_DEPTH - depth) && Finite(vs[0]);
      assert forall i :: 0 < i < |vs| ==> vs[i] == vs[1..][i - 1];
      if forall i :: 0 <= i < |vs| ==> Fits(Item(vs[i], depth)) {
        assert forall i :: 0 <= i < |vs[1..]| ==> Fits(Item(vs[1..][i], depth));
      }
    }
  }

  /** Replacing the top of the stack by its children leaves one node fewer on it. */
  lemma ExpandSize(rest: seq<Item>, top: Item)
    ensures StackSize(rest + [top]) == StackSize(Pushed(rest, Children(top.value), top.depth + 1)) + 1
  {
    PushedSize(rest, Children(top.value), top.depth + 1);
    assert (rest + [top])[..|rest|] == rest;
  }

  lemma TopFits(top: Item)
    requires top.depth <= MAX_DEPTH && (top.value.Number? ==> top.value.finite)
    ensures Fits(top) <==>
      forall i :: 0 <= i < |Children(top.value)| ==> Fits(Item(Children(top.value)[i], top.depth + 1))
  {
    AllFit(Children(top.value), top.depth + 1);
    assert MAX_DEPTH - top.depth - 1 == MAX_DEPTH - (top.depth + 1);
  }

  /** ... and, once the top itself passes its checks, the rest of the budget is unchanged. */
  lemma ExpandFits(rest: seq<Item>, top: Item)
    requires top.depth <= MAX_DEPTH && (top.value.Number? ==> top.value.finite)
    ensures StackFits(rest + [top]) <==> StackFits(Pushed(rest, Children(top.value), top.depth + 1))
  {
    hide Fits;
    var stack, children := rest + [top], Children(top.value);
    var next := Pushed(rest, children, top.depth + 1);
    TopFits(top);
    assert stack[|rest|] == top;
    assert forall i :: 0 <= i < |rest| ==> stack[i] == rest[i] && next[i] == rest[i];
    assert forall i :: 0 <= i < |children| ==> next[|rest| + i] == Item(children[i], top.depth + 1);
    assert forall i :: |rest| <= i < |next| ==> next[i] == Item(children[i - |rest|], top.depth + 1);
  }

  // ----- the walks -----

  /** decode's structural walk: accepts exactly the trees within depth 32 and 200,000 finite nodes. */
  method DecodeWalk(root: Json) returns (ok: bool)
    ensures ok <==> WithinBudget(root, 200_000)
  {
    var pending := [Item(root, 0)];
    var visited := 0;
    assert pending[..0] == [];
    while pending != []
      invariant visited + StackSize(pending) == Size(root) && visited <= 200_000
      invariant Fits(Item(root, 0)) <==> StackFits(pending)
      decreases StackSize(pending)
    {
      var top, rest := pending[|pending| - 1], pending[..|pending| - 1];
      assert pending == rest + [top];
      visited := visited + 1;
      if top.depth > MAX_DEPTH || visited > 200_000 {
        return false;
      }
      if top.value.Number? && !top.value.finite {
        return false;
      }
      ExpandSize(rest, top);
      ExpandFits(rest, top);
      pending := Pushed(rest, Children(top.value), top.depth + 1);
    }
    ok := true;
  }

  /**
   * finiteTree: the same budget at 450,000 nodes. The early check on pending children only ever
   * refuses a tree that the whole walk would refuse.
   */
  method FiniteTree(root: Json) returns (ok: bool)
    ensures ok <==> WithinBudget(root, 450_000)
  {
    var stack := [Item(root, 0)];
    var visited := 0;
    assert stack[..0] == [];
    while stack != []
      invariant visited + StackSize(stack) == Size(root) && visited <= 450_000
      invariant Fits(Item(root, 0)) <==> StackFits(stack)
      decreases StackSize(stack)
    {
      var top, rest := stack[|stack| - 1], stack[..|stack| - 1];
      assert stack == rest + [top];
      visited := visited + 1;
      if visited > 450_000 || top.depth > MAX_DEPTH {
        return false;
      }
      if top.value.Number? && !top.value.finite {
        return false;
      }
      ExpandSize(rest, top);
      ExpandFits(rest, top);
      var children := Children(top.value);
      if |children| + |rest| + visited > 450_000 {
        StackAtLeast(Pushed(rest, children, top.depth + 1));
        return false;
      }
      stack := Pushed(rest, children, top.depth + 1);
    }
    ok := true;
  }

  /** The object hook: members become a dictionary, and a repeated name is refused. */
  method Pairs(keys: seq<string>, values: seq<Json>) returns (r: Option<map<string, Json>>)
    requires |keys| == |values|
    ensures r.Some? <==> forall i, j :: 0 <= i < j < |keys| ==> keys[i] != keys[j]
    ensures r.Some? ==>
      && (forall i :: 0 <= i < |keys| ==> keys[i] in r.value && r.value[keys[i]] == values[i])
      && (forall k :: k in r.value ==> k in keys)
  {
    var result: map<string, Json> := map[];
    for n := 0 to |keys|
      invariant forall i, j :: 0 <= i < j < n ==> keys[i] != keys[j]
      invariant forall i :: 0 <= i < n ==> keys[i] in result && result[keys[i]] == values[i]
      invariant forall k :: k in result ==> exists i :: 0 <= i < n && keys[i] == k
    {
      if keys[n] in result {
        return None;
      }
      result := result[keys[n] := values[n]];
    }
    r := Some(result);
  }
}
