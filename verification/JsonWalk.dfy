/**
 * Which values may enter the digest chain: the explicit-stack walk over an object graph
 * (src/core/journal.ts:607-640).
 */
module JsonWalk {

  type Ref = nat

  datatype Value =
    | Null
    | Text
    | Boolean
    | Number(finite: bool)
    | Unsupported  // undefined, bigint, symbol, function
    | Reference(ref: Ref)

  /** An array or plain object with its elements or property values in order, or an object of another prototype. */
  datatype Node = Container(children: seq<Value>) | Foreign

  type Heap = map<Ref, Node>

  /** Every reference leads somewhere. */
  predicate Closed(heap: Heap, v: Value) {
    && (v.Reference? ==> v.ref in heap)
    && forall r, i :: r in heap && heap[r].Container? && 0 <= i < |heap[r].children| && heap[r].children[i].Reference?
                      ==> heap[r].children[i].ref in heap
  }

  /** A value JSON has a notation for, looking no deeper than its own kind. */
  predicate JsonKind(heap: Heap, v: Value) {
    match v
    case Number(finite) => finite
    case Unsupported => false
    case Reference(r) => r in heap && heap[r].Container?
    case _ => true
  }

  // ---- What the walk is to decide ----

  /** Each value after the first is a child of the one before it. */
  predicate IsPath(heap: Heap, path: seq<Value>) {
    && path != []
    && forall i :: 0 < i < |path| ==> IsChild(heap, path[i - 1], path[i])
  }

  predicate IsChild(heap: Heap, parent: Value, child: Value) {
    parent.Reference? && parent.ref in heap && heap[parent.ref].Container? && child in heap[parent.ref].children
  }

  /** The path comes back to an object it has been through. */
  predicate Revisits(path: seq<Value>) {
    exists i, j :: 0 <= i < j < |path| && path[i].Reference? && path[j] == path[i]
  }

  /** A path from `v` that shows it is no JSON value: to something else, or around a cycle. */
  predicate Refutes(heap: Heap, v: Value, path: seq<Value>) {
    IsPath(heap, path) && path[0] == v && (!JsonKind(heap, path[|path| - 1]) || Revisits(path))
  }

  /** Every reachable value is of a JSON kind, and no cycle is reachable. */
  ghost predicate IsJson(heap: Heap, v: Value) {
    forall path :: !Refutes(heap, v, path)
  }

  // ---- The walk as a recursion over ancestors ----

  function Room(heap: Heap, ancestors: set<Ref>): set<Ref> {
    heap.Keys - ancestors
  }

  /** The walk opens this object. */
  predicate Opens(heap: Heap, v: Value, ancestors: set<Ref>) {
    v.Reference? && v.ref !in ancestors && v.ref in heap && heap[v.ref].Container?
  }

  predicate Check(heap: Heap, v: Value, ancestors: set<Ref>)
    decreases Room(heap, ancestors), 0
  {
    if Opens(heap, v, ancestors) then
      assert v.ref in Room(heap, ancestors) && v.ref !in Room(heap, ancestors + {v.ref});
      CheckAll(heap, heap[v.ref].children, ancestors + {v.ref})
    else JsonKind(heap, v) && !v.Reference?
  }

  predicate CheckAll(heap: Heap, values: seq<Value>, ancestors: set<Ref>)
    decreases Room(heap, ancestors), 1, |values|
  {
    values == [] || (Check(heap, values[0], ancestors) && CheckAll(heap, values[1..], ancestors))
  }

  lemma {:induction false} CheckAllMeans(heap: Heap, values: seq<Value>, ancestors: set<Ref>)
    ensures CheckAll(heap, values, ancestors) <==> forall v :: v in values ==> Check(heap, v, ancestors)
  {
    if values != [] {
      var rest := values[1..];
      CheckAllMeans(heap, rest, ancestors);
      assert values[0] in values;
      forall v ensures v in values <==> v == values[0] || v in rest {
        assert values == [values[0]] + rest;
      }
    }
  }

  /** The objects of a path. */
  predicate Avoids(path: seq<Value>, ancestors: set<Ref>) {
    forall i :: 0 <= i < |path| && path[i].Reference? ==> path[i].ref !in ancestors
  }

  lemma {:induction false} PathTail(heap: Heap, path: seq<Value>)
    requires IsPath(heap, path) && |path| > 1
    ensures IsPath(heap, path[1..]) && IsChild(heap, path[0], path[1])
  {
    assert IsChild(heap, path[1 - 1], path[1]);
    forall i | 0 < i < |path[1..]| ensures IsChild(heap, path[1..][i - 1], path[1..][i]) {
      assert IsChild(heap, path[i + 1 - 1], path[i + 1]);
    }
  }

  lemma {:induction false} PathCons(heap: Heap, v: Value, path: seq<Value>)
    requires IsPath(heap, path) && IsChild(heap, v, path[0])
    ensures IsPath(heap, [v] + path)
  {
    var longer := [v] + path;
    forall i | 0 < i < |longer| ensures IsChild(heap, longer[i - 1], longer[i]) {
      if i > 1 { assert IsChild(heap, path[i - 1 - 1], path[i - 1]); }
    }
  }

  /** What the recursion accepts, no path refutes. */
  lemma {:induction false} CheckedPaths(heap: Heap, v: Value, ancestors: set<Ref>, path: seq<Value>)
    requires Check(heap, v, ancestors) && IsPath(heap, path) && path[0] == v
    ensures JsonKind(heap, path[|path| - 1]) && !Revisits(path) && Avoids(path, ancestors)
    decreases |path|
  {
    if |path| > 1 {
      PathTail(heap, path);
      CheckAllMeans(heap, heap[v.ref].children, ancestors + {v.ref});
      CheckedPaths(heap, path[1], ancestors + {v.ref}, path[1..]);
      forall i, j | 0 <= i < j < |path| && path[i].Reference? ensures path[j] != path[i] {
        assert path[j] == path[1..][j - 1];
        if i > 0 { assert path[i] == path[1..][i - 1]; }
      }
      forall i | 0 <= i < |path| && path[i].Reference? ensures path[i].ref !in ancestors {
        if i > 0 { assert path[i] == path[1..][i - 1]; }
      }
    }
  }

  /** What it refuses, some path refutes: or one that runs into an ancestor. */
  lemma {:induction false} RefusalPath(heap: Heap, v: Value, ancestors: set<Ref>) returns (path: seq<Value>)
    requires !Check(heap, v, ancestors)
    ensures IsPath(heap, path) && path[0] == v
    ensures !JsonKind(heap, path[|path| - 1]) || Revisits(path) || !Avoids(path, ancestors)
    decreases Room(heap, ancestors), 0
  {
    if Opens(heap, v, ancestors) {
      assert v.ref in Room(heap, ancestors) && v.ref !in Room(heap, ancestors + {v.ref});
      CheckAllMeans(heap, heap[v.ref].children, ancestors + {v.ref});
      var c :| c in heap[v.ref].children && !Check(heap, c, ancestors + {v.ref});
      var rest := RefusalPath(heap, c, ancestors + {v.ref});
      PathCons(heap, v, rest);
      path := [v] + rest;
      LongerRefusal(v, rest, ancestors);
    } else {
      path := [v];
    }
  }

  lemma {:induction false} LongerRefusal(v: Value, rest: seq<Value>, ancestors: set<Ref>)
    requires v.Reference?
    ensures Revisits(rest) ==> Revisits([v] + rest)
    ensures !Avoids(rest, ancestors + {v.ref}) ==> Revisits([v] + rest) || !Avoids([v] + rest, ancestors)
  {
    var path := [v] + rest;
    if Revisits(rest) {
      var i, j :| 0 <= i < j < |rest| && rest[i].Reference? && rest[j] == rest[i];
      assert path[i + 1] == path[j + 1] == rest[i];
    }
    if !Avoids(rest, ancestors + {v.ref}) {
      var k :| 0 <= k < |rest| && rest[k].Reference? && rest[k].ref in ancestors + {v.ref};
      assert path[k + 1] == rest[k] && path[0] == v;
      if rest[k].ref == v.ref { assert path[k + 1] == path[0]; }
    }
  }

  /** The recursion decides exactly what it is meant to. */
  lemma {:induction false} CheckDecides(heap: Heap, v: Value)
    ensures Check(heap, v, {}) <==> IsJson(heap, v)
  {
    if Check(heap, v, {}) {
      forall path ensures !Refutes(heap, v, path) {
        if IsPath(heap, path) && path[0] == v { CheckedPaths(heap, v, {}, path); }
      }
    } else {
      var path := RefusalPath(heap, v, {});
      assert Refutes(heap, v, path);
    }
  }

  /** Every child of an object is of a JSON kind, and an object among them is nearer the leaves. */
  predicate Layered(heap: Heap, rank: Ref -> nat) {
    forall r, c :: r in heap && heap[r].Container? && c in heap[r].children ==>
      JsonKind(heap, c) && (c.Reference? ==> rank(c.ref) < rank(r))
  }

  lemma {:induction false} LayeredPath(heap: Heap, rank: Ref -> nat, path: seq<Value>, i: nat, j: nat)
    requires Layered(heap, rank) && IsPath(heap, path) && i < j < |path|
    ensures path[i].Reference? && (path[j].Reference? ==> rank(path[j].ref) < rank(path[i].ref))
  {
    assert IsChild(heap, path[j - 1], path[j]);
    if i < j - 1 { LayeredPath(heap, rank, path, i, j - 1); }
  }

  /** Sharing is allowed: a graph without cycles is accepted however often its objects are shared. */
  lemma {:induction false} SharingIsAccepted(heap: Heap, rank: Ref -> nat, v: Value)
    requires Layered(heap, rank) && JsonKind(heap, v)
    ensures IsJson(heap, v)
  {
    forall path: seq<Value> ensures !Refutes(heap, v, path) {
      if IsPath(heap, path) && path[0] == v {
        if |path| > 1 { assert IsChild(heap, path[|path| - 2], path[|path| - 1]); }
        forall i, j | 0 <= i < j < |path| && path[i].Reference? ensures path[j] != path[i] {
          LayeredPath(heap, rank, path, i, j);
        }
      }
    }
  }

  // ---- The explicit stack ----

  datatype Visit = Enter(value: Value) | Exit(ref: Ref)

  /** What is still to be checked, from the top of the stack down. */
  predicate Pending(heap: Heap, stack: seq<Visit>, ancestors: set<Ref>) {
    stack == [] ||
    match stack[|stack| - 1]
    case Exit(r) => Pending(heap, stack[..|stack| - 1], ancestors - {r})
    case Enter(v) => Check(heap, v, ancestors) && Pending(heap, stack[..|stack| - 1], ancestors)
  }

  /** How many visits a value takes. */
  function Cost(heap: Heap, v: Value, ancestors: set<Ref>): (r: nat)
    ensures r >= 1
    decreases Room(heap, ancestors), 0
  {
    if Opens(heap, v, ancestors) then
      assert v.ref in Room(heap, ancestors) && v.ref !in Room(heap, ancestors + {v.ref});
      2 + CostAll(heap, heap[v.ref].children, ancestors + {v.ref})
    else 1
  }

  function CostAll(heap: Heap, values: seq<Value>, ancestors: set<Ref>): nat
    decreases Room(heap, ancestors), 1, |values|
  {
    if values == [] then 0 else Cost(heap, values[0], ancestors) + CostAll(heap, values[1..], ancestors)
  }

  function StackCost(heap: Heap, stack: seq<Visit>, ancestors: set<Ref>): nat {
    if stack == [] then 0
    else match stack[|stack| - 1]
      case Exit(r) => 1 + StackCost(heap, stack[..|stack| - 1], ancestors - {r})
      case Enter(v) => Cost(heap, v, ancestors) + StackCost(heap, stack[..|stack| - 1], ancestors)
  }

  /** The children as they are pushed: last first, so that the first is on top. */
  function Pushed(children: seq<Value>): seq<Visit> {
    if children == [] then [] else Pushed(children[1..]) + [Enter(children[0])]
  }

  lemma {:induction false} PushedAll(heap: Heap, stack: seq<Visit>, children: seq<Value>, ancestors: set<Ref>)
    ensures Pending(heap, stack + Pushed(children), ancestors)
            <==> CheckAll(heap, children, ancestors) && Pending(heap, stack, ancestors)
    ensures StackCost(heap, stack + Pushed(children), ancestors)
            == CostAll(heap, children, ancestors) + StackCost(heap, stack, ancestors)
  {
    if children == [] {
      assert stack + Pushed(children) == stack;
    } else {
      var all := stack + Pushed(children);
      assert all[..|all| - 1] == stack + Pushed(children[1..]);
      PushedAll(heap, stack, children[1..], ancestors);
    }
  }

  lemma {:induction false} PushedNext(children: seq<Value>, index: nat)
    requires index < |children|
    ensures Pushed(children[index + 1..]) + [Enter(children[index])] == Pushed(children[index..])
  {
    assert children[index..][1..] == children[index + 1..];
  }

  /** Opening an object: its exit mark and its children take the place of its visit. */
  lemma {:induction false} Opened(heap: Heap, stack: seq<Visit>, v: Value, ancestors: set<Ref>)
    requires Opens(heap, v, ancestors)
    ensures Pending(heap, stack + [Exit(v.ref)] + Pushed(heap[v.ref].children), ancestors + {v.ref})
            <==> Pending(heap, stack + [Enter(v)], ancestors)
    ensures StackCost(heap, stack + [Exit(v.ref)] + Pushed(heap[v.ref].children), ancestors + {v.ref})
            == StackCost(heap, stack + [Enter(v)], ancestors) - 1
  {
    var marked := stack + [Exit(v.ref)];
    PushedAll(heap, marked, heap[v.ref].children, ancestors + {v.ref});
    assert marked[..|marked| - 1] == stack && (stack + [Enter(v)])[..|stack|] == stack;
    assert ancestors + {v.ref} - {v.ref} == ancestors;
  }

  /**
   * isJsonValue: terminates on every finite object graph and accepts exactly the values of
   * which every reachable value is of a JSON kind and no cycle is reachable; an object
   * reached along two paths is no cycle.
   */
  method IsJsonValue(heap: Heap, value: Value) returns (ok: bool)
    requires Closed(heap, value)
    ensures ok <==> IsJson(heap, value)
  {
    CheckDecides(heap, value);
    var pending := [Enter(value)];
    var ancestors: set<Ref> := {};
    assert pending[..0] == [];
    while pending != []
      invariant Check(heap, value, {}) <==> Pending(heap, pending, ancestors)
      decreases StackCost(heap, pending, ancestors)
    {
      var visit, rest := pending[|pending| - 1], pending[..|pending| - 1];
      assert pending == rest + [visit];
      pending := rest;
      if visit.Exit? {
        ancestors := ancestors - {visit.ref};
        continue;
      }
      var candidate := visit.value;
      if candidate.Null? || candidate.Text? || candidate.Boolean? { continue; }
      if candidate.Number? {
        if !candidate.finite { return false; }
        continue;
      }
      if !candidate.Reference? || candidate.ref in ancestors { return false; }
      if candidate.ref !in heap || heap[candidate.ref].Foreign? { return false; }
      Opened(heap, rest, candidate, ancestors);
      ancestors := ancestors + {candidate.ref};
      pending := pending + [Exit(candidate.ref)];
      var children, index := heap[candidate.ref].children, |heap[candidate.ref].children|;
      ghost var marked := pending;
      assert pending == marked + Pushed(children[index..]);
      while index > 0
        invariant 0 <= index <= |children|
        invariant pending == marked + Pushed(children[index..])
      {
        index := index - 1;
        PushedNext(children, index);
        pending := pending + [Enter(children[index])];
      }
      assert children[0..] == children;
    }
    ok := true;
  }
}
