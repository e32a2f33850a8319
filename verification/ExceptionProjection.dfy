/**
 * The bounded breadth-first walk over an error and its own-data `cause` and `errors[i]` links.
 * The heap is arbitrary, possibly infinite and cyclic: it is what reflection answers for each object.
 */
module ExceptionProjection {

  type Id = nat

  datatype Key = Cause | Errors | Length | Index(n: nat)

  /** `Callable` values may be proxies but are never walked into; `Other` stands for strings and the like. */
  datatype Value = Undefined | Null | Number(n: int) | Other(tag: nat) | Callable(id: Id) | Object(id: Id)

  datatype Property = Absent | Accessor | Data(value: Value)

  datatype Heap = Heap(isProxy: Id -> bool, isArray: Id -> bool, own: (Id, Key) -> Property)

  /** `STARTUP_EXCEPTION_LIMITS.depth`. */
  const MAXIMUM: nat := 4

  predicate IsProxy(heap: Heap, v: Value) { (v.Object? || v.Callable?) && heap.isProxy(v.id) }

  /** The value of an own data property, and whether an accessor stood in the way. */
  function ReadData(heap: Heap, id: Id, key: Key): (Value, bool) {
    match heap.own(id, key)
    case Absent => (Undefined, false)
    case Accessor => (Undefined, true)
    case Data(v) => (v, false)
  }

  /** `errors` of an object, when it is an array whose length reads as a number. */
  ghost predicate HasParts(heap: Heap, id: Id, parts: Id, length: int) {
    && heap.own(id, Errors) == Data(Object(parts))
    && heap.isArray(parts) && heap.own(parts, Length) == Data(Number(length))
  }

  ghost predicate PartOf(heap: Heap, from: Id, to: Id, parts: Id, length: int, i: nat) {
    HasParts(heap, from, parts, length) && i < length && heap.own(parts, Index(i)) == Data(Object(to))
  }

  /** `v` is what reading `parts[i]` yields; a hole reads as undefined. */
  ghost predicate PartValue(heap: Heap, id: Id, v: Value, parts: Id, length: int, i: nat) {
    HasParts(heap, id, parts, length) && i < length && ReadData(heap, parts, Index(i)).0 == v
  }

  /** A part that needs no projection of its own: the cause again, or an object already inspected. */
  ghost predicate Represented(heap: Heap, id: Id, v: Value, seen: set<Value>, related: seq<Value>) {
    v in related || v == ReadData(heap, id, Cause).0 || v in seen
  }

  /** `v` is a part of `id` that the walk can read: within the limit, and without a proxy in the way. */
  ghost predicate Shown(heap: Heap, id: Id, v: Value, parts: Id, length: int, i: nat) {
    PartValue(heap, id, v, parts, length, i) && i < MAXIMUM && !heap.isProxy(id) && !heap.isProxy(parts) && !IsProxy(heap, v)
  }

  ghost predicate AllRepresented(heap: Heap, id: Id, seen: set<Value>, related: seq<Value>) {
    forall v, parts, length, i :: Shown(heap, id, v, parts, length, i) ==> Represented(heap, id, v, seen, related)
  }

  /** Projections are of parts of inspected objects, and never of a proxy. */
  ghost predicate FromParts(heap: Heap, seen: set<Value>, related: seq<Value>) {
    forall v <- related :: !IsProxy(heap, v) &&
      exists id, parts, length, i :: Object(id) in seen && PartValue(heap, id, v, parts, length, i)
  }

  ghost predicate Edge(heap: Heap, from: Id, to: Id) {
    || heap.own(from, Cause) == Data(Object(to))
    || exists parts, length, i :: PartOf(heap, from, to, parts, length, i)
  }

  /** An edge that the walk can read. */
  ghost predicate ReadEdge(heap: Heap, from: Id, to: Id) {
    !heap.isProxy(from) &&
    (|| heap.own(from, Cause) == Data(Object(to))
     || exists parts: Id, length: int, i: nat ::
          PartOf(heap, from, to, parts, length, i) && i < MAXIMUM && !heap.isProxy(parts))
  }

  ghost predicate IsPath(heap: Heap, path: seq<Id>) {
    path != [] && forall i :: 0 <= i < |path| - 1 ==> Edge(heap, path[i], path[i + 1])
  }

  ghost predicate Reachable(heap: Heap, root: Value, id: Id) {
    exists path :: IsPath(heap, path) && root == Object(path[0]) && path[|path| - 1] == id
  }

  lemma ReachStep(heap: Heap, root: Value, from: Id, to: Id)
    requires Reachable(heap, root, from) && Edge(heap, from, to)
    ensures Reachable(heap, root, to)
  {
    var path :| IsPath(heap, path) && root == Object(path[0]) && path[|path| - 1] == from;
    var longer := path + [to];
    assert IsPath(heap, longer) by {
      forall i | 0 <= i < |longer| - 1 ensures Edge(heap, longer[i], longer[i + 1]) {
        if i < |path| - 1 { assert Edge(heap, path[i], path[i + 1]); }
      }
    }
    assert root == Object(longer[0]) && longer[|longer| - 1] == to;
  }

  ghost predicate ClosedUnderEdges(heap: Heap, ids: set<Id>) {
    forall a, b :: a in ids && Edge(heap, a, b) ==> b in ids
  }

  lemma {:induction false} PathStaysInside(heap: Heap, ids: set<Id>, path: seq<Id>)
    requires ClosedUnderEdges(heap, ids) && IsPath(heap, path) && path[0] in ids
    ensures path[|path| - 1] in ids
    decreases |path|
  {
    if 1 < |path| {
      assert Edge(heap, path[0], path[1]);
      assert IsPath(heap, path[1..]) by {
        forall i | 0 <= i < |path[1..]| - 1 ensures Edge(heap, path[1..][i], path[1..][i + 1]) {
          assert Edge(heap, path[i + 1], path[i + 2]);
        }
      }
      PathStaysInside(heap, ids, path[1..]);
    }
  }

  /** A closed set of reachable objects around the root is the reachable set. */
  lemma ClosedIsReachable(heap: Heap, root: Value, ids: set<Id>)
    requires root.Object? ==> root.id in ids
    requires ClosedUnderEdges(heap, ids) && forall v <- ids :: Reachable(heap, root, v)
    ensures forall v :: Reachable(heap, root, v) <==> v in ids
  {
    forall v | Reachable(heap, root, v) ensures v in ids {
      var path :| IsPath(heap, path) && root == Object(path[0]) && path[|path| - 1] == v;
      PathStaysInside(heap, ids, path);
    }
  }

  /** What inspecting one object can find wrong with it. */
  ghost predicate Irregular(heap: Heap, id: Id) {
    || heap.isProxy(id)
    || heap.own(id, Cause).Accessor?
    || heap.own(id, Errors).Accessor?
    || (heap.own(id, Errors).Data? && heap.own(id, Errors).value != Undefined &&
        IrregularParts(heap, id, heap.own(id, Errors).value))
  }

  ghost predicate IrregularParts(heap: Heap, id: Id, errors: Value) {
    || !errors.Object? || heap.isProxy(errors.id) || !heap.isArray(errors.id)
    || !heap.own(errors.id, Length).Data? || !heap.own(errors.id, Length).value.Number?
    || MAXIMUM < heap.own(errors.id, Length).value.n
    || exists i: nat :: i < heap.own(errors.id, Length).value.n && i < MAXIMUM && IrregularPart(heap, id, errors.id, i)
  }

  /** A part behind an accessor, or a proxy other than the cause. */
  ghost predicate IrregularPart(heap: Heap, id: Id, parts: Id, i: nat) {
    var property := heap.own(parts, Index(i));
    || property.Accessor?
    || (property.Data? && IsProxy(heap, property.value) && property.value != ReadData(heap, id, Cause).0)
  }

  /** Without anything irregular about it, all edges of an object can be read. */
  lemma RegularIsRead(heap: Heap, from: Id, to: Id)
    requires Edge(heap, from, to) && !Irregular(heap, from)
    ensures ReadEdge(heap, from, to)
  {
    if heap.own(from, Cause) != Data(Object(to)) {
      var parts: Id, length: int, i: nat :| PartOf(heap, from, to, parts, length, i);
      assert PartOf(heap, from, to, parts, length, i) && i < MAXIMUM && !heap.isProxy(parts);
    }
  }

  /** Only objects that the root leads to are ever queued. */
  ghost predicate AllReachable(heap: Heap, root: Value, values: seq<Value>) {
    forall v <- values :: v.Object? ==> Reachable(heap, root, v.id)
  }

  // What one object contributes, in order.

  function Smaller(a: int, b: int): int { if a <= b then a else b }

  /** How many parts of an array of this length the walk looks at. */
  function Count(length: int): nat { if length < 0 then 0 else Smaller(length, MAXIMUM) }

  function PartAt(heap: Heap, parts: Id, i: nat): Value { ReadData(heap, parts, Index(i)).0 }

  function Parts(heap: Heap, parts: Id, n: nat): (r: seq<Value>)
    ensures |r| == n && forall i :: 0 <= i < n ==> r[i] == PartAt(heap, parts, i)
  {
    if n == 0 then [] else Parts(heap, parts, n - 1) + [PartAt(heap, parts, n - 1)]
  }

  /** A part of `id` that gets a projection of its own: not the cause, not inspected yet, not a proxy. */
  predicate IsNew(heap: Heap, id: Id, v: Value, seen: set<Value>) {
    v != ReadData(heap, id, Cause).0 && v !in seen && !IsProxy(heap, v)
  }

  function NewParts(heap: Heap, id: Id, parts: Id, n: nat, seen: set<Value>): (r: seq<Value>)
    ensures forall v <- r :: IsNew(heap, id, v, seen) && exists i :: 0 <= i < n && v == PartAt(heap, parts, i)
    ensures forall i :: 0 <= i < n && IsNew(heap, id, PartAt(heap, parts, i), seen) ==> PartAt(heap, parts, i) in r
  {
    if n == 0 then []
    else
      var part := PartAt(heap, parts, n - 1);
      NewParts(heap, id, parts, n - 1, seen) + (if IsNew(heap, id, part, seen) then [part] else [])
  }

  /** The first `MAXIMUM` of them. */
  function Capped(all: seq<Value>): (r: seq<Value>)
    ensures |r| <= MAXIMUM && r <= all && (|r| < |all| ==> |r| == MAXIMUM)
  {
    all[..Smaller(|all|, MAXIMUM)]
  }

  /** Whether the walk looks for parts in what `errors` of `id` reads as. */
  predicate IsList(heap: Heap, errors: Value) {
    && errors.Object? && !heap.isProxy(errors.id) && heap.isArray(errors.id)
    && heap.own(errors.id, Length).Data? && heap.own(errors.id, Length).value.Number?
  }

  function PartCount(heap: Heap, errors: Value): nat
    requires IsList(heap, errors)
  {
    Count(heap.own(errors.id, Length).value.n)
  }

  /** All that `id` links to, in the order in which it is queued: the cause, then the parts. */
  function Links(heap: Heap, id: Id): seq<Value> {
    if heap.isProxy(id) then []
    else
      var (cause, errors) := (ReadData(heap, id, Cause).0, ReadData(heap, id, Errors).0);
      (if cause != Undefined then [cause] else [])
      + (if IsList(heap, errors) then Parts(heap, errors.id, PartCount(heap, errors)) else [])
  }

  /** The parts of `id` to project, when the objects in `seen` have been inspected. */
  function Shows(heap: Heap, id: Id, seen: set<Value>): seq<Value> {
    var errors := ReadData(heap, id, Errors).0;
    if heap.isProxy(id) || !IsList(heap, errors) then []
    else NewParts(heap, id, errors.id, PartCount(heap, errors), seen)
  }

  /** A part that raises the flag: behind an accessor, or a proxy that is neither the cause nor inspected. */
  predicate Hides(heap: Heap, id: Id, parts: Id, i: nat, seen: set<Value>) {
    || heap.own(parts, Index(i)).Accessor?
    || (IsProxy(heap, PartAt(heap, parts, i)) && PartAt(heap, parts, i) != ReadData(heap, id, Cause).0
        && PartAt(heap, parts, i) !in seen)
  }

  /** One of the first `n` parts raises the flag. */
  ghost predicate AnyHidden(heap: Heap, id: Id, parts: Id, n: nat, seen: set<Value>) {
    exists i :: 0 <= i < n && Hides(heap, id, parts, i, seen)
  }

  /** The next part: how the three accounts of the parts go on. */
  lemma PartsGoOn(heap: Heap, id: Id, parts: Id, n: nat, seen: set<Value>, projected: seq<Value>)
    ensures var part := PartAt(heap, parts, n);
            var all := projected + NewParts(heap, id, parts, n, seen);
            && projected + NewParts(heap, id, parts, n + 1, seen) == (if IsNew(heap, id, part, seen) then all + [part] else all)
            && Capped(all + [part]) == (if |Capped(all)| == MAXIMUM then Capped(all) else Capped(all) + [part])
            && Parts(heap, parts, n + 1) == Parts(heap, parts, n) + [part]
            && (AnyHidden(heap, id, parts, n + 1, seen) <==> AnyHidden(heap, id, parts, n, seen) || Hides(heap, id, parts, n, seen))
  {
  }

  lemma OnlyNewAdded(heap: Heap, id: Id, parts: Id, n: nat, seen: set<Value>, projected: seq<Value>, related: seq<Value>)
    requires related == Capped(projected + NewParts(heap, id, parts, n, seen))
    ensures forall k :: |projected| <= k < |related| ==> IsNew(heap, id, related[k], seen)
  {
    var shown := NewParts(heap, id, parts, n, seen);
    forall k | |projected| <= k < |related| ensures IsNew(heap, id, related[k], seen) {
      assert related[k] == shown[k - |projected|] && shown[k - |projected|] in shown;
    }
  }

  /**
   * The loop over `errors[0..min(length, MAXIMUM)]`: every part is queued; the new ones, and only
   * those, are projected as far as the limit allows, in order.  `dropped` counts the new parts left out.
   */
  method InspectParts(heap: Heap, id: Id, parts: Id, length: int, cause: Value, visited: set<Value>,
                      queue: seq<Value>, projected: seq<Value>)
    returns (pending: seq<Value>, related: seq<Value>, incomplete: bool, dropped: nat)
    requires |projected| <= MAXIMUM && cause == ReadData(heap, id, Cause).0
    ensures pending == queue + Parts(heap, parts, Count(length))
    ensures related == Capped(projected + NewParts(heap, id, parts, Count(length), visited))
    ensures dropped == |projected + NewParts(heap, id, parts, Count(length), visited)| - |related|
    ensures forall k :: |projected| <= k < |related| ==> related[k] != cause && related[k] !in visited
    ensures incomplete <==> 0 < dropped || AnyHidden(heap, id, parts, Count(length), visited)
  {
    hide NewParts, Parts, AnyHidden, Capped;
    pending, related, incomplete, dropped := queue, projected, false, 0;
    NothingYet(heap, id, parts, visited, queue, projected);
    var index := 0;
    while index < length && index < MAXIMUM
      invariant 0 <= index <= Count(length)
      invariant pending == queue + Parts(heap, parts, index)
      invariant related == Capped(projected + NewParts(heap, id, parts, index, visited))
      invariant dropped == |projected + NewParts(heap, id, parts, index, visited)| - |related|
      invariant incomplete <==> 0 < dropped || AnyHidden(heap, id, parts, index, visited)
    {
      var (part, hidden) := ReadData(heap, parts, Index(index));
      PartsGoOn(heap, id, parts, index, visited, projected);
      incomplete := incomplete || hidden;
      pending := pending + [part];
      index := index + 1;
      if part == cause || part in visited { continue; }
      if IsProxy(heap, part) { incomplete := true; continue; }
      if |related| == MAXIMUM { incomplete, dropped := true, dropped + 1; continue; }
      related := related + [part];
    }
    OnlyNewAdded(heap, id, parts, Count(length), visited, projected, related);
  }

  lemma NothingYet(heap: Heap, id: Id, parts: Id, seen: set<Value>, queue: seq<Value>, projected: seq<Value>)
    requires |projected| <= MAXIMUM
    ensures queue + Parts(heap, parts, 0) == queue
    ensures projected + NewParts(heap, id, parts, 0, seen) == projected == Capped(projected)
    ensures !AnyHidden(heap, id, parts, 0, seen)
  {
  }

  /** Inspect one object: queue all it links to, project its new parts, flag what cannot be followed. */
  method Inspect(heap: Heap, id: Id, visited: set<Value>, queue: seq<Value>, projected: seq<Value>)
    returns (pending: seq<Value>, related: seq<Value>, incomplete: bool, dropped: nat)
    requires |projected| <= MAXIMUM
    ensures pending == queue + Links(heap, id)
    ensures related == Capped(projected + Shows(heap, id, visited))
    ensures dropped == |projected + Shows(heap, id, visited)| - |related|
    ensures forall k :: |projected| <= k < |related| ==> related[k] != ReadData(heap, id, Cause).0 && related[k] !in visited
    ensures incomplete ==> 0 < dropped || Irregular(heap, id)
    ensures Irregular(heap, id) ==> incomplete || (SeesProxy(heap, visited) && !heap.isProxy(id))
    ensures 0 < dropped ==> incomplete
  {
    hide IrregularParts, SeesProxy, AnyHidden, NewParts, Parts, Capped;
    NoMore(projected);
    pending, related, incomplete, dropped := queue, projected, false, 0;
    if heap.isProxy(id) { incomplete := true; return; }
    var (cause, causeHidden) := ReadData(heap, id, Cause);
    if cause != Undefined { pending := pending + [cause]; }
    var (errors, errorsHidden) := ReadData(heap, id, Errors);
    incomplete := causeHidden || errorsHidden;
    if errors == Undefined { return; }
    IrregularList(heap, id, errors, visited);
    if !errors.Object? || heap.isProxy(errors.id) || !heap.isArray(errors.id) { incomplete := true; return; }
    var (length, lengthHidden) := ReadData(heap, errors.id, Length);
    incomplete := incomplete || lengthHidden;
    if !length.Number? { incomplete := true; return; }
    if MAXIMUM < length.n { incomplete := true; }
    var partsIncomplete;
    pending, related, partsIncomplete, dropped :=
      InspectParts(heap, id, errors.id, length.n, cause, visited, pending, related);
    incomplete := incomplete || partsIncomplete;
  }

  lemma NoMore(projected: seq<Value>)
    requires |projected| <= MAXIMUM
    ensures Capped(projected + []) == projected == projected + []
  {
  }

  ghost predicate SeesProxy(heap: Heap, seen: set<Value>) { exists v :: v in seen && IsProxy(heap, v) }

  lemma IrregularList(heap: Heap, id: Id, errors: Value, seen: set<Value>)
    ensures !IsList(heap, errors) ==> IrregularParts(heap, id, errors)
    ensures IsList(heap, errors) ==>
              var hidden := AnyHidden(heap, id, errors.id, PartCount(heap, errors), seen);
              var long := MAXIMUM < heap.own(errors.id, Length).value.n;
              && (long || hidden ==> IrregularParts(heap, id, errors))
              && (IrregularParts(heap, id, errors) ==> long || hidden || SeesProxy(heap, seen))
  {
    if IsList(heap, errors) {
      if i :| 0 <= i < PartCount(heap, errors) && Hides(heap, id, errors.id, i, seen) {
        assert IrregularPart(heap, id, errors.id, i);
      }
      if i: nat :| i < heap.own(errors.id, Length).value.n && i < MAXIMUM && IrregularPart(heap, id, errors.id, i)
                   && !Hides(heap, id, errors.id, i, seen) {
        assert PartAt(heap, errors.id, i) in seen && IsProxy(heap, PartAt(heap, errors.id, i));
      }
    }
  }

  ghost function Objects(ids: set<Id>): set<Value> { set id | id in ids :: Object(id) }

  // The walk as a whole.

  function IdsOf(order: seq<Id>): set<Id> { set i | 0 <= i < |order| :: order[i] }

  /** Everything the objects link to, object by object in the order of inspection. */
  function AllLinks(heap: Heap, order: seq<Id>): seq<Value> {
    if order == [] then [] else AllLinks(heap, order[..|order| - 1]) + Links(heap, order[|order| - 1])
  }

  /** Everything to project, object by object, each with those inspected by then. */
  ghost function AllShows(heap: Heap, order: seq<Id>): seq<Value> {
    if order == [] then []
    else AllShows(heap, order[..|order| - 1]) + Shows(heap, order[|order| - 1], Objects(IdsOf(order)))
  }

  /** The objects among the values, each at its first occurrence. */
  function Firsts(values: seq<Value>): seq<Id> {
    if values == [] then []
    else
      var (before, v) := (Firsts(values[..|values| - 1]), values[|values| - 1]);
      if v.Object? && v.id !in before then before + [v.id] else before
  }

  /**
   * Breadth first: `order` is inspected as its objects first occur in the root followed by all
   * their links, as far as `considered`; `rest` is what was queued and never looked at.
   */
  ghost predicate BreadthFirst(heap: Heap, root: Value, order: seq<Id>, considered: seq<Value>, rest: seq<Value>) {
    [root] + AllLinks(heap, order) == considered + rest && order == Firsts(considered)
  }

  lemma {:induction false} FirstsAreThose(values: seq<Value>)
    ensures forall id :: Object(id) in values <==> id in Firsts(values)
    ensures forall i, j :: 0 <= i < j < |Firsts(values)| ==> Firsts(values)[i] != Firsts(values)[j]
  {
    if values != [] {
      var before, v := values[..|values| - 1], values[|values| - 1];
      assert values == before + [v];
      FirstsAreThose(before);
    }
  }

  lemma {:induction false} LinksAreAll(heap: Heap, order: seq<Id>, id: Id, v: Value)
    requires id in order && v in Links(heap, id)
    ensures v in AllLinks(heap, order)
  {
    hide Links;
    var before, last := order[..|order| - 1], order[|order| - 1];
    assert order == before + [last];
    if id in before { LinksAreAll(heap, before, id, v); }
  }

  lemma ReadEdgeIsLink(heap: Heap, from: Id, to: Id)
    requires ReadEdge(heap, from, to)
    ensures Object(to) in Links(heap, from)
  {
    var errors := ReadData(heap, from, Errors).0;
    if heap.own(from, Cause) != Data(Object(to)) {
      var parts: Id, length: int, i: nat :| PartOf(heap, from, to, parts, length, i) && i < MAXIMUM && !heap.isProxy(parts);
      assert Parts(heap, errors.id, PartCount(heap, errors))[i] == Object(to);
    }
  }

  /** What the visited objects link to, and can be read, is visited or still queued. */
  ghost predicate Explored(heap: Heap, ids: set<Id>, pending: seq<Value>) {
    forall a, b :: a in ids && ReadEdge(heap, a, b) ==> b in ids || Object(b) in pending
  }

  lemma BreadthFirstExplores(heap: Heap, root: Value, order: seq<Id>, considered: seq<Value>, rest: seq<Value>)
    requires BreadthFirst(heap, root, order, considered, rest)
    ensures Explored(heap, IdsOf(order), rest) && (root.Object? ==> root.id in IdsOf(order) || root in rest)
  {
    FirstsAreThose(considered);
    forall a, b | a in IdsOf(order) && ReadEdge(heap, a, b) ensures b in IdsOf(order) || Object(b) in rest {
      ReadEdgeIsLink(heap, a, b);
      LinksAreAll(heap, order, a, Object(b));
      InJoin([root] + AllLinks(heap, order), considered, rest, Object(b));
    }
    InJoin([root] + AllLinks(heap, order), considered, rest, root);
  }

  lemma InJoin(all: seq<Value>, a: seq<Value>, b: seq<Value>, v: Value)
    requires all == a + b && v in all
    ensures v in a || v in b
  {
  }

  /** The walk goes one value on: past it, or into it. */
  lemma BreadthFirstGoesOn(heap: Heap, root: Value, order: seq<Id>, considered: seq<Value>, v: Value, rest: seq<Value>)
    requires BreadthFirst(heap, root, order, considered, [v] + rest)
    ensures !v.Object? || v.id in order ==> BreadthFirst(heap, root, order, considered + [v], rest)
    ensures v.Object? && v.id !in order ==>
              BreadthFirst(heap, root, order + [v.id], considered + [v], rest + Links(heap, v.id))
  {
    hide Links;
    assert (considered + [v])[..|considered|] == considered;
    assert considered + ([v] + rest) == considered + [v] + rest;
    if v.Object? && v.id !in order {
      assert (order + [v.id])[..|order|] == order;
      assert considered + [v] + (rest + Links(heap, v.id)) == (considered + [v] + rest) + Links(heap, v.id);
      assert [root] + (AllLinks(heap, order) + Links(heap, v.id)) == ([root] + AllLinks(heap, order)) + Links(heap, v.id);
    }
  }

  /** `v` is a part of an inspected object, neither its cause nor inspected before it or as it, nor a proxy. */
  ghost predicate ShownNew(heap: Heap, order: seq<Id>, v: Value) {
    !IsProxy(heap, v) &&
    exists k, parts, length, i :: 0 <= k < |order| && PartValue(heap, order[k], v, parts, length, i)
      && v != ReadData(heap, order[k], Cause).0 && v !in Objects(IdsOf(order[..k + 1]))
  }

  /** Whatever is projected, or dropped at the limit, was not shown by then in any other way. */
  lemma {:induction false} AllShowsAreNew(heap: Heap, order: seq<Id>, v: Value)
    requires v in AllShows(heap, order)
    ensures ShownNew(heap, order, v)
  {
    var before, last := order[..|order| - 1], |order| - 1;
    var seen := Objects(IdsOf(order));
    if v in AllShows(heap, before) {
      AllShowsAreNew(heap, before, v);
      var k, parts, length, i :| 0 <= k < |before| && PartValue(heap, before[k], v, parts, length, i)
        && v != ReadData(heap, before[k], Cause).0 && v !in Objects(IdsOf(before[..k + 1]));
      assert before[..k + 1] == order[..k + 1] && PartValue(heap, order[k], v, parts, length, i);
    } else {
      ShowsAreParts(heap, order[last], seen, v);
      var parts, length, i :| PartValue(heap, order[last], v, parts, length, i);
      assert order[..last + 1] == order && v in Shows(heap, order[last], seen) && PartValue(heap, order[last], v, parts, length, i);
    }
  }

  lemma ShowsAreParts(heap: Heap, id: Id, seen: set<Value>, v: Value)
    requires v in Shows(heap, id, seen)
    ensures !IsProxy(heap, v) && exists parts, length, i :: PartValue(heap, id, v, parts, length, i)
  {
    var errors := ReadData(heap, id, Errors).0;
    var i :| 0 <= i < PartCount(heap, errors) && v == PartAt(heap, errors.id, i);
    assert PartValue(heap, id, v, errors.id, heap.own(errors.id, Length).value.n, i);
  }

  /** Every projection is of a part of an inspected object. */
  lemma {:induction false} AllShowsFromParts(heap: Heap, order: seq<Id>, seen: set<Value>)
    requires Objects(IdsOf(order)) <= seen
    ensures FromParts(heap, seen, AllShows(heap, order))
  {
    if order != [] {
      var before, id := order[..|order| - 1], order[|order| - 1];
      assert IdsOf(before) <= IdsOf(order) && id in IdsOf(order);
      AllShowsFromParts(heap, before, seen);
      hide PartValue, Shows;
      forall v | v in AllShows(heap, order)
        ensures !IsProxy(heap, v) && exists k, parts, length, i :: Object(k) in seen && PartValue(heap, k, v, parts, length, i)
      {
        if v !in AllShows(heap, before) {
          ShowsAreParts(heap, id, Objects(IdsOf(order)), v);
          var parts, length, i :| PartValue(heap, id, v, parts, length, i);
          assert Object(id) in seen && PartValue(heap, id, v, parts, length, i);
        }
      }
    }
  }

  /** A part that can be read and is not projected is the cause, or was inspected by then. */
  lemma {:induction false} PartsAreShown(heap: Heap, order: seq<Id>, id: Id)
    requires id in order
    ensures AllRepresented(heap, id, Objects(IdsOf(order)), AllShows(heap, order))
  {
    var before, last := order[..|order| - 1], order[|order| - 1];
    assert order == before + [last];
    assert IdsOf(before) <= IdsOf(order);
    if id in before {
      PartsAreShown(heap, before, id);
      RepresentedLasts(heap, id, Objects(IdsOf(before)), Objects(IdsOf(order)), AllShows(heap, before), AllShows(heap, order));
    } else {
      ShowsRepresent(heap, id, Objects(IdsOf(order)));
      RepresentedMore(heap, id, Objects(IdsOf(order)), AllShows(heap, before), Shows(heap, id, Objects(IdsOf(order))));
    }
  }

  lemma ShowsRepresent(heap: Heap, id: Id, seen: set<Value>)
    ensures AllRepresented(heap, id, seen, Shows(heap, id, seen))
  {
    forall v, parts: Id, length: int, i: nat | Shown(heap, id, v, parts, length, i)
      ensures Represented(heap, id, v, seen, Shows(heap, id, seen))
    {
      assert v == PartAt(heap, parts, i) && i < Count(length);
    }
  }

  lemma RepresentedLasts(heap: Heap, id: Id, seen: set<Value>, more: set<Value>, related: seq<Value>, longer: seq<Value>)
    requires seen <= more && related <= longer && AllRepresented(heap, id, seen, related)
    ensures AllRepresented(heap, id, more, longer)
  {
    forall v, parts, length, i | Shown(heap, id, v, parts, length, i) ensures Represented(heap, id, v, more, longer) {
      assert Represented(heap, id, v, seen, related);
    }
  }

  lemma RepresentedMore(heap: Heap, id: Id, seen: set<Value>, before: seq<Value>, related: seq<Value>)
    requires AllRepresented(heap, id, seen, related)
    ensures AllRepresented(heap, id, seen, before + related)
  {
    forall v, parts, length, i | Shown(heap, id, v, parts, length, i) ensures Represented(heap, id, v, seen, before + related) {
      assert Represented(heap, id, v, seen, related);
    }
  }

  lemma LinksAreReachable(heap: Heap, root: Value, id: Id)
    requires Reachable(heap, root, id)
    ensures AllReachable(heap, root, Links(heap, id))
  {
    hide Reachable;
    forall v | v in Links(heap, id) && v.Object? ensures Reachable(heap, root, v.id) {
      var errors := ReadData(heap, id, Errors).0;
      if v != ReadData(heap, id, Cause).0 {
        var list := Parts(heap, errors.id, PartCount(heap, errors));
        var i :| 0 <= i < |list| && list[i] == v;
        assert PartOf(heap, id, v.id, errors.id, heap.own(errors.id, Length).value.n, i);
      }
      ReachStep(heap, root, id, v.id);
    }
  }

  /** The flag is raised exactly for a dropped part or for something irregular about a visited object. */
  ghost predicate Honest(heap: Heap, ids: set<Id>, unfollowed: bool, dropped: nat) {
    unfollowed <==> 0 < dropped || exists id :: id in ids && Irregular(heap, id)
  }

  lemma HonestGrows(heap: Heap, ids: set<Id>, id: Id, unfollowed: bool, dropped: nat, incomplete: bool, more: nat)
    requires Honest(heap, ids, unfollowed, dropped)
    requires incomplete ==> Irregular(heap, id) || 0 < more - dropped
    requires Irregular(heap, id) ==> incomplete || (SeesProxy(heap, Objects(ids + {id})) && !heap.isProxy(id))
    requires 0 < more - dropped ==> incomplete
    requires dropped <= more
    ensures Honest(heap, ids + {id}, unfollowed || incomplete, more)
  {
    hide IrregularParts;
    if unfollowed && dropped == 0 {
      var k :| k in ids && Irregular(heap, k);
      assert k in ids + {id};
    }
    if incomplete && more == dropped { assert id in ids + {id}; }
    if Irregular(heap, id) && !incomplete {
      var v :| v in Objects(ids + {id}) && IsProxy(heap, v);
      assert v.id in ids && Irregular(heap, v.id);
    }
  }

  /** With the flag down and nothing queued, the visited objects are closed under all edges. */
  lemma AllEdgesFollowed(heap: Heap, ids: set<Id>)
    requires Explored(heap, ids, []) && Honest(heap, ids, false, 0)
    ensures ClosedUnderEdges(heap, ids)
  {
    forall a, b | a in ids && Edge(heap, a, b) ensures b in ids { RegularIsRead(heap, a, b); }
  }

  /** Inspecting one more object adds its new parts, as far as the limit allows. */
  lemma ShowsGrow(heap: Heap, order: seq<Id>, id: Id, shown: seq<Value>)
    requires shown == Shows(heap, id, Objects(IdsOf(order + [id])))
    ensures AllShows(heap, order + [id]) == AllShows(heap, order) + shown
    ensures Capped(Capped(AllShows(heap, order)) + shown) == Capped(AllShows(heap, order + [id]))
    ensures |AllShows(heap, order + [id])| - |Capped(AllShows(heap, order + [id]))| ==
            (|AllShows(heap, order)| - |Capped(AllShows(heap, order))|)
            + (|Capped(AllShows(heap, order)) + shown| - |Capped(Capped(AllShows(heap, order)) + shown)|)
  {
    hide Shows;
    assert (order + [id])[..|order|] == order;
    CappedTwice(AllShows(heap, order), shown);
  }

  lemma CappedTwice(all: seq<Value>, more: seq<Value>)
    ensures Capped(Capped(all) + more) == Capped(all + more)
  {
  }

  /**
   * The whole walk.  `unfollowed` is the flag as this walk raises it; the flag the first projection
   * may already carry is kept apart.  Objects are inspected breadth first; their new parts are
   * projected in that order, up to the limit; and the flag is raised exactly when something was
   * left: queued and not looked at, new and not projected, or irregular about an inspected object.
   */
  method Project(heap: Heap, root: Value)
    returns (related: seq<Value>, unfollowed: bool, visited: set<Id>, dropped: nat,
             ghost order: seq<Id>, ghost considered: seq<Value>, ghost rest: seq<Value>)
    ensures BreadthFirst(heap, root, order, considered, rest) && visited == IdsOf(order)
    ensures |visited| == |order| <= MAXIMUM * MAXIMUM && (|visited| < MAXIMUM * MAXIMUM ==> rest == [])
    ensures related == Capped(AllShows(heap, order)) && dropped == |AllShows(heap, order)| - |related|
    ensures forall v <- AllShows(heap, order) :: ShownNew(heap, order, v)
    ensures unfollowed <==> rest != [] || 0 < dropped || exists id :: id in visited && Irregular(heap, id)
    ensures |related| <= MAXIMUM && FromParts(heap, Objects(visited), related)
    ensures dropped == 0 ==> forall id <- visited :: AllRepresented(heap, id, Objects(visited), related)
    ensures forall id <- visited :: Reachable(heap, root, id)
    ensures !unfollowed ==> forall id :: Reachable(heap, root, id) <==> id in visited
    ensures |visited| < MAXIMUM * MAXIMUM ==> Explored(heap, visited, []) && (root.Object? ==> root.id in visited)
    ensures 0 < dropped ==> unfollowed && |related| == MAXIMUM
  {
    hide Reachable, AllRepresented, FromParts, Irregular, Explored, Links, Shows, BreadthFirst, AllShows, ShownNew;
    related, unfollowed, visited, dropped := [], false, {}, 0;
    order, considered := [], [];
    var pending := [root];
    var seen: set<Value> := {};
    var inspected := 0;
    StartsWell(heap, root);
    while pending != [] && inspected < MAXIMUM * MAXIMUM
      invariant AllReachable(heap, root, pending) && forall id <- visited :: Reachable(heap, root, id)
      invariant BreadthFirst(heap, root, order, considered, pending)
      invariant visited == IdsOf(order) && seen == Objects(visited)
      invariant inspected == |visited| == |order| <= MAXIMUM * MAXIMUM
      invariant related == Capped(AllShows(heap, order)) && dropped == |AllShows(heap, order)| - |related|
      invariant Honest(heap, visited, unfollowed, dropped)
      decreases MAXIMUM * MAXIMUM - inspected, |pending|
    {
      var value := pending[0];
      ghost var before := pending;
      pending := pending[1..];
      assert before == [value] + pending;
      BreadthFirstGoesOn(heap, root, order, considered, value, pending);
      considered := considered + [value];
      if value in seen || !value.Object? { continue; }
      ghost var was, ids, shown := order, visited, related;
      order := order + [value.id];
      IdsGrow(was, value.id);
      seen := seen + {value};
      visited := visited + {value.id};
      inspected := inspected + 1;
      LinksAreReachable(heap, root, value.id);
      assert seen == Objects(visited) && visited == IdsOf(order);
      var incomplete, more;
      pending, related, incomplete, more := Inspect(heap, value.id, seen, pending, related);
      ShowsGrow(heap, was, value.id, Shows(heap, value.id, seen));
      HonestGrows(heap, ids, value.id, unfollowed, dropped, incomplete, dropped + more);
      unfollowed := unfollowed || incomplete;
      dropped := dropped + more;
    }
    rest := pending;
    forall v | v in AllShows(heap, order) ensures ShownNew(heap, order, v) { AllShowsAreNew(heap, order, v); }
    WalkEnds(heap, root, order, considered, rest, related, unfollowed, dropped);
    if pending != [] { unfollowed := true; }
  }

  lemma IdsGrow(order: seq<Id>, id: Id)
    ensures IdsOf(order + [id]) == IdsOf(order) + {id}
  {
    assert (order + [id])[|order|] == id;
    assert forall i :: 0 <= i < |order| ==> (order + [id])[i] == order[i];
  }

  lemma StartsWell(heap: Heap, root: Value)
    ensures root.Object? ==> Reachable(heap, root, root.id)
    ensures BreadthFirst(heap, root, [], [], [root]) && Honest(heap, {}, false, 0) && AllShows(heap, []) == []
  {
    if root.Object? { assert IsPath(heap, [root.id]) && root == Object([root.id][0]); }
  }

  /** What the order of inspection means at the end of the walk. */
  lemma WalkEnds(heap: Heap, root: Value, order: seq<Id>, considered: seq<Value>, rest: seq<Value>,
                 related: seq<Value>, unfollowed: bool, dropped: nat)
    requires BreadthFirst(heap, root, order, considered, rest) && Honest(heap, IdsOf(order), unfollowed, dropped)
    requires related == Capped(AllShows(heap, order)) && dropped == |AllShows(heap, order)| - |related|
    requires forall id <- IdsOf(order) :: Reachable(heap, root, id)
    ensures unfollowed <==> 0 < dropped || exists id :: id in IdsOf(order) && Irregular(heap, id)
    ensures FromParts(heap, Objects(IdsOf(order)), related)
    ensures dropped == 0 ==> forall id <- IdsOf(order) :: AllRepresented(heap, id, Objects(IdsOf(order)), related)
    ensures Explored(heap, IdsOf(order), rest)
    ensures rest == [] ==> (root.Object? ==> root.id in IdsOf(order))
    ensures rest == [] && !unfollowed ==> forall id :: Reachable(heap, root, id) <==> id in IdsOf(order)
  {
    hide Reachable, AllRepresented, FromParts, Irregular, Explored, BreadthFirst, AllShows;
    BreadthFirstExplores(heap, root, order, considered, rest);
    AllShowsFromParts(heap, order, Objects(IdsOf(order)));
    FromPartsPrefix(heap, Objects(IdsOf(order)), AllShows(heap, order), related);
    if dropped == 0 {
      assert related == AllShows(heap, order);
      forall id | id in IdsOf(order) ensures AllRepresented(heap, id, Objects(IdsOf(order)), related) {
        PartsAreShown(heap, order, id);
      }
    }
    if rest == [] && !unfollowed {
      AllEdgesFollowed(heap, IdsOf(order));
      ClosedIsReachable(heap, root, IdsOf(order));
    }
  }

  lemma FromPartsPrefix(heap: Heap, seen: set<Value>, all: seq<Value>, related: seq<Value>)
    requires FromParts(heap, seen, all) && related <= all
    ensures FromParts(heap, seen, related)
  {
    assert forall v <- related :: v in all;
  }

  /** The first `MAXIMUM` links of the cause chain of `v` are own data on real objects. */
  ghost predicate SafeChain(heap: Heap, v: Value, depth: nat)
    decreases depth
  {
    depth == 0 || (!IsProxy(heap, v) && (v.Object? ==>
      match heap.own(v.id, Cause)
      case Absent => true
      case Accessor => false
      case Data(next) => SafeChain(heap, next, depth - 1)))
  }

  /** The preflight before each projection: the error itself is projected only when its chain is safe. */
  method ProjectsError(heap: Heap, error: Value) returns (safe: bool)
    ensures safe <==> SafeChain(heap, error, MAXIMUM)
  {
    var current := error;
    for depth := 0 to MAXIMUM
      invariant SafeChain(heap, error, MAXIMUM) <==> SafeChain(heap, current, MAXIMUM - depth)
    {
      if IsProxy(heap, current) { return false; }
      if !current.Object? { return true; }
      match heap.own(current.id, Cause) {
        case Absent => return true;
        case Accessor => return false;
        case Data(next) => current := next;
      }
    }
    safe := true;
  }
}
