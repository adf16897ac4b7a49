// The queue of ready events of HTEvtLst.c, on values: where a new entry goes, and what one round of
// distinct events makes of an empty queue.
module EventOrder {
  // What the library's users register: the pointer, as a number, and the priority.
  datatype HTEvent = HTEvent(id: nat, priority: int)

  // HTEvent_INDEX of the type
  type HTEventType = nat

  const HTEvent_READ: HTEventType := 0
  const HTEvent_WRITE: HTEventType := 1
  const HTEvent_OOB: HTEventType := 2
  const HTEvent_TYPES := 3

  datatype EventOrder = EventOrder(event: HTEvent, s: int, kind: HTEventType, skipped: nat)

  function Priority(e: EventOrder): int {
    e.event.priority + e.skipped
  }

  predicate Same(e: EventOrder, s: int, kind: HTEventType, event: HTEvent) {
    e.s == s && e.kind == kind && e.event == event
  }

  predicate Waits(q: seq<EventOrder>, s: int, kind: HTEventType, event: HTEvent) {
    exists k :: 0 <= k < |q| && Same(q[k], s, kind, event)
  }

  predicate FirstSame(q: seq<EventOrder>, k: int, s: int, kind: HTEventType, event: HTEvent) {
    0 <= k < |q| && Same(q[k], s, kind, event) && forall i :: 0 <= i < k ==> !Same(q[i], s, kind, event)
  }

  // q[k] is the last of the first n entries with a higher priority, or k is -1.
  predicate LastAbove(q: seq<EventOrder>, n: nat, priority: int, k: int)
    requires n <= |q|
  {
    && -1 <= k < n
    && (k >= 0 ==> Priority(q[k]) > priority)
    && forall i :: k < i < n ==> Priority(q[i]) <= priority
  }

  // What becomes of the queue: either the entry that is there has been skipped once more, or a new one
  // stands behind the last of higher priority.
  ghost predicate Queued(q: seq<EventOrder>, s: int, kind: HTEventType, event: HTEvent, r: seq<EventOrder>) {
    if Waits(q, s, kind, event) then
      exists k {:trigger FirstSame(q, k, s, kind, event)} ::
        FirstSame(q, k, s, kind, event) && r == q[k := q[k].(skipped := q[k].skipped + 1)]
    else
      exists k {:trigger LastAbove(q, |q|, event.priority, k)} ::
        LastAbove(q, |q|, event.priority, k) && r == Inserted(q, k + 1, EventOrder(event, s, kind, 0))
  }

  // The queue with a new entry at position p.
  function Inserted(q: seq<EventOrder>, p: nat, e: EventOrder): (r: seq<EventOrder>)
    requires p <= |q|
    ensures |r| == |q| + 1 && r[p] == e
    ensures forall i :: 0 <= i < p ==> r[i] == q[i]
    ensures forall i :: p < i < |r| ==> r[i] == q[i - 1]
  {
    q[..p] + [e] + q[p..]
  }

  // The entry at p has none of higher priority behind it, and one right before it unless it is the first.
  predicate BehindTheHigher(q: seq<EventOrder>, p: nat)
    requires p < |q|
  {
    && (forall i :: p < i < |q| ==> Priority(q[i]) <= Priority(q[p]))
    && (p > 0 ==> Priority(q[p - 1]) > Priority(q[p]))
  }

  predicate HasBehindTheHigher(q: seq<EventOrder>, e: EventOrder) {
    exists p :: 0 <= p < |q| && q[p] == e && BehindTheHigher(q, p)
  }

  lemma NewIsBehindTheHigher(q: seq<EventOrder>, k: int, e: EventOrder)
    requires LastAbove(q, |q|, Priority(e), k)
    ensures HasBehindTheHigher(Inserted(q, k + 1, e), e)
  {
    assert BehindTheHigher(Inserted(q, k + 1, e), k + 1);
  }

  // What EventOrder_add does to the queue, and where it leaves an entry that is new.
  ghost predicate Entered(q: seq<EventOrder>, s: int, kind: HTEventType, event: HTEvent, r: seq<EventOrder>) {
    && Queued(q, s, kind, event, r)
    && (!Waits(q, s, kind, event) ==> HasBehindTheHigher(r, EventOrder(event, s, kind, 0)))
  }

  // There is one place for an entry, whatever the queue is.
  lemma QueuedOnce(q: seq<EventOrder>, s: int, kind: HTEventType, event: HTEvent, r: seq<EventOrder>, t: seq<EventOrder>)
    requires Queued(q, s, kind, event, r) && Queued(q, s, kind, event, t)
    ensures r == t
  {
    if Waits(q, s, kind, event) {
      var k :| FirstSame(q, k, s, kind, event) && r == q[k := q[k].(skipped := q[k].skipped + 1)];
      var j :| FirstSame(q, j, s, kind, event) && t == q[j := q[j].(skipped := q[j].skipped + 1)];
      assert k == j;
    } else {
      var k :| LastAbove(q, |q|, event.priority, k) && r == Inserted(q, k + 1, EventOrder(event, s, kind, 0));
      var j :| LastAbove(q, |q|, event.priority, j) && t == Inserted(q, j + 1, EventOrder(event, s, kind, 0));
      assert k == j;
    }
  }

  // So it can be said as a function.
  function FirstIndex(q: seq<EventOrder>, s: int, kind: HTEventType, event: HTEvent): (k: nat)
    ensures k <= |q| && (k < |q| ==> FirstSame(q, k, s, kind, event))
    ensures k == |q| ==> !Waits(q, s, kind, event)
  {
    if q == [] || Same(q[0], s, kind, event) then 0
    else
      var k := FirstIndex(q[1..], s, kind, event);
      assert forall i :: 0 < i < |q| ==> q[i] == q[1..][i - 1];
      k + 1
  }

  function LastHigher(q: seq<EventOrder>, n: nat, priority: int): (k: int)
    requires n <= |q|
    ensures LastAbove(q, n, priority, k)
  {
    if n == 0 then -1 else if Priority(q[n - 1]) > priority then n - 1 else LastHigher(q, n - 1, priority)
  }

  predicate Sorted(q: seq<EventOrder>) {
    forall i, j :: 0 <= i < j < |q| ==> Priority(q[i]) >= Priority(q[j])
  }

  // To skip an entry once more raises its priority where it stands, which keeps the order exactly if the
  // one before it is strictly higher.
  lemma SkippingKeepsSorted(q: seq<EventOrder>, k: nat)
    requires Sorted(q) && k < |q|
    ensures Sorted(q[k := q[k].(skipped := q[k].skipped + 1)]) <==> (k > 0 ==> Priority(q[k - 1]) > Priority(q[k]))
  {
    var r := q[k := q[k].(skipped := q[k].skipped + 1)];
    assert k > 0 ==> Priority(r[k - 1]) == Priority(q[k - 1]) && Priority(r[k]) == Priority(q[k]) + 1;
  }

  // ---------------------------------------------------------------------------------------------
  // One round

  datatype Ready = Ready(s: int, kind: HTEventType, event: HTEvent)

  function New(r: Ready): EventOrder {
    EventOrder(r.event, r.s, r.kind, 0)
  }

  // What a ready event makes of any queue.
  function Enqueued(r: Ready, q: seq<EventOrder>): (t: seq<EventOrder>)
    ensures Queued(q, r.s, r.kind, r.event, t)
  {
    var k := FirstIndex(q, r.s, r.kind, r.event);
    if k < |q| then q[k := q[k].(skipped := q[k].skipped + 1)]
    else Inserted(q, LastHigher(q, |q|, r.event.priority) + 1, New(r))
  }

  function AllEnqueued(rs: seq<Ready>, q: seq<EventOrder>): seq<EventOrder> {
    if rs == [] then q else Enqueued(rs[|rs| - 1], AllEnqueued(rs[..|rs| - 1], q))
  }

  // The queue that the events of one round leave in an empty one.
  function Place(r: Ready, q: seq<EventOrder>): seq<EventOrder> {
    if q == [] || Priority(q[0]) <= r.event.priority then [New(r)] + q else [q[0]] + Place(r, q[1..])
  }

  function Placed(rs: seq<Ready>): seq<EventOrder> {
    if rs == [] then [] else Place(rs[|rs| - 1], Placed(rs[..|rs| - 1]))
  }

  lemma {:induction false} PlaceIsPermutation(r: Ready, q: seq<EventOrder>)
    ensures multiset(Place(r, q)) == multiset(q) + multiset{New(r)}
  {
    if q != [] && Priority(q[0]) > r.event.priority {
      PlaceIsPermutation(r, q[1..]);
      assert q == [q[0]] + q[1..];
    }
  }

  lemma {:induction false} PlaceKeepsSorted(r: Ready, q: seq<EventOrder>)
    requires Sorted(q)
    ensures Sorted(Place(r, q))
  {
    if q != [] && Priority(q[0]) > r.event.priority {
      PlaceKeepsSorted(r, q[1..]);
      var rest := Place(r, q[1..]);
      PlaceIsPermutation(r, q[1..]);
      forall j | 0 <= j < |rest|
        ensures Priority(q[0]) >= Priority(rest[j])
      {
        assert rest[j] in multiset(rest);
        assert rest[j] == New(r) || rest[j] in q[1..];
      }
    }
  }

  // In a sorted queue the place behind the last of higher priority is before the first of the others.
  lemma {:induction false} QueuedIsPlaced(r: Ready, q: seq<EventOrder>, t: seq<EventOrder>)
    requires Sorted(q) && !Waits(q, r.s, r.kind, r.event) && Queued(q, r.s, r.kind, r.event, t)
    ensures t == Place(r, q)
  {
    var k :| LastAbove(q, |q|, r.event.priority, k) && t == Inserted(q, k + 1, New(r));
    PlaceAt(r, q, k);
  }

  lemma InsertedLater(q: seq<EventOrder>, p: nat, e: EventOrder)
    requires 1 <= p <= |q|
    ensures Inserted(q, p, e) == [q[0]] + Inserted(q[1..], p - 1, e)
  {
    assert q[..p] == [q[0]] + q[1..][..p - 1];
    assert q[p..] == q[1..][p - 1..];
  }

  lemma {:induction false} PlaceAt(r: Ready, q: seq<EventOrder>, k: int)
    requires Sorted(q) && LastAbove(q, |q|, r.event.priority, k)
    ensures Place(r, q) == Inserted(q, k + 1, New(r))
  {
    if q != [] && Priority(q[0]) > r.event.priority {
      var v := q[1..];
      assert k >= 0;
      assert k > 0 ==> v[k - 1] == q[k];
      assert LastAbove(v, |v|, r.event.priority, k - 1) by {
        forall i | k - 1 < i < |v|
          ensures Priority(v[i]) <= r.event.priority
        {
          assert v[i] == q[i + 1];
        }
      }
      assert Sorted(v);
      PlaceAt(r, v, k - 1);
      InsertedLater(q, k + 1, New(r));
    }
  }

  lemma {:induction false} PlacedHas(rs: seq<Ready>, e: EventOrder)
    ensures e in Placed(rs) <==> exists i :: 0 <= i < |rs| && e == New(rs[i])
  {
    if rs != [] {
      var r, v := rs[|rs| - 1], rs[..|rs| - 1];
      PlacedHas(v, e);
      PlaceIsPermutation(r, Placed(v));
      assert e in Placed(rs) <==> e in multiset(Placed(rs));
      assert e in Placed(v) <==> e in multiset(Placed(v));
      if i :| 0 <= i < |rs| && e == New(rs[i]) {
        assert i == |rs| - 1 || rs[i] == v[i];
      }
    }
  }

  function AllNew(rs: seq<Ready>): seq<EventOrder> {
    if rs == [] then [] else AllNew(rs[..|rs| - 1]) + [New(rs[|rs| - 1])]
  }

  // The order of the queue after a round: by falling priority, and among equals the last comes first.
  lemma {:induction false} PlacedSorts(rs: seq<Ready>)
    ensures Sorted(Placed(rs)) && |Placed(rs)| == |rs|
    ensures multiset(Placed(rs)) == multiset(AllNew(rs))
  {
    if rs != [] {
      var r, v := rs[|rs| - 1], rs[..|rs| - 1];
      PlacedSorts(v);
      PlaceKeepsSorted(r, Placed(v));
      PlaceIsPermutation(r, Placed(v));
      assert |Placed(rs)| == |multiset(Placed(rs))|;
    }
  }

  // The queue with the entries of one socket and type taken out.
  function Without(q: seq<EventOrder>, s: int, kind: HTEventType): seq<EventOrder> {
    if q == [] then []
    else (if q[0].s == s && q[0].kind == kind then [] else [q[0]]) + Without(q[1..], s, kind)
  }

  lemma {:induction false} WithoutSnoc(q: seq<EventOrder>, e: EventOrder, s: int, kind: HTEventType)
    ensures Without(q + [e], s, kind) == Without(q, s, kind) + if e.s == s && e.kind == kind then [] else [e]
  {
    if q == [] {
      assert [e][1..] == [];
    } else {
      WithoutSnoc(q[1..], e, s, kind);
      assert (q + [e])[1..] == q[1..] + [e];
    }
  }

  lemma {:induction false} WithoutHas(q: seq<EventOrder>, s: int, kind: HTEventType, e: EventOrder)
    ensures e in Without(q, s, kind) <==> e in q && !(e.s == s && e.kind == kind)
  {
    if q != [] {
      WithoutHas(q[1..], s, kind, e);
    }
  }

  predicate Apart(rs: seq<Ready>, s: int, kind: HTEventType) {
    forall i :: 0 <= i < |rs| ==> rs[i].s != s || rs[i].kind != kind
  }

  lemma PlacedApart(rs: seq<Ready>, s: int, kind: HTEventType, e: EventOrder)
    requires Apart(rs, s, kind) && e in Placed(rs)
    ensures e.s != s || e.kind != kind
  {
    PlacedHas(rs, e);
  }

  // An event of a socket and type that no other in the round has is new to the queue.
  lemma NotWaiting(rs: seq<Ready>, r: Ready)
    requires Apart(rs, r.s, r.kind)
    ensures !Waits(Placed(rs), r.s, r.kind, r.event)
  {
    var q := Placed(rs);
    forall k | 0 <= k < |q|
      ensures !Same(q[k], r.s, r.kind, r.event)
    {
      PlacedApart(rs, r.s, r.kind, q[k]);
    }
  }

  // Every socket and type is there once.
  predicate AllApart(rs: seq<Ready>) {
    forall i, j :: 0 <= i < j < |rs| ==> rs[i].s != rs[j].s || rs[i].kind != rs[j].kind
  }

  // An entry that was in the queue before comes of an event before the last.
  lemma OfEarlier(rs: seq<Ready>, e: EventOrder, a: nat)
    requires rs != [] && AllApart(rs) && e in Placed(rs[..|rs| - 1]) && a < |rs| && e == New(rs[a])
    ensures a < |rs| - 1 && rs[..|rs| - 1][a] == rs[a]
  {
    var v := rs[..|rs| - 1];
    PlacedHas(v, e);
    var i :| 0 <= i < |v| && e == New(v[i]);
    assert v[i] == rs[i];
  }

  // Of two entries of one round that have the same priority, the one that was found later comes first.
  lemma {:induction false} PlacedTies(rs: seq<Ready>, i: nat, j: nat, a: nat, b: nat)
    requires AllApart(rs) && i < j < |Placed(rs)| && a < |rs| && b < |rs|
    requires Placed(rs)[i] == New(rs[a]) && Placed(rs)[j] == New(rs[b])
    requires rs[a].event.priority == rs[b].event.priority
    ensures a > b
    decreases |rs|
  {
    var last := |rs| - 1;
    var q, p := Placed(rs[..last]), LastPlace(rs);
    LastPlaced(rs);
    OnlyOnce(rs, last, a);
    OnlyOnce(rs, last, b);
    if j == p {
      HigherBefore(q, p - 1, i, rs[last].event.priority);
      assert false;
    } else {
      OfEarlier(rs, q[Skip(j, p)], b);
      if i != p {
        OfEarlier(rs, q[Skip(i, p)], a);
        PlacedTies(rs[..last], Skip(i, p), Skip(j, p), a, b);
      }
    }
  }

  // Where an entry was before another was put in at p.
  function Skip(i: nat, p: nat): nat
    requires i != p
  {
    if i < p then i else i - 1
  }

  // Where the last event of a round is put.
  function LastPlace(rs: seq<Ready>): nat
    requires rs != []
  {
    var q := Placed(rs[..|rs| - 1]);
    LastHigher(q, |q|, rs[|rs| - 1].event.priority) + 1
  }

  lemma LastPlaced(rs: seq<Ready>)
    requires rs != []
    ensures var r, q, p := rs[|rs| - 1], Placed(rs[..|rs| - 1]), LastPlace(rs);
      p <= |q| && Placed(rs) == Inserted(q, p, New(r)) && Sorted(q) && LastAbove(q, |q|, r.event.priority, p - 1)
  {
    PlacedSorts(rs[..|rs| - 1]);
    PlaceAt(rs[|rs| - 1], Placed(rs[..|rs| - 1]), LastPlace(rs) - 1);
  }

  lemma OnlyOnce(rs: seq<Ready>, a: nat, b: nat)
    requires AllApart(rs) && a < |rs| && b < |rs|
    ensures New(rs[a]) == New(rs[b]) ==> a == b
  {
  }

  lemma HigherBefore(q: seq<EventOrder>, k: int, i: nat, priority: int)
    requires Sorted(q) && LastAbove(q, |q|, priority, k) && i <= k
    ensures Priority(q[i]) > priority
  {
  }

  // An empty queue gets them by falling priority.
  lemma {:induction false} EmptyIsPlaced(rs: seq<Ready>)
    requires AllApart(rs)
    ensures AllEnqueued(rs, []) == Placed(rs)
  {
    if rs != [] {
      var r, v := rs[|rs| - 1], rs[..|rs| - 1];
      EmptyIsPlaced(v);
      PlacedSorts(v);
      NotWaiting(v, r);
      QueuedIsPlaced(r, Placed(v), Enqueued(r, Placed(v)));
    }
  }

  // The first n entries, or all of them.
  function First(q: seq<EventOrder>, n: nat): seq<EventOrder> {
    if |q| <= n then q else q[..n]
  }

  function Rest(q: seq<EventOrder>, n: nat): seq<EventOrder> {
    if |q| <= n then [] else q[n..]
  }
}
