// The event manager of HTEvtLst.c: the hash table of registered events, the sets of file descriptors with
// MaxSock, and the queue of ready events, which have to agree while callbacks register and unregister.
module HTEvtLst {
  import opened EventOrder
  import opened Options

  const HT_M_HASH_SIZE := 67
  const EVENTS_TO_EXECUTE := 10
  const INVSOC := -1

  type SOCKET = s: int | -1 <= s witness -1

  const HT_OK := 0
  const HT_ERROR := -1

  datatype SockEvents = SockEvents(s: int, events: map<HTEventType, HTEvent>)

  type Table = seq<seq<SockEvents>>

  function Hash(s: int): (v: nat)
    requires s >= 0
    ensures v < HT_M_HASH_SIZE
  {
    s % HT_M_HASH_SIZE
  }

  // The first entry of a bucket for a socket, or the length of the bucket.
  function Find(b: seq<SockEvents>, s: int): (i: nat)
    ensures i <= |b| && (i < |b| ==> b[i].s == s) && forall k :: 0 <= k < i ==> b[k].s != s
  {
    if b == [] || b[0].s == s then 0 else 1 + Find(b[1..], s)
  }

  lemma {:induction false} FindIs(b: seq<SockEvents>, s: int, i: nat)
    requires i <= |b| && (i < |b| ==> b[i].s == s) && forall k :: 0 <= k < i ==> b[k].s != s
    ensures Find(b, s) == i
  {
    if i > 0 {
      assert forall k :: 0 <= k < i - 1 ==> b[1..][k] == b[k + 1];
      FindIs(b[1..], s, i - 1);
    }
  }

  // What is registered for a socket, if anything.
  function InBucket(b: seq<SockEvents>, s: int): map<HTEventType, HTEvent> {
    var i := Find(b, s);
    if i < |b| then b[i].events else map[]
  }

  function Events(t: Table, s: int): map<HTEventType, HTEvent>
    requires |t| == HT_M_HASH_SIZE && s >= 0
  {
    InBucket(t[Hash(s)], s)
  }

  predicate Registered(t: Table, s: int, kind: HTEventType)
    requires |t| == HT_M_HASH_SIZE
  {
    s >= 0 && kind in Events(t, s)
  }

  // A bucket holds the sockets that hash to it, each once and with some event.
  ghost predicate GoodBucket(b: seq<SockEvents>, v: nat) {
    && (forall i :: 0 <= i < |b| ==> b[i].s >= 0 && Hash(b[i].s) == v && b[i].events != map[])
    && (forall i, j :: 0 <= i < j < |b| ==> b[i].s != b[j].s)
    && (forall i :: 0 <= i < |b| ==> GoodTypes(b[i].events))
  }

  ghost predicate GoodTypes(m: map<HTEventType, HTEvent>) {
    forall kind :: kind in m ==> kind < HTEvent_TYPES
  }

  ghost predicate GoodTable(t: Table) {
    |t| == HT_M_HASH_SIZE && forall v :: 0 <= v < HT_M_HASH_SIZE ==> GoodBucket(t[v], v)
  }

  function Replaced(b: seq<SockEvents>, i: nat, m: map<HTEventType, HTEvent>): seq<SockEvents>
    requires i < |b|
  {
    b[i := b[i].(events := m)]
  }

  function Dropped(b: seq<SockEvents>, i: nat): (r: seq<SockEvents>)
    requires i < |b|
    ensures |r| == |b| - 1
    ensures forall k :: 0 <= k < |r| ==> r[k] == (if k < i then b[k] else b[k + 1])
  {
    b[..i] + b[i + 1..]
  }

  lemma ReplacedIsGood(b: seq<SockEvents>, v: nat, i: nat, m: map<HTEventType, HTEvent>)
    requires GoodBucket(b, v) && i < |b| && m != map[] && GoodTypes(m)
    ensures GoodBucket(Replaced(b, i, m), v)
  {
  }

  lemma ReplacedIs(b: seq<SockEvents>, i: nat, m: map<HTEventType, HTEvent>, y: int)
    requires i < |b| && i == Find(b, b[i].s)
    ensures InBucket(Replaced(b, i, m), y) == if y == b[i].s then m else InBucket(b, y)
  {
    FindIs(Replaced(b, i, m), y, Find(b, y));
  }

  lemma DroppedIsGood(b: seq<SockEvents>, v: nat, i: nat)
    requires GoodBucket(b, v) && i < |b|
    ensures GoodBucket(Dropped(b, i), v)
  {
  }

  lemma DroppedIs(b: seq<SockEvents>, v: nat, i: nat, y: int)
    requires GoodBucket(b, v) && i < |b|
    ensures InBucket(Dropped(b, i), y) == if y == b[i].s then map[] else InBucket(b, y)
  {
    var r, j := Dropped(b, i), Find(b, y);
    if j < i || j == |b| {
      FindIs(r, y, if j < i then j else j - 1);
    } else if j > i {
      FindIs(r, y, j - 1);
    } else {
      FindIs(r, y, |r|);
    }
  }

  function Added(x: SockEvents, b: seq<SockEvents>): (r: seq<SockEvents>)
    ensures |r| == |b| + 1 && r[0] == x
    ensures forall k :: 0 < k < |r| ==> r[k] == b[k - 1]
  {
    [x] + b
  }

  lemma AddedIsGood(b: seq<SockEvents>, v: nat, x: SockEvents)
    requires GoodBucket(b, v) && Find(b, x.s) == |b|
    requires x.s >= 0 && Hash(x.s) == v && x.events != map[] && GoodTypes(x.events)
    ensures GoodBucket(Added(x, b), v)
  {
  }

  lemma AddedIs(b: seq<SockEvents>, x: SockEvents, y: int)
    requires Find(b, x.s) == |b|
    ensures InBucket(Added(x, b), y) == if y == x.s then x.events else InBucket(b, y)
  {
    FindIs(Added(x, b), y, if y == x.s then 0 else Find(b, y) + 1);
  }

  // A new entry is made first and filled then.
  lemma FilledIs(b: seq<SockEvents>, s: int, m: map<HTEventType, HTEvent>)
    ensures Replaced(Added(SockEvents(s, map[]), b), 0, m) == Added(SockEvents(s, m), b)
  {
  }

  // ---------------------------------------------------------------------------------------------
  // The table after one socket's event has been set or taken away

  function SetEvent(t: Table, s: int, kind: HTEventType, event: HTEvent): Table
    requires |t| == HT_M_HASH_SIZE && s >= 0
  {
    var b := t[Hash(s)];
    var i := Find(b, s);
    t[Hash(s) := if i < |b| then Replaced(b, i, b[i].events[kind := event])
                 else Added(SockEvents(s, map[kind := event]), b)]
  }

  function ClearEvent(t: Table, s: int, kind: HTEventType): Table
    requires |t| == HT_M_HASH_SIZE && s >= 0
  {
    var b := t[Hash(s)];
    var i := Find(b, s);
    if i == |b| then t
    else if b[i].events - {kind} == map[] then t[Hash(s) := Dropped(b, i)]
    else t[Hash(s) := Replaced(b, i, b[i].events - {kind})]
  }

  lemma SetEventIs(t: Table, s: int, kind: HTEventType, event: HTEvent)
    requires GoodTable(t) && s >= 0 && kind < HTEvent_TYPES
    ensures GoodTable(SetEvent(t, s, kind, event))
    ensures forall y :: y >= 0 ==>
      Events(SetEvent(t, s, kind, event), y) == if y == s then Events(t, s)[kind := event] else Events(t, y)
  {
    var v := Hash(s);
    var b := t[v];
    var i := Find(b, s);
    if i < |b| {
      ReplacedIsGood(b, v, i, b[i].events[kind := event]);
    } else {
      assert kind in map[kind := event];
      AddedIsGood(b, v, SockEvents(s, map[kind := event]));
    }
    forall y | y >= 0
      ensures Events(SetEvent(t, s, kind, event), y) == if y == s then Events(t, s)[kind := event] else Events(t, y)
    {
      if i < |b| {
        ReplacedIs(b, i, b[i].events[kind := event], y);
      } else {
        AddedIs(b, SockEvents(s, map[kind := event]), y);
      }
    }
  }

  lemma ClearEventIs(t: Table, s: int, kind: HTEventType)
    requires GoodTable(t) && s >= 0
    ensures GoodTable(ClearEvent(t, s, kind))
    ensures forall y :: y >= 0 ==>
      Events(ClearEvent(t, s, kind), y) == if y == s then Events(t, s) - {kind} else Events(t, y)
  {
    var v := Hash(s);
    var b := t[v];
    var i := Find(b, s);
    if i < |b| {
      var m := b[i].events - {kind};
      if m == map[] {
        DroppedIsGood(b, v, i);
      } else {
        ReplacedIsGood(b, v, i, m);
      }
      forall y | y >= 0
        ensures Events(ClearEvent(t, s, kind), y) == if y == s then Events(t, s) - {kind} else Events(t, y)
      {
        if m == map[] {
          DroppedIs(b, v, i, y);
        } else {
          ReplacedIs(b, i, m, y);
        }
      }
    }
  }

  // ---------------------------------------------------------------------------------------------
  // The three structures agree

  ghost predicate Bounded(fds: seq<set<int>>, maxSock: int) {
    forall kind, s :: 0 <= kind < |fds| && s in fds[kind] ==> s <= maxSock
  }

  // One above the greatest socket in the sets, or 1.
  ghost predicate OneAbove(maxSock: int, fds: seq<set<int>>) {
    && (forall kind, s :: 0 <= kind < |fds| && s in fds[kind] ==> s < maxSock)
    && (maxSock == 1 || exists kind :: 0 <= kind < |fds| && maxSock - 1 in fds[kind])
  }

  ghost predicate Agree(t: Table, fds: seq<set<int>>, maxSock: int, q: seq<EventOrder>) {
    && GoodTable(t) && |fds| == HTEvent_TYPES && Bounded(fds, maxSock)
    && (forall kind, s :: 0 <= kind < HTEvent_TYPES ==> (s in fds[kind] <==> Registered(t, s, kind)))
    && AllRegistered(t, q)
  }

  ghost predicate AllRegistered(t: Table, q: seq<EventOrder>)
    requires |t| == HT_M_HASH_SIZE
  {
    forall i :: 0 <= i < |q| ==> q[i].kind < HTEvent_TYPES && Registered(t, q[i].s, q[i].kind)
  }

  lemma QueuedRegistered(t: Table, q: seq<EventOrder>, s: int, kind: HTEventType, event: HTEvent, r: seq<EventOrder>)
    requires |t| == HT_M_HASH_SIZE && AllRegistered(t, q) && Queued(q, s, kind, event, r)
    requires kind < HTEvent_TYPES && Registered(t, s, kind)
    ensures AllRegistered(t, r)
  {
  }

  lemma WithoutRegistered(t: Table, q: seq<EventOrder>, s: int, kind: HTEventType)
    requires GoodTable(t) && s >= 0 && AllRegistered(t, q)
    ensures |ClearEvent(t, s, kind)| == HT_M_HASH_SIZE
    ensures AllRegistered(ClearEvent(t, s, kind), Without(q, s, kind))
  {
    ClearEventIs(t, s, kind);
    var r := Without(q, s, kind);
    forall i | 0 <= i < |r|
      ensures r[i].kind < HTEvent_TYPES && Registered(ClearEvent(t, s, kind), r[i].s, r[i].kind)
    {
      WithoutHas(q, s, kind, r[i]);
    }
  }

  lemma SetAgrees(t: Table, fds: seq<set<int>>, maxSock: int, q: seq<EventOrder>,
                  s: int, kind: HTEventType, event: HTEvent)
    requires Agree(t, fds, maxSock, q) && s >= 0 && kind < HTEvent_TYPES
    ensures Agree(SetEvent(t, s, kind, event), fds[kind := fds[kind] + {s}], if s > maxSock then s else maxSock, q)
  {
    SetEventIs(t, s, kind, event);
  }

  lemma ClearAgrees(t: Table, fds: seq<set<int>>, maxSock: int, q: seq<EventOrder>, s: int, kind: HTEventType)
    requires Agree(t, fds, maxSock, q) && s >= 0 && kind < HTEvent_TYPES
    ensures Agree(ClearEvent(t, s, kind), fds[kind := fds[kind] - {s}], maxSock, Without(q, s, kind))
  {
    ClearEventIs(t, s, kind);
    WithoutRegistered(t, q, s, kind);
  }

  // ---------------------------------------------------------------------------------------------
  // What one turn of the event loop finds, in the order in which it looks

  function ReadyFor(t: Table, ready: seq<set<int>>, s: int, kind: HTEventType): seq<Ready>
    requires |t| == HT_M_HASH_SIZE && kind < |ready|
  {
    if s in ready[kind] && Registered(t, s, kind) then [Ready(s, kind, Events(t, s)[kind])] else []
  }

  function ReadyUpTo(t: Table, ready: seq<set<int>>, n: nat): seq<Ready>
    requires |t| == HT_M_HASH_SIZE && |ready| == HTEvent_TYPES
  {
    if n == 0 then []
    else
      ReadyUpTo(t, ready, n - 1) + ReadyFor(t, ready, n - 1, HTEvent_OOB)
      + ReadyFor(t, ready, n - 1, HTEvent_WRITE) + ReadyFor(t, ready, n - 1, HTEvent_READ)
  }

  predicate Below(rs: seq<Ready>, n: int) {
    forall i :: 0 <= i < |rs| ==> rs[i].s < n
  }

  // A socket and type occurs once.
  lemma {:induction false} ReadyIsApart(t: Table, ready: seq<set<int>>, n: nat)
    requires |t| == HT_M_HASH_SIZE && |ready| == HTEvent_TYPES
    ensures AllApart(ReadyUpTo(t, ready, n)) && Below(ReadyUpTo(t, ready, n), n)
  {
    if n > 0 {
      ReadyIsApart(t, ready, n - 1);
      ThreeApart(ReadyUpTo(t, ready, n - 1), n - 1, ReadyFor(t, ready, n - 1, HTEvent_OOB),
                 ReadyFor(t, ready, n - 1, HTEvent_WRITE), ReadyFor(t, ready, n - 1, HTEvent_READ));
    }
  }

  predicate OneOf(rs: seq<Ready>, s: int, kind: HTEventType) {
    rs == [] || (|rs| == 1 && rs[0].s == s && rs[0].kind == kind)
  }

  lemma ThreeApart(rs: seq<Ready>, s: int, a: seq<Ready>, b: seq<Ready>, c: seq<Ready>)
    requires AllApart(rs) && Below(rs, s)
    requires OneOf(a, s, HTEvent_OOB) && OneOf(b, s, HTEvent_WRITE) && OneOf(c, s, HTEvent_READ)
    ensures AllApart(rs + a + b + c) && Below(rs + a + b + c, s + 1)
  {
  }

  // The order in which the ready events are found: by socket, and exceptions before writing before reading.
  function Rank(kind: HTEventType): nat {
    if kind == HTEvent_OOB then 0 else if kind == HTEvent_WRITE then 1 else 2
  }

  predicate FoundBefore(a: Ready, b: Ready) {
    a.s < b.s || (a.s == b.s && Rank(a.kind) < Rank(b.kind))
  }

  predicate AsFound(rs: seq<Ready>) {
    forall i, j :: 0 <= i < j < |rs| ==> FoundBefore(rs[i], rs[j])
  }

  lemma ThreeAsFound(rs: seq<Ready>, s: int, a: seq<Ready>, b: seq<Ready>, c: seq<Ready>)
    requires AsFound(rs) && Below(rs, s)
    requires OneOf(a, s, HTEvent_OOB) && OneOf(b, s, HTEvent_WRITE) && OneOf(c, s, HTEvent_READ)
    ensures AsFound(rs + a + b + c)
  {
  }

  lemma {:induction false} ReadyAsFound(t: Table, ready: seq<set<int>>, n: nat)
    requires |t| == HT_M_HASH_SIZE && |ready| == HTEvent_TYPES
    ensures AsFound(ReadyUpTo(t, ready, n))
  {
    if n > 0 {
      ReadyAsFound(t, ready, n - 1);
      ReadyIsApart(t, ready, n - 1);
      ThreeAsFound(ReadyUpTo(t, ready, n - 1), n - 1, ReadyFor(t, ready, n - 1, HTEvent_OOB),
                   ReadyFor(t, ready, n - 1, HTEvent_WRITE), ReadyFor(t, ready, n - 1, HTEvent_READ));
    }
  }

  // The number of sockets that a loop from 0 to maxfds looks at.
  function Turns(maxfds: int): nat {
    if maxfds < 0 then 0 else maxfds + 1
  }

  lemma {:induction false} ReadyHas(t: Table, ready: seq<set<int>>, n: nat, r: Ready)
    requires |t| == HT_M_HASH_SIZE && |ready| == HTEvent_TYPES
    ensures r in ReadyUpTo(t, ready, n) <==>
      && 0 <= r.s < n && r.kind < HTEvent_TYPES && r.s in ready[r.kind]
      && Registered(t, r.s, r.kind) && r.event == Events(t, r.s)[r.kind]
  {
    if n > 0 {
      ReadyHas(t, ready, n - 1, r);
    }
  }

  // In a turn of the loop no ready socket is overlooked: MaxSock is not below any of them.
  lemma NoneOverlooked(t: Table, fds: seq<set<int>>, maxSock: int, q: seq<EventOrder>, ready: seq<set<int>>,
                       s: int, kind: HTEventType)
    requires Agree(t, fds, maxSock, q) && |ready| == HTEvent_TYPES && kind < HTEvent_TYPES
    requires ready[kind] <= fds[kind] && s in ready[kind]
    ensures Registered(t, s, kind) && Ready(s, kind, Events(t, s)[kind]) in ReadyUpTo(t, ready, Turns(maxSock))
  {
    ReadyHas(t, ready, Turns(maxSock), Ready(s, kind, Events(t, s)[kind]));
  }

  // A call that a callback makes back into this module.
  datatype Call = Registers(s: SOCKET, kind: HTEventType, event: HTEvent) | Unregisters(s: SOCKET, kind: HTEventType)

  // What a callback does, and what it returns.
  datatype Callback = Callback(calls: seq<Call>, ret: int)

  // What the calls make of the table and the queue.
  function Done(calls: seq<Call>, t: Table, q: seq<EventOrder>): (r: (Table, seq<EventOrder>))
    requires |t| == HT_M_HASH_SIZE
    ensures |r.0| == HT_M_HASH_SIZE
    decreases |calls|
  {
    if calls == [] then (t, q)
    else if calls[0].s == INVSOC || calls[0].kind >= HTEvent_TYPES then Done(calls[1..], t, q)
    else
      match calls[0]
      case Registers(s, kind, event) => Done(calls[1..], SetEvent(t, s, kind, event), q)
      case Unregisters(s, kind) => Done(calls[1..], ClearEvent(t, s, kind), Without(q, s, kind))
  }

  // What running the queue comes to: each entry is off the queue before its callback is called, and the
  // entry for which there is no turn left is off it too.
  datatype Outcome = Outcome(ret: int, ran: seq<EventOrder>, table: Table, queue: seq<EventOrder>)

  function Execute(callbacks: seq<Callback>, t: Table, q: seq<EventOrder>): Outcome
    requires |t| == HT_M_HASH_SIZE
    decreases |callbacks|
  {
    if q == [] then Outcome(HT_OK, [], t, [])
    else if callbacks == [] then Outcome(HT_OK, [], t, q[1..])
    else
      var d := Done(callbacks[0].calls, t, q[1..]);
      if callbacks[0].ret != HT_OK then Outcome(callbacks[0].ret, [q[0]], d.0, d.1)
      else Before([q[0]], Execute(callbacks[1..], d.0, d.1))
  }

  function Before(ran: seq<EventOrder>, o: Outcome): Outcome {
    o.(ran := ran + o.ran)
  }

  lemma ExecuteOne(callbacks: seq<Callback>, i: nat, t: Table, q: seq<EventOrder>, ran: seq<EventOrder>)
    requires |t| == HT_M_HASH_SIZE && i < |callbacks| && q != []
    ensures var d := Done(callbacks[i].calls, t, q[1..]);
      Before(ran, Execute(callbacks[i..], t, q)) ==
        if callbacks[i].ret != HT_OK then Outcome(callbacks[i].ret, ran + [q[0]], d.0, d.1)
        else Before(ran + [q[0]], Execute(callbacks[i + 1..], d.0, d.1))
  {
    assert callbacks[i..][1..] == callbacks[i + 1..];
    var d := Done(callbacks[i].calls, t, q[1..]);
    var o := Execute(callbacks[i + 1..], d.0, d.1);
    assert ran + ([q[0]] + o.ran) == ran + [q[0]] + o.ran;
  }

  // With quiet callbacks the first entries run, in order, and the one after them is lost.
  lemma {:induction false} QuietOnesRun(callbacks: seq<Callback>, t: Table, q: seq<EventOrder>)
    requires |t| == HT_M_HASH_SIZE && Quiet(callbacks)
    ensures Execute(callbacks, t, q)
         == Outcome(HT_OK, First(q, |callbacks|), t, Rest(q, |callbacks| + 1))
    decreases |callbacks|
  {
    if q != [] && callbacks != [] {
      QuietOnesRun(callbacks[1..], t, q[1..]);
      assert [q[0]] + First(q[1..], |callbacks| - 1) == First(q, |callbacks|);
      assert Rest(q[1..], |callbacks|) == Rest(q, |callbacks| + 1);
    }
  }

  // A callback may take entries off the queue, but adds none: those that run are of the queue, in its order.
  ghost predicate Within(a: seq<EventOrder>, b: seq<EventOrder>) {
    a == [] || (b != [] && (if a[0] == b[0] then Within(a[1..], b[1..]) else Within(a, b[1..])))
  }

  lemma {:induction false} WithinWithout(a: seq<EventOrder>, q: seq<EventOrder>, s: int, kind: HTEventType)
    requires Within(a, Without(q, s, kind))
    ensures Within(a, q)
    decreases |q|
  {
    if a != [] && q != [] {
      if q[0].s == s && q[0].kind == kind {
        assert Without(q, s, kind) == Without(q[1..], s, kind);
        WithinWithout(a, q[1..], s, kind);
        WithinMore(a, q);
      } else {
        assert Without(q, s, kind)[1..] == Without(q[1..], s, kind);
        if a[0] == q[0] {
          WithinWithout(a[1..], q[1..], s, kind);
        } else {
          WithinWithout(a, q[1..], s, kind);
        }
      }
    }
  }

  lemma {:induction false} WithinMore(a: seq<EventOrder>, q: seq<EventOrder>)
    requires q != [] && Within(a, q[1..])
    ensures Within(a, q) && (a != [] ==> Within(a[1..], q[1..]))
    decreases |q|
  {
    if a != [] {
      var r := q[1..];
      if a[0] != r[0] {
        WithinMore(a, r);
      }
      WithinMore(a[1..], r);
    }
  }

  lemma {:induction false} WithinDone(a: seq<EventOrder>, calls: seq<Call>, t: Table, q: seq<EventOrder>)
    requires |t| == HT_M_HASH_SIZE && Within(a, Done(calls, t, q).1)
    ensures Within(a, q)
    decreases |calls|
  {
    if calls != [] {
      if calls[0].s == INVSOC || calls[0].kind >= HTEvent_TYPES {
        WithinDone(a, calls[1..], t, q);
      } else {
        match calls[0]
        case Registers(s, kind, event) => WithinDone(a, calls[1..], SetEvent(t, s, kind, event), q);
        case Unregisters(s, kind) =>
          WithinDone(a, calls[1..], ClearEvent(t, s, kind), Without(q, s, kind));
          WithinWithout(a, q, s, kind);
      }
    }
  }

  lemma {:induction false} RunsInOrder(callbacks: seq<Callback>, t: Table, q: seq<EventOrder>)
    requires |t| == HT_M_HASH_SIZE
    ensures Within(Execute(callbacks, t, q).ran, q) && |Execute(callbacks, t, q).ran| <= |callbacks|
    decreases |callbacks|
  {
    if q != [] && callbacks != [] {
      var d := Done(callbacks[0].calls, t, q[1..]);
      RunsInOrder(callbacks[1..], d.0, d.1);
      var rest := Execute(callbacks[1..], d.0, d.1).ran;
      WithinDone(rest, callbacks[0].calls, t, q[1..]);
      assert ([q[0]] + rest)[1..] == rest;
    }
  }

  lemma {:induction false} DoneKeeps(calls: seq<Call>, t: Table, q: seq<EventOrder>)
    requires GoodTable(t) && AllRegistered(t, q)
    ensures var d := Done(calls, t, q); GoodTable(d.0) && AllRegistered(d.0, d.1)
    decreases |calls|
  {
    if calls != [] {
      if calls[0].s == INVSOC || calls[0].kind >= HTEvent_TYPES {
        DoneKeeps(calls[1..], t, q);
      } else {
        match calls[0]
        case Registers(s, kind, event) =>
          SetEventIs(t, s, kind, event);
          DoneKeeps(calls[1..], SetEvent(t, s, kind, event), q);
        case Unregisters(s, kind) =>
          ClearEventIs(t, s, kind);
          WithoutRegistered(t, q, s, kind);
          DoneKeeps(calls[1..], ClearEvent(t, s, kind), Without(q, s, kind));
      }
    }
  }

  // Each entry that runs is registered in the table as it is then.
  ghost predicate RegisteredWhenRun(callbacks: seq<Callback>, t: Table, q: seq<EventOrder>)
    requires |t| == HT_M_HASH_SIZE
    decreases |callbacks|
  {
    q != [] && callbacks != [] ==>
      var d := Done(callbacks[0].calls, t, q[1..]);
      && Registered(t, q[0].s, q[0].kind)
      && (callbacks[0].ret == HT_OK ==> RegisteredWhenRun(callbacks[1..], d.0, d.1))
  }

  lemma {:induction false} AllRunRegistered(callbacks: seq<Callback>, t: Table, q: seq<EventOrder>)
    requires GoodTable(t) && AllRegistered(t, q)
    ensures RegisteredWhenRun(callbacks, t, q)
    decreases |callbacks|
  {
    if q != [] && callbacks != [] {
      var d := Done(callbacks[0].calls, t, q[1..]);
      assert AllRegistered(t, q[1..]);
      DoneKeeps(callbacks[0].calls, t, q[1..]);
      AllRunRegistered(callbacks[1..], d.0, d.1);
    }
  }

  // The event that an entry was queued for is the one that is registered.
  predicate Current(t: Table, e: EventOrder)
    requires |t| == HT_M_HASH_SIZE
  {
    Registered(t, e.s, e.kind) && Events(t, e.s)[e.kind] == e.event
  }

  // The last event that the calls register for a socket and type.
  function LastEvent(calls: seq<Call>, s: int, kind: HTEventType): Option<HTEvent> {
    if calls == [] then None
    else
      var c := calls[|calls| - 1];
      if c.Registers? && c.s == s && c.kind == kind then Some(c.event)
      else LastEvent(calls[..|calls| - 1], s, kind)
  }

  // After the calls: no event was registered in the place of the entry's, or its own was the last.
  predicate StillMeant(t: Table, calls: seq<Call>, e: EventOrder)
    requires |t| == HT_M_HASH_SIZE
  {
    match LastEvent(calls, e.s, e.kind)
    case None => Current(t, e)
    case Some(event) => event == e.event
  }

  // The calls that callbacks make before the turn k.
  function Made(callbacks: seq<Callback>, k: nat): seq<Call>
    requires k <= |callbacks|
  {
    if k == 0 then [] else callbacks[0].calls + Made(callbacks[1..], k - 1)
  }

  // What the calls so far tell of the entries that are left.
  ghost predicate Tells(t0: Table, made: seq<Call>, t: Table, q: seq<EventOrder>)
    requires |t0| == |t| == HT_M_HASH_SIZE
  {
    forall i :: 0 <= i < |q| ==> (Current(t, q[i]) <==> StillMeant(t0, made, q[i]))
  }

  lemma LastSnoc(calls: seq<Call>, c: Call, s: int, kind: HTEventType)
    ensures LastEvent(calls + [c], s, kind) ==
      if c.Registers? && c.s == s && c.kind == kind then Some(c.event) else LastEvent(calls, s, kind)
  {
    assert (calls + [c])[..|calls|] == calls;
  }

  // One call, which is done on the way.
  lemma CallTells(t0: Table, made: seq<Call>, t: Table, q: seq<EventOrder>, c: Call)
    requires |t0| == HT_M_HASH_SIZE && GoodTable(t) && AllRegistered(t, q) && Tells(t0, made, t, q)
    ensures var d := Done([c], t, q); Tells(t0, made + [c], d.0, d.1)
  {
    var d := Done([c], t, q);
    DoneOne(c, t, q);
    forall i | 0 <= i < |d.1|
      ensures Current(d.0, d.1[i]) <==> StillMeant(t0, made + [c], d.1[i])
    {
      LastSnoc(made, c, d.1[i].s, d.1[i].kind);
      CallIs(c, t, q, d.1[i]);
    }
  }

  lemma DoneOne(c: Call, t: Table, q: seq<EventOrder>)
    requires |t| == HT_M_HASH_SIZE
    ensures Done([c], t, q) ==
      if c.s == INVSOC || c.kind >= HTEvent_TYPES then (t, q)
      else if c.Registers? then (SetEvent(t, c.s, c.kind, c.event), q)
      else (ClearEvent(t, c.s, c.kind), Without(q, c.s, c.kind))
  {
    assert [c][1..] == [];
  }

  // What one call makes of an entry that it leaves in the queue.
  lemma CallIs(c: Call, t: Table, q: seq<EventOrder>, e: EventOrder)
    requires GoodTable(t) && AllRegistered(t, q) && e in Done([c], t, q).1
    ensures e in q
    ensures Current(Done([c], t, q).0, e)
      <==> if c.Registers? && c.s == e.s && c.kind == e.kind then c.event == e.event else Current(t, e)
  {
    DoneOne(c, t, q);
    if c.s != INVSOC && c.kind < HTEvent_TYPES {
      match c
      case Registers(s, kind, event) => SetEventIs(t, s, kind, event);
      case Unregisters(s, kind) =>
        ClearEventIs(t, s, kind);
        WithoutHas(q, s, kind, e);
    }
  }

  lemma {:induction false} DoneTells(t0: Table, made: seq<Call>, t: Table, q: seq<EventOrder>, calls: seq<Call>)
    requires |t0| == HT_M_HASH_SIZE && GoodTable(t) && AllRegistered(t, q) && Tells(t0, made, t, q)
    ensures var d := Done(calls, t, q); Tells(t0, made + calls, d.0, d.1)
    decreases |calls|
  {
    if calls == [] {
      assert made + calls == made;
    } else {
      var d := Done([calls[0]], t, q);
      CallTells(t0, made, t, q, calls[0]);
      DoneKeeps([calls[0]], t, q);
      DoneTells(t0, made + [calls[0]], d.0, d.1, calls[1..]);
      assert made + [calls[0]] + calls[1..] == made + calls;
    }
  }

  // Each entry that runs is there for the event that is registered then.
  ghost predicate CurrentWhenRun(callbacks: seq<Callback>, t: Table, q: seq<EventOrder>)
    requires |t| == HT_M_HASH_SIZE
    decreases |callbacks|
  {
    q != [] && callbacks != [] ==>
      var d := Done(callbacks[0].calls, t, q[1..]);
      && Current(t, q[0])
      && (callbacks[0].ret == HT_OK ==> CurrentWhenRun(callbacks[1..], d.0, d.1))
  }

  ghost predicate AllStillMeant(t0: Table, made: seq<Call>, callbacks: seq<Callback>, ran: seq<EventOrder>)
    requires |t0| == HT_M_HASH_SIZE && |ran| <= |callbacks|
  {
    forall k :: 0 <= k < |ran| ==> StillMeant(t0, made + Made(callbacks, k), ran[k])
  }

  lemma MeantFirst(t0: Table, made: seq<Call>, callbacks: seq<Callback>, ran: seq<EventOrder>)
    requires |t0| == HT_M_HASH_SIZE && 0 < |ran| <= |callbacks|
    ensures AllStillMeant(t0, made, callbacks, ran)
      <==> StillMeant(t0, made, ran[0]) && AllStillMeant(t0, made + callbacks[0].calls, callbacks[1..], ran[1..])
  {
    assert made + [] == made;
    forall k | 0 < k < |ran|
      ensures made + Made(callbacks, k) == made + callbacks[0].calls + Made(callbacks[1..], k - 1)
      ensures ran[k] == ran[1..][k - 1]
    {
    }
    if AllStillMeant(t0, made, callbacks, ran) {
      assert StillMeant(t0, made + Made(callbacks, 0), ran[0]);
      forall k | 0 <= k < |ran| - 1
        ensures StillMeant(t0, made + callbacks[0].calls + Made(callbacks[1..], k), ran[1..][k])
      {
        assert StillMeant(t0, made + Made(callbacks, k + 1), ran[k + 1]);
      }
    }
  }

  lemma {:induction false} RunsAsTold(t0: Table, made: seq<Call>, callbacks: seq<Callback>, t: Table, q: seq<EventOrder>)
    requires |t0| == HT_M_HASH_SIZE && GoodTable(t) && AllRegistered(t, q) && Tells(t0, made, t, q)
    ensures |Execute(callbacks, t, q).ran| <= |callbacks|
    ensures CurrentWhenRun(callbacks, t, q) <==> AllStillMeant(t0, made, callbacks, Execute(callbacks, t, q).ran)
    decreases |callbacks|
  {
    RunsInOrder(callbacks, t, q);
    if q != [] && callbacks != [] {
      var calls, rest := callbacks[0].calls, q[1..];
      var d := Done(calls, t, rest);
      var ran := Execute(callbacks, t, q).ran;
      assert AllRegistered(t, rest) && Tells(t0, made, t, rest);
      DoneKeeps(calls, t, rest);
      DoneTells(t0, made, t, rest, calls);
      RunsAsTold(t0, made + calls, callbacks[1..], d.0, d.1);
      MeantFirst(t0, made, callbacks, ran);
    }
  }

  // Every entry that runs is there for the event that is registered at its turn, if and only if the calls
  // made before that turn have registered no event for its socket and type, and it was current from the
  // beginning, or have registered its own last.
  lemma RunsCurrent(callbacks: seq<Callback>, t: Table, q: seq<EventOrder>)
    requires GoodTable(t) && AllRegistered(t, q)
    ensures |Execute(callbacks, t, q).ran| <= |callbacks|
    ensures CurrentWhenRun(callbacks, t, q) <==>
      forall k :: 0 <= k < |Execute(callbacks, t, q).ran| ==>
        StillMeant(t, Made(callbacks, k), Execute(callbacks, t, q).ran[k])
  {
    RunsAsTold(t, [], callbacks, t, q);
    forall k | 0 <= k <= |callbacks|
      ensures [] + Made(callbacks, k) == Made(callbacks, k)
    {
    }
  }

  // No call registers another event than the entry's for its socket and type.
  predicate NoneOther(calls: seq<Call>, e: EventOrder) {
    forall i :: 0 <= i < |calls| && calls[i].Registers? && calls[i].s == e.s && calls[i].kind == e.kind ==>
      calls[i].event == e.event
  }

  // That is enough for an entry that was current.
  lemma {:induction false} NoneOtherIsEnough(t: Table, calls: seq<Call>, e: EventOrder)
    requires |t| == HT_M_HASH_SIZE && Current(t, e) && NoneOther(calls, e)
    ensures StillMeant(t, calls, e)
  {
    if calls != [] {
      NoneOtherIsEnough(t, calls[..|calls| - 1], e);
    }
  }

  // An entry runs for an event that is not registered any more, if a callback before it registers another.
  lemma GoesStale(t: Table, a: EventOrder, b: EventOrder, other: HTEvent)
    requires GoodTable(t) && b.kind < HTEvent_TYPES && Registered(t, b.s, b.kind) && b.event != other
    ensures !CurrentWhenRun([Callback([Registers(b.s, b.kind, other)], HT_OK), Callback([], HT_OK)], t, [a, b])
  {
    var there := Registers(b.s, b.kind, other);
    SetEventIs(t, b.s, b.kind, other);
    DoneOne(there, t, [b]);
    TwoRun([there], t, a, b);
  }

  // Unless the callback registers the entry's own event again: that no other is registered is enough for an
  // entry to be current, but not necessary.
  lemma BackAgain(t: Table, a: EventOrder, b: EventOrder, other: HTEvent)
    requires GoodTable(t) && b.kind < HTEvent_TYPES && Registered(t, b.s, b.kind) && b.event != other
    requires Current(t, a)
    ensures var calls := [Registers(b.s, b.kind, other), Registers(b.s, b.kind, b.event)];
      !NoneOther(calls, b) && CurrentWhenRun([Callback(calls, HT_OK), Callback([], HT_OK)], t, [a, b])
  {
    var there, back := Registers(b.s, b.kind, other), Registers(b.s, b.kind, b.event);
    assert [there, back][0] == there;
    var u := SetEvent(t, b.s, b.kind, other);
    SetEventIs(t, b.s, b.kind, other);
    SetEventIs(u, b.s, b.kind, b.event);
    DoneOne(back, u, [b]);
    assert [there, back][1..] == [back];
    TwoRun([there, back], t, a, b);
  }

  lemma TwoRun(calls: seq<Call>, t: Table, a: EventOrder, b: EventOrder)
    requires |t| == HT_M_HASH_SIZE && Done(calls, t, [b]).1 == [b]
    ensures CurrentWhenRun([Callback(calls, HT_OK), Callback([], HT_OK)], t, [a, b])
      <==> Current(t, a) && Current(Done(calls, t, [b]).0, b)
  {
    var last := [Callback([], HT_OK)];
    var callbacks, d := [Callback(calls, HT_OK)] + last, Done(calls, t, [b]);
    assert callbacks == [Callback(calls, HT_OK), Callback([], HT_OK)];
    assert callbacks[1..] == last && [a, b][1..] == [b];
    assert last[1..] == [] && [b][1..] == [];
    assert CurrentWhenRun(last, d.0, [b]) <==> Current(d.0, b);
    assert CurrentWhenRun(callbacks, t, [a, b]) <==> Current(t, a) && CurrentWhenRun(last, d.0, d.1);
  }

  // Callbacks that return HT_OK and leave the module alone.
  predicate Quiet(callbacks: seq<Callback>) {
    forall k :: 0 <= k < |callbacks| ==> callbacks[k] == Callback([], HT_OK)
  }

  class EventList {
    var hashTable: Table
    var fdArray: seq<set<int>>
    var maxSock: int
    var eventOrder: seq<EventOrder>

    // The three structures agree.
    ghost predicate Valid()
      reads this
    {
      Agree(hashTable, fdArray, maxSock, eventOrder)
    }

    constructor ()
      ensures Valid() && eventOrder == [] && forall s :: s >= 0 ==> Events(hashTable, s) == map[]
    {
      hashTable := seq(HT_M_HASH_SIZE, _ => []);
      fdArray, maxSock, eventOrder := [{}, {}, {}], 0, [];
    }

    // The place of a socket in its bucket, or -1.
    method SockEventsGet(s: SOCKET, mayCreate: bool) returns (i: int)
      requires GoodTable(hashTable)
      modifies `hashTable
      ensures s == INVSOC ==> i == -1
      ensures i == -1 || !mayCreate ==> hashTable == old(hashTable)
      ensures i == -1 && s >= 0 ==> !mayCreate && Find(hashTable[Hash(s)], s) == |hashTable[Hash(s)]|
      ensures |hashTable| == HT_M_HASH_SIZE
      ensures i != -1 ==> s >= 0 && 0 <= i < |hashTable[Hash(s)]| && i == Find(hashTable[Hash(s)], s)
      ensures i != -1 && hashTable != old(hashTable) ==>
        var v := Hash(s); var b := old(hashTable)[v];
        && Find(b, s) == |b| && hashTable == old(hashTable)[v := Added(SockEvents(s, map[]), b)]
    {
      if s == INVSOC {
        return -1;
      }
      var v := Hash(s);
      var b := hashTable[v];
      i := 0;
      while i < |b|
        invariant 0 <= i <= |b| && forall k :: 0 <= k < i ==> b[k].s != s
      {
        if b[i].s == s {
          FindIs(b, s, i);
          return;
        }
        i := i + 1;
      }
      FindIs(b, s, |b|);
      if mayCreate {
        hashTable := hashTable[v := Added(SockEvents(s, map[]), b)];
        return 0;
      }
      return -1;
    }

    method Register(s: SOCKET, kind: HTEventType, event: HTEvent) returns (ret: int)
      requires Valid()
      modifies this
      ensures Valid() && ret == HT_OK && eventOrder == old(eventOrder)
      ensures hashTable == if s == INVSOC || kind >= HTEvent_TYPES then old(hashTable)
                           else SetEvent(old(hashTable), s, kind, event)
      ensures maxSock == if s != INVSOC && kind < HTEvent_TYPES && s > old(maxSock) then s else old(maxSock)
    {
      ret := HT_OK;
      if s == INVSOC || kind >= HTEvent_TYPES {
        return;
      }
      ghost var t := hashTable;
      var v := Hash(s);
      var i := SockEventsGet(s, true);
      var events := hashTable[v][i].events[kind := event];
      hashTable := hashTable[v := Replaced(hashTable[v], i, events)];
      FilledIs(t[v], s, map[kind := event]);
      assert hashTable == SetEvent(t, s, kind, event);
      SetAgrees(t, fdArray, maxSock, eventOrder, s, kind, event);
      fdArray := fdArray[kind := fdArray[kind] + {s}];
      if s > maxSock {
        maxSock := s;
      }
    }

    // __ResetMaxSock: one more than the greatest socket in a set.
    method ResetMaxSock()
      requires |fdArray| == HTEvent_TYPES && Bounded(fdArray, maxSock)
      modifies `maxSock
      ensures OneAbove(maxSock, fdArray)
    {
      var cnt, tMax := 0, 0;
      while cnt <= maxSock
        invariant 0 <= cnt && 0 <= tMax
        invariant forall kind, s :: 0 <= kind < HTEvent_TYPES && s in fdArray[kind] && s < cnt ==> s <= tMax
        invariant tMax == 0 || exists kind :: 0 <= kind < HTEvent_TYPES && tMax in fdArray[kind]
      {
        if cnt in fdArray[HTEvent_READ] || cnt in fdArray[HTEvent_WRITE] || cnt in fdArray[HTEvent_OOB] {
          if cnt > tMax {
            tMax := cnt;
          }
        }
        cnt := cnt + 1;
      }
      maxSock := tMax + 1;
      assert maxSock - 1 == tMax;
    }

    method EventOrderClean(s: int, kind: HTEventType)
      modifies `eventOrder
      ensures eventOrder == Without(old(eventOrder), s, kind)
    {
      var cur := 0;
      ghost var q, seen := eventOrder, 0;
      while cur < |eventOrder|
        invariant 0 <= cur <= |eventOrder| && 0 <= seen <= |q|
        invariant eventOrder[..cur] == Without(q[..seen], s, kind) && eventOrder[cur..] == q[seen..]
        decreases |eventOrder| - cur
      {
        WithoutSnoc(q[..seen], q[seen], s, kind);
        assert q[..seen + 1] == q[..seen] + [q[seen]];
        assert eventOrder[cur] == eventOrder[cur..][0] == q[seen];
        ghost var before := eventOrder;
        if eventOrder[cur].s == s && eventOrder[cur].kind == kind {
          eventOrder := eventOrder[..cur] + eventOrder[cur + 1..];
          assert eventOrder[cur..] == before[cur..][1..] && eventOrder[..cur] == before[..cur];
        } else {
          cur := cur + 1;
          assert eventOrder[cur..] == before[cur - 1..][1..];
        }
        seen := seen + 1;
      }
      assert eventOrder[cur..] == [] && q[..seen] == q;
    }

    method Unregister(s: SOCKET, kind: HTEventType) returns (ret: int)
      requires Valid()
      modifies this
      ensures Valid()
      ensures s == INVSOC || kind >= HTEvent_TYPES ==>
        ret == HT_ERROR && hashTable == old(hashTable) && eventOrder == old(eventOrder)
      ensures s != INVSOC && kind < HTEvent_TYPES ==>
        && hashTable == ClearEvent(old(hashTable), s, kind)
        && eventOrder == Without(old(eventOrder), s, kind)
        && ret == if Find(old(hashTable)[Hash(s)], s) < |old(hashTable)[Hash(s)]| then HT_OK else HT_ERROR
      ensures maxSock == old(maxSock)
        || (s >= 0 && s >= old(maxSock) && Events(hashTable, s) == map[] && OneAbove(maxSock, fdArray))
    {
      if s == INVSOC || kind >= HTEvent_TYPES {
        return HT_ERROR;
      }
      ghost var t, q := hashTable, eventOrder;
      EventOrderClean(s, kind);
      var i := SockEventsGet(s, false);
      ClearAgrees(t, fdArray, maxSock, q, s, kind);
      if i == -1 {
        ret := HT_ERROR;
        assert !Registered(t, s, kind) && s !in fdArray[kind];
        assert fdArray[kind] - {s} == fdArray[kind];
        assert fdArray == fdArray[kind := fdArray[kind] - {s}];
      } else {
        ClearEventIs(t, s, kind);
        Forget(s, kind, i);
        ret := HT_OK;
      }
    }

    // The socket's entry, which is i, loses the event.
    method Forget(s: SOCKET, kind: HTEventType, i: int)
      requires |hashTable| == HT_M_HASH_SIZE && |fdArray| == HTEvent_TYPES && Bounded(fdArray, maxSock)
      requires s >= 0 && 0 <= i < |hashTable[Hash(s)]| && i == Find(hashTable[Hash(s)], s) && kind < HTEvent_TYPES
      modifies `hashTable, `fdArray, `maxSock
      ensures hashTable == ClearEvent(old(hashTable), s, kind)
      ensures fdArray == old(fdArray)[kind := old(fdArray)[kind] - {s}]
      ensures Bounded(fdArray, maxSock)
      ensures maxSock == old(maxSock)
        || (s >= old(maxSock) && old(Events(hashTable, s)) - {kind} == map[] && OneAbove(maxSock, fdArray))
    {
      var v := Hash(s);
      var events := hashTable[v][i].events - {kind};
      fdArray := fdArray[kind := fdArray[kind] - {s}];
      if events == map[] {
        hashTable := hashTable[v := Dropped(hashTable[v], i)];
        if s >= maxSock {
          ResetMaxSock();
        }
      } else {
        hashTable := hashTable[v := Replaced(hashTable[v], i, events)];
      }
    }

    method UnregisterAll()
      requires Valid()
      modifies this
      ensures Valid() && eventOrder == [] && maxSock == 0 && fdArray == [{}, {}, {}]
      ensures forall s :: s >= 0 ==> Events(hashTable, s) == map[]
    {
      var i := 0;
      while i < HT_M_HASH_SIZE
        invariant 0 <= i <= HT_M_HASH_SIZE == |hashTable|
        invariant forall k :: 0 <= k < i ==> hashTable[k] == []
      {
        hashTable := hashTable[i := []];
        i := i + 1;
      }
      maxSock := 0;
      fdArray := [{}, {}, {}];
      eventOrder := [];
    }

    // The loop of EventOrder_add: where the entry is from before, or behind which one to put it.
    method Search(s: int, kind: HTEventType, event: HTEvent) returns (here: nat, insertAfter: int)
      ensures here <= |eventOrder| && forall k :: 0 <= k < here ==> !Same(eventOrder[k], s, kind, event)
      ensures here < |eventOrder| ==> Same(eventOrder[here], s, kind, event)
      ensures here == |eventOrder| ==> LastAbove(eventOrder, here, event.priority, insertAfter)
    {
      here, insertAfter := 0, -1;
      while here < |eventOrder|
        invariant here <= |eventOrder|
        invariant forall k :: 0 <= k < here ==> !Same(eventOrder[k], s, kind, event)
        invariant LastAbove(eventOrder, here, event.priority, insertAfter)
      {
        var pres := eventOrder[here];
        if Same(pres, s, kind, event) {
          return;
        }
        if Priority(pres) > event.priority {
          insertAfter := here;
        }
        here := here + 1;
      }
    }

    method Enqueue(s: int, kind: HTEventType, event: HTEvent)
      modifies `eventOrder
      ensures Entered(old(eventOrder), s, kind, event, eventOrder)
    {
      var here, insertAfter := Search(s, kind, event);
      if here < |eventOrder| {
        var pres := eventOrder[here];
        assert FirstSame(eventOrder, here, s, kind, event) && Waits(eventOrder, s, kind, event);
        eventOrder := eventOrder[here := pres.(skipped := pres.skipped + 1)];
      } else {
        assert !Waits(eventOrder, s, kind, event);
        NewIsBehindTheHigher(eventOrder, insertAfter, EventOrder(event, s, kind, 0));
        eventOrder := Inserted(eventOrder, insertAfter + 1, EventOrder(event, s, kind, 0));
      }
    }

    // The event that is registered, if one is.
    method EventFor(s: int, kind: HTEventType) returns (event: Option<HTEvent>)
      requires Valid() && 0 <= s && kind < HTEvent_TYPES
      modifies `hashTable
      ensures hashTable == old(hashTable)
      ensures event == if Registered(hashTable, s, kind) then Some(Events(hashTable, s)[kind]) else None
    {
      var i := SockEventsGet(s, false);
      if i == -1 || kind !in hashTable[Hash(s)][i].events {
        return None;
      }
      return Some(hashTable[Hash(s)][i].events[kind]);
    }

    method EventOrderAdd(s: int, kind: HTEventType) returns (ret: int)
      requires Valid() && 0 <= s && kind < HTEvent_TYPES
      modifies `eventOrder, `hashTable
      ensures hashTable == old(hashTable)
      ensures Valid() && ret == if Registered(hashTable, s, kind) then HT_OK else HT_ERROR
      ensures Registered(hashTable, s, kind) ==>
        Entered(old(eventOrder), s, kind, Events(hashTable, s)[kind], eventOrder)
      ensures !Registered(hashTable, s, kind) ==> eventOrder == old(eventOrder)
    {
      var event := EventFor(s, kind);
      if event == None {
        return HT_ERROR;
      }
      Enqueue(s, kind, event.value);
      QueuedRegistered(hashTable, old(eventOrder), s, kind, event.value, eventOrder);
      return HT_OK;
    }

    method CallBack(c: Call)
      requires Valid()
      modifies this
      ensures Valid()
      ensures (hashTable, eventOrder) == Done([c], old(hashTable), old(eventOrder))
    {
      match c
      case Registers(s, kind, event) => var _ := Register(s, kind, event);
      case Unregisters(s, kind) => var _ := Unregister(s, kind);
    }

    // A callback registers and unregisters as it likes.
    method Perform(calls: seq<Call>)
      requires Valid()
      modifies this
      ensures Valid()
      ensures (hashTable, eventOrder) == Done(calls, old(hashTable), old(eventOrder))
    {
      var i := 0;
      assert calls[0..] == calls;
      while i < |calls|
        invariant 0 <= i <= |calls| && Valid()
        invariant Done(calls[i..], hashTable, eventOrder) == Done(calls, old(hashTable), old(eventOrder))
      {
        assert calls[i..][1..] == calls[i + 1..];
        CallBack(calls[i]);
        i := i + 1;
      }
    }

    // Take the first entry off the queue and call its callback.
    method RunFirst(callback: Callback) returns (pres: EventOrder)
      requires Valid() && eventOrder != []
      modifies this
      ensures Valid() && pres == old(eventOrder)[0] && Registered(old(hashTable), pres.s, pres.kind)
      ensures (hashTable, eventOrder) == Done(callback.calls, old(hashTable), old(eventOrder)[1..])
    {
      pres := eventOrder[0];
      eventOrder := eventOrder[1..];
      Perform(callback.calls);
    }

    method ExecuteAndDelete(callbacks: seq<Callback>) returns (ret: int, ran: seq<EventOrder>)
      requires Valid() && |callbacks| == EVENTS_TO_EXECUTE
      modifies this
      ensures Valid()
      ensures Outcome(ret, ran, hashTable, eventOrder) == Execute(callbacks, old(hashTable), old(eventOrder))
      ensures RegisteredWhenRun(callbacks, old(hashTable), old(eventOrder))
    {
      AllRunRegistered(callbacks, hashTable, eventOrder);
      ghost var all := Execute(callbacks, hashTable, eventOrder);
      var i := 0;
      ret, ran := HT_OK, [];
      assert callbacks[0..] == callbacks;
      while eventOrder != []
        invariant 0 <= i <= EVENTS_TO_EXECUTE && Valid()
        invariant all == Before(ran, Execute(callbacks[i..], hashTable, eventOrder))
        decreases EVENTS_TO_EXECUTE - i
      {
        if i >= EVENTS_TO_EXECUTE {
          eventOrder := eventOrder[1..];
          break;
        }
        ExecuteOne(callbacks, i, hashTable, eventOrder, ran);
        var pres := RunFirst(callbacks[i]);
        ran := ran + [pres];
        if callbacks[i].ret != HT_OK {
          return callbacks[i].ret, ran;
        }
        i := i + 1;
      }
    }

    // An event that is ready, if it is.
    method AddReady(s: int, kind: HTEventType, ready: seq<set<int>>, ghost rs: seq<Ready>, ghost q: seq<EventOrder>)
      requires Valid() && 0 <= s && kind < HTEvent_TYPES && eventOrder == AllEnqueued(rs, q)
      requires |ready| == HTEvent_TYPES && ready[kind] <= fdArray[kind]
      modifies `eventOrder, `hashTable
      ensures Valid() && hashTable == old(hashTable)
      ensures eventOrder == AllEnqueued(rs + ReadyFor(hashTable, ready, s, kind), q)
    {
      if s in ready[kind] {
        assert s in fdArray[kind];
        var status := EventOrderAdd(s, kind);
        assert status == HT_OK;
        ghost var r := Ready(s, kind, Events(hashTable, s)[kind]);
        QueuedOnce(old(eventOrder), s, kind, r.event, eventOrder, Enqueued(r, old(eventOrder)));
        assert (rs + [r])[..|rs|] == rs;
      } else {
        assert rs + [] == rs;
      }
    }

    // select has left only sockets that are in the sets.
    ghost predicate Looks(ready: seq<set<int>>)
      reads this
    {
      Valid() && |ready| == HTEvent_TYPES && forall kind :: 0 <= kind < HTEvent_TYPES ==> ready[kind] <= fdArray[kind]
    }

    // The queue q with the events of the first n sockets put in.
    ghost predicate Holds(ready: seq<set<int>>, n: nat, q: seq<EventOrder>)
      requires |hashTable| == HT_M_HASH_SIZE && |ready| == HTEvent_TYPES
      reads this
    {
      eventOrder == AllEnqueued(ReadyUpTo(hashTable, ready, n), q)
    }

    method AddAllReady(s: nat, ready: seq<set<int>>, ghost q: seq<EventOrder>)
      requires Looks(ready)
      requires Holds(ready, s, q)
      modifies `eventOrder, `hashTable
      ensures Looks(ready) && hashTable == old(hashTable)
      ensures Holds(ready, s + 1, q)
    {
      ghost var rs := ReadyUpTo(hashTable, ready, s);
      AddReady(s, HTEvent_OOB, ready, rs, q);
      ghost var rs1 := rs + ReadyFor(hashTable, ready, s, HTEvent_OOB);
      AddReady(s, HTEvent_WRITE, ready, rs1, q);
      AddReady(s, HTEvent_READ, ready, rs1 + ReadyFor(hashTable, ready, s, HTEvent_WRITE), q);
    }

    method AddReadyUpTo(maxfds: int, ready: seq<set<int>>)
      requires Looks(ready)
      modifies `eventOrder, `hashTable
      ensures Looks(ready) && hashTable == old(hashTable)
      ensures Holds(ready, Turns(maxfds), old(eventOrder))
    {
      ghost var q := eventOrder;
      for s := 0 to Turns(maxfds)
        invariant Looks(ready) && hashTable == old(hashTable)
        invariant Holds(ready, s, q)
      {
        AddAllReady(s, ready, q);
      }
    }

    // One turn of the event loop, after select has found the sockets in ready: all that are ready are put in
    // their places in the queue, whatever is in it from before, and then the queue is run.
    method Round(ready: seq<set<int>>, callbacks: seq<Callback>) returns (ret: int, ran: seq<EventOrder>)
      requires |callbacks| == EVENTS_TO_EXECUTE
      requires Looks(ready)
      modifies this
      ensures Valid() && |ran| <= EVENTS_TO_EXECUTE
      ensures var rs := ReadyUpTo(old(hashTable), ready, Turns(old(maxSock)));
        Outcome(ret, ran, hashTable, eventOrder) == Execute(callbacks, old(hashTable), AllEnqueued(rs, old(eventOrder)))
      ensures Quiet(callbacks) ==> ret == HT_OK
      ensures old(eventOrder) == [] && Quiet(callbacks) ==>
        ran == First(Placed(ReadyUpTo(old(hashTable), ready, Turns(old(maxSock)))), EVENTS_TO_EXECUTE)
    {
      ghost var rs := ReadyUpTo(hashTable, ready, Turns(maxSock));
      AddReadyUpTo(maxSock, ready);
      ghost var t, q := hashTable, eventOrder;
      ret, ran := ExecuteAndDelete(callbacks);
      RunsInOrder(callbacks, t, q);
      if Quiet(callbacks) {
        QuietOnesRun(callbacks, t, q);
      }
      ReadyIsApart(t, ready, Turns(old(maxSock)));
      EmptyIsPlaced(rs);
    }
  }
}
