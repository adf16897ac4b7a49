// The persistent cache of HTCache.c in memory: the hash table of entries, the accounting of their sizes,
// locks, and the garbage collector with its two phases.
module HTCache {
  import opened CacheAge
  import opened Options

  const HT_XL_HASH_SIZE := 599
  const MEGA := 0x100000

  type Byte = b: int | 0 <= b < 256

  function HashFrom(hash: nat, url: seq<Byte>): (h: nat)
    requires hash < HT_XL_HASH_SIZE
    ensures h < HT_XL_HASH_SIZE
    decreases |url|
  {
    if url == [] then hash else HashFrom((hash * 3 + url[0]) % HT_XL_HASH_SIZE, url[1..])
  }

  class Entry {
    const hash: nat
    const url: seq<Byte>
    var range: bool
    var mustRevalidate: bool
    var hits: nat
    var size: nat
    var lm: Time
    var times: Times
    var lock: Option<nat>  // the request that holds it

    constructor (hash: nat, url: seq<Byte>)
      ensures this.hash == hash && this.url == url
      ensures size == 0 && hits == 0 && !range && !mustRevalidate && lock == None && times == Times(0, 0, 0, 0)
    {
      this.hash, this.url := hash, url;
      range, mustRevalidate, hits, size, lm, times, lock := false, false, 0, 0, 0, Times(0, 0, 0, 0), None;
    }

    predicate Stale(now: Time)
      reads this
    {
      times.lifetime < CurrentAge(times, now)
    }

    // HTCache_isFresh, as a function.
    function Verdict(now: Time, metaRead: bool, c: Control): HTReload
      reads this
    {
      if !metaRead then HT_CACHE_ERROR
      else if range then HT_CACHE_RANGE_VALIDATE
      else if mustRevalidate then HT_CACHE_VALIDATE
      else AgeVerdict(times, now, c)
    }

    method IsFresh(now: Time, metaRead: bool, c: Control) returns (r: HTReload)
      ensures r == Verdict(now, metaRead, c)
    {
      if !metaRead {
        return HT_CACHE_ERROR;
      }
      if range {
        return HT_CACHE_RANGE_VALIDATE;
      }
      if mustRevalidate {
        return HT_CACHE_VALIDATE;
      }
      return AgeVerdict(times, now, c);
    }

    method AddHit()
      modifies `hits
      ensures hits == old(hits) + 1
    {
      hits := hits + 1;
    }

    method HasLock() returns (b: bool)
      ensures b == lock.Some?
    {
      b := lock.Some?;
    }

    // Whoever holds the lock loses it.
    method GetLock(request: nat)
      modifies `lock
      ensures lock == Some(request)
    {
      lock := Some(request);
    }

    method BreakLock(request: nat) returns (b: bool)
      modifies `lock
      ensures b == (old(lock) == Some(request)) && lock == if b then None else old(lock)
    {
      b := lock == Some(request);
      if b {
        lock := None;
      }
    }

    // What HTCache_new does with an entry, unless another request has locked it.
    method Claim(request: nat, requestDate: Time, response: Response, mustRevalidate: bool, now: Time,
                 defaultExpiration: Time)
      modifies this
      ensures size == old(size) && hits == old(hits) && range == old(range)
      ensures
        if old(lock).Some? && old(lock) != Some(request) then
          lock == old(lock) && this.mustRevalidate == old(this.mustRevalidate) && lm == old(lm) && times == old(times)
        else
          lock == Some(request) && this.mustRevalidate == mustRevalidate && lm == response.lastModified
          && times == CalculateTime(now, requestDate, response, defaultExpiration)
    {
      var locked := HasLock();
      if locked {
        var broken := BreakLock(request);
        if !broken {
          return;
        }
      }
      GetLock(request);
      times := CalculateTime(now, requestDate, response, defaultExpiration);
      lm := response.lastModified;
      this.mustRevalidate := mustRevalidate;
    }

    method ReleaseLock()
      modifies `lock
      ensures lock == None
    {
      lock := None;
    }
  }

  // ---------------------------------------------------------------------------------------------
  // What the verdict means for an entry as Claim leaves it.

  // Missing metadata is an error, a partial entry asks for the rest, and any other is used exactly if it need
  // not be revalidated and its age allows it.
  lemma EntryUsedExactly(e: Entry, received: Time, requestDate: Time, r: Response, dflt: Time,
                         now: Time, metaRead: bool, c: Control)
    requires e.times == CalculateTime(received, requestDate, r, dflt) && requestDate <= received <= now
    ensures e.Verdict(now, metaRead, c) == HT_CACHE_OK
      <==> metaRead && !e.range && !e.mustRevalidate && Usable(received, requestDate, r, dflt, now, c)
    ensures e.Verdict(now, metaRead, c) == HT_CACHE_ERROR <==> !metaRead
    ensures e.Verdict(now, metaRead, c) == HT_CACHE_RANGE_VALIDATE <==> metaRead && e.range
    ensures e.Verdict(now, metaRead, c) != HT_CACHE_FLUSH
  {
    UsedExactly(received, requestDate, r, dflt, now, c);
  }

  // As long as the entry stays as it is, no later request of the same kind gets a better answer; and one
  // that is good under min-fresh is good without it for so long.
  lemma VerdictsOverTime(e: Entry, now: Time, later: Time, metaRead: bool, c: Control)
    requires now <= later
    ensures e.Verdict(now, metaRead, c) != HT_CACHE_OK ==> e.Verdict(later, metaRead, c) == e.Verdict(now, metaRead, c)
    ensures e.Verdict(later, metaRead, c) == HT_CACHE_OK ==> e.Verdict(now, metaRead, c) == HT_CACHE_OK
    ensures e.Verdict(now, metaRead, c) == HT_CACHE_OK && c.maxAge < 0 && later < now + c.minFresh
      ==> e.Verdict(later, metaRead, c.(minFresh := -1)) == HT_CACHE_OK
  {
    if AgeVerdict(e.times, now, c) == HT_CACHE_VALIDATE {
      ValidationIsForGood(e.times, c, now, later);
    } else if c.maxAge < 0 && later < now + c.minFresh {
      MinFreshLasts(e.times, c, now, later);
    }
  }

  // ---------------------------------------------------------------------------------------------
  // Sums

  function Sum(s: seq<nat>): nat {
    if s == [] then 0 else s[0] + Sum(s[1..])
  }

  lemma {:induction false} SumPut(s: seq<nat>, k: nat, x: nat)
    requires k < |s|
    ensures Sum(s[k := x]) == Sum(s) - s[k] + x
  {
    if k == 0 {
      assert s[0 := x][1..] == s[1..];
    } else {
      SumPut(s[1..], k - 1, x);
      assert s[k := x][1..] == s[1..][k - 1 := x];
    }
  }

  function Without<T>(s: seq<T>, k: nat): (r: seq<T>)
    requires k < |s|
    ensures |r| == |s| - 1
    ensures forall i :: 0 <= i < |r| ==> r[i] == (if i < k then s[i] else s[i + 1])
  {
    s[..k] + s[k + 1..]
  }

  lemma {:induction false} SumWithout(s: seq<nat>, k: nat)
    requires k < |s|
    ensures Sum(Without(s, k)) == Sum(s) - s[k]
  {
    if k == 0 {
      assert Without(s, 0) == s[1..];
    } else {
      SumWithout(s[1..], k - 1);
      assert Without(s, k)[1..] == Without(s[1..], k - 1);
    }
  }

  function With<T>(s: seq<T>, k: nat, x: T): seq<T>
    requires k <= |s|
  {
    s[..k] + [x] + s[k..]
  }

  // The entries of all have gone one by one, which leaves those left in their order.
  ghost predicate Split(all: seq<Entry>, left: seq<Entry>, gone: seq<Entry>)
    decreases |gone|
  {
    if gone == [] then left == all
    else exists k {:trigger With(left, k, gone[|gone| - 1])} ::
      0 <= k <= |left| && Split(all, With(left, k, gone[|gone| - 1]), gone[..|gone| - 1])
  }

  lemma SplitOne(all: seq<Entry>, left: seq<Entry>, gone: seq<Entry>, k: nat)
    requires Split(all, left, gone) && k < |left|
    ensures Split(all, Without(left, k), gone + [left[k]])
  {
    var more := gone + [left[k]];
    assert With(Without(left, k), k, left[k]) == left;
    assert more[..|more| - 1] == gone && more[|more| - 1] == left[k];
  }

  lemma {:induction false} SplitIsPartition(all: seq<Entry>, left: seq<Entry>, gone: seq<Entry>)
    requires Split(all, left, gone)
    ensures multiset(left) + multiset(gone) == multiset(all) && |left| + |gone| == |all|
    decreases |gone|
  {
    if gone != [] {
      var n := |gone| - 1;
      var k :| 0 <= k <= |left| && Split(all, With(left, k, gone[n]), gone[..n]);
      SplitIsPartition(all, With(left, k, gone[n]), gone[..n]);
      assert left == left[..k] + left[k..] && gone == gone[..n] + [gone[n]];
    }
  }

  ghost function Sizes(es: seq<Entry>): (s: seq<nat>)
    reads es
    ensures |s| == |es| && forall i :: 0 <= i < |es| ==> s[i] == es[i].size
  {
    if es == [] then [] else [es[0].size] + Sizes(es[1..])
  }

  // ---------------------------------------------------------------------------------------------
  // The table

  type Table = seq<seq<Entry>>

  // Its entries, in the order in which the buckets are walked.
  ghost function Flat(t: Table): seq<Entry> {
    if t == [] then [] else t[0] + Flat(t[1..])
  }

  lemma {:induction false} FlatAllocated(t: Table)
    ensures forall p :: 0 <= p < |Flat(t)| ==> allocated(Flat(t)[p])
  {
    if t != [] {
      FlatAllocated(t[1..]);
    }
  }

  // Where the entry i of bucket v is in this order.
  ghost function Place(t: Table, v: nat, i: nat): (p: nat)
    requires v < |t| && i < |t[v]|
    ensures p < |Flat(t)| && Flat(t)[p] == t[v][i]
    decreases |t|
  {
    if v == 0 then i else |t[0]| + Place(t[1..], v - 1, i)
  }

  lemma {:induction false} FlatHas(t: Table, p: nat) returns (v: nat, i: nat)
    requires p < |Flat(t)|
    ensures v < |t| && i < |t[v]| && Place(t, v, i) == p
  {
    if p < |t[0]| {
      v, i := 0, p;
    } else {
      v, i := FlatHas(t[1..], p - |t[0]|);
      v := v + 1;
    }
  }

  lemma {:induction false} FlatWithout(t: Table, v: nat, i: nat)
    requires v < |t| && i < |t[v]|
    ensures Flat(t[v := Without(t[v], i)]) == Without(Flat(t), Place(t, v, i))
  {
    var u := t[v := Without(t[v], i)];
    if v == 0 {
      assert u[1..] == t[1..];
    } else {
      FlatWithout(t[1..], v - 1, i);
      assert u[1..] == t[1..][v - 1 := Without(t[v], i)];
    }
  }

  // Each URL occurs at most once, in the bucket that its hash names.
  ghost predicate GoodBucket(b: seq<Entry>, v: nat) {
    && (forall i :: 0 <= i < |b| ==> b[i].hash == v == HashFrom(0, b[i].url))
    && (forall i, j :: 0 <= i < j < |b| ==> b[i].url != b[j].url)
  }

  ghost predicate GoodTable(t: Table) {
    |t| == HT_XL_HASH_SIZE && forall v :: 0 <= v < |t| ==> GoodBucket(t[v], v)
  }

  lemma UrlsDiffer(t: Table, p: nat, q: nat)
    requires GoodTable(t) && p < |Flat(t)| && q < |Flat(t)| && p != q
    ensures Flat(t)[p].url != Flat(t)[q].url
  {
    var v, i := FlatHas(t, p);
    var w, j := FlatHas(t, q);
    assert GoodBucket(t[v], v) && GoodBucket(t[w], w);
    assert v == w ==> i != j;
  }

  lemma GoodWithout(t: Table, v: nat, i: nat)
    requires GoodTable(t) && v < |t| && i < |t[v]|
    ensures GoodTable(t[v := Without(t[v], i)])
  {
    assert GoodBucket(t[v], v);
    assert GoodBucket(Without(t[v], i), v);
  }

  lemma SizeWithout(t: Table, v: nat, i: nat)
    requires v < |t| && i < |t[v]|
    ensures Sum(Sizes(Flat(t[v := Without(t[v], i)]))) == Sum(Sizes(Flat(t))) - t[v][i].size
  {
    var p := Place(t, v, i);
    FlatWithout(t, v, i);
    assert Sizes(Without(Flat(t), p)) == Without(Sizes(Flat(t)), p);
    SumWithout(Sizes(Flat(t)), p);
  }

  lemma WithOn<T>(a: seq<T>, b: seq<T>, k: nat, x: T)
    requires k <= |b|
    ensures a + With(b, k, x) == With(a + b, |a| + k, x)
  {
    assert (a + b)[..|a| + k] == a + b[..k];
    assert (a + b)[|a| + k..] == b[k..];
  }

  lemma WithBefore<T>(a: seq<T>, b: seq<T>, k: nat, x: T)
    requires k <= |a|
    ensures With(a, k, x) + b == With(a + b, k, x)
  {
    assert (a + b)[..k] == a[..k];
    assert (a + b)[k..] == a[k..] + b;
  }

  lemma {:induction false} FlatWith(t: Table, v: nat, k: nat, x: Entry) returns (p: nat)
    requires v < |t| && k <= |t[v]|
    ensures p <= |Flat(t)| && Flat(t[v := With(t[v], k, x)]) == With(Flat(t), p, x)
  {
    var u := t[v := With(t[v], k, x)];
    if v == 0 {
      p := k;
      assert u[1..] == t[1..];
      WithBefore(t[0], Flat(t[1..]), k, x);
    } else {
      p := FlatWith(t[1..], v - 1, k, x);
      assert u[1..] == t[1..][v - 1 := With(t[v], k, x)];
      WithOn(t[0], Flat(t[1..]), p, x);
      p := p + |t[0]|;
    }
  }

  lemma {:induction false} FlatSplit(t: Table, v: nat, left: seq<Entry>, gone: seq<Entry>)
    requires v < |t| && Split(t[v], left, gone)
    ensures Split(Flat(t), Flat(t[v := left]), gone)
    decreases |gone|
  {
    if gone == [] {
      assert t[v := left] == t;
    } else {
      var x, rest := gone[|gone| - 1], gone[..|gone| - 1];
      var k :| 0 <= k <= |left| && Split(t[v], With(left, k, x), rest);
      FlatSplit(t, v, With(left, k, x), rest);
      var p := FlatWith(t[v := left], v, k, x);
      assert t[v := left][v := With(left, k, x)] == t[v := With(left, k, x)];
    }
  }

  lemma {:induction false} SplitTwice(all: seq<Entry>, mid: seq<Entry>, left: seq<Entry>, gone: seq<Entry>, more: seq<Entry>)
    requires Split(all, mid, gone) && Split(mid, left, more)
    ensures Split(all, left, gone + more)
    decreases |more|
  {
    if more == [] {
      assert gone + more == gone;
    } else {
      var x, rest := more[|more| - 1], more[..|more| - 1];
      var k :| 0 <= k <= |left| && Split(mid, With(left, k, x), rest);
      SplitTwice(all, mid, With(left, k, x), gone, rest);
      var g := gone + more;
      assert g[..|g| - 1] == gone + rest && g[|g| - 1] == x && g != [];
      assert Split(all, With(left, k, g[|g| - 1]), g[..|g| - 1]);
      assert Split(all, left, g);
    }
  }

  // What the garbage collector looks for: entries that are stale, and then entries that are too big or have
  // not been hit more often than this.
  datatype Selector = StaleAt(now: Time) | LeastUsed(hits: nat, maxEntrySize: int)

  predicate Selected(what: Selector, e: Entry)
    reads e
  {
    match what
    case StaleAt(now) => e.Stale(now)
    case LeastUsed(hits, maxEntrySize) => e.size > maxEntrySize || e.hits <= hits
  }

  // None of the first n entries could go.
  ghost predicate CleanTo(what: Selector, es: seq<Entry>, n: nat)
    requires n <= |es|
    reads es
  {
    forall i :: 0 <= i < n ==> es[i].lock.Some? || !Selected(what, es[i])
  }

  ghost predicate Clean(what: Selector, es: seq<Entry>)
    reads es
  {
    CleanTo(what, es, |es|)
  }

  ghost predicate Removable(what: Selector, es: seq<Entry>)
    reads es
  {
    forall i :: 0 <= i < |es| ==> es[i].lock == None && Selected(what, es[i])
  }

  lemma CleanTable(what: Selector, t: Table)
    requires forall v :: 0 <= v < |t| ==> Clean(what, t[v])
    ensures Clean(what, Flat(t))
  {
    forall p | 0 <= p < |Flat(t)|
      ensures Flat(t)[p].lock.Some? || !Selected(what, Flat(t)[p])
    {
      var v, i := FlatHas(t, p);
      assert Clean(what, t[v]);
    }
  }

  // e is the first of its bucket.
  predicate IsFirst(t: Table, e: Entry) {
    e.hash < |t| && t[e.hash] != [] && t[e.hash][0] == e
  }

  // The content falls from `before` to `after` as the entries of log go, and every one of them was the first
  // of its bucket or went while the content was not below the limit.
  ghost predicate ForRoom(t: Table, before: int, after: int, log: seq<Entry>, limit: int)
    reads log
    decreases |log|
  {
    if log == [] then before == after
    else
      && (IsFirst(t, log[0]) || before >= limit)
      && ForRoom(t, before - log[0].size, after, log[1..], limit)
  }

  lemma {:induction false} ForRoomOn(t: Table, before: int, between: int, after: int, log: seq<Entry>, more: seq<Entry>,
                                     limit: int)
    requires ForRoom(t, before, between, log, limit) && ForRoom(t, between, after, more, limit)
    ensures ForRoom(t, before, after, log + more, limit)
    decreases |log|
  {
    if log == [] {
      assert log + more == more;
    } else {
      ForRoomOn(t, before - log[0].size, between, after, log[1..], more, limit);
      assert (log + more)[1..] == log[1..] + more;
    }
  }

  lemma ForRoomOne(t: Table, before: int, between: int, log: seq<Entry>, e: Entry, limit: int)
    requires ForRoom(t, before, between, log, limit) && (IsFirst(t, e) || between >= limit)
    ensures ForRoom(t, before, between - e.size, log + [e], limit)
  {
    ForRoomOn(t, before, between, between - e.size, log, [e], limit);
  }

  lemma BucketForRoom(t: Table, u: Table, v: nat, left: seq<Entry>, before: int, between: int, after: int,
                      log: seq<Entry>, more: seq<Entry>, limit: int)
    requires v < |t| == |u| && t[v] == u[v] && Split(u[v], left, more) && GoodBucket(u[v], v)
    requires ForRoom(t, before, between, log, limit) && ForRoom(u, between, after, more, limit)
    ensures ForRoom(t, before, after, log + more, limit)
  {
    GoneFrom(u[v], left, more, v);
    FirstThere(u, t, v, between, after, more, limit);
    ForRoomOn(t, before, between, after, log, more, limit);
  }

  // Said at once: what each entry found when it went.
  lemma {:induction false} WentForRoom(t: Table, before: int, after: int, log: seq<Entry>, limit: int, i: nat)
    requires ForRoom(t, before, after, log, limit) && i < |log|
    ensures IsFirst(t, log[i]) || before - Sum(Sizes(log[..i])) >= limit
    ensures after == before - Sum(Sizes(log))
    decreases |log|
  {
    var next := before - log[0].size;
    if i > 0 {
      WentForRoom(t, next, after, log[1..], limit, i - 1);
      assert log[1..][i - 1] == log[i] && log[..i][1..] == log[1..][..i - 1];
    } else if |log| > 1 {
      WentForRoom(t, next, after, log[1..], limit, 0);
    }
  }

  lemma RemovableOne(what: Selector, es: seq<Entry>, e: Entry)
    requires Removable(what, es) && e.lock == None && Selected(what, e)
    ensures Removable(what, es + [e])
  {
  }

  lemma {:induction false} FirstThere(t: Table, u: Table, v: nat, before: int, after: int, log: seq<Entry>, limit: int)
    requires ForRoom(t, before, after, log, limit) && v < |t| == |u| && t[v] == u[v]
    requires forall i :: 0 <= i < |log| ==> log[i].hash == v
    ensures ForRoom(u, before, after, log, limit)
    decreases |log|
  {
    if log != [] {
      FirstThere(t, u, v, before - log[0].size, after, log[1..], limit);
    }
  }

  lemma GoneFrom(b: seq<Entry>, left: seq<Entry>, gone: seq<Entry>, v: nat)
    requires Split(b, left, gone) && GoodBucket(b, v)
    ensures forall i :: 0 <= i < |gone| ==> gone[i].hash == v
  {
    forall i | 0 <= i < |gone|
      ensures gone[i].hash == v
    {
      SplitHas(b, left, gone, gone[i]);
    }
  }

  // The order in which the second phase lets entries go: when one goes for its few hits, no unlocked one
  // with fewer hits is left, nor goes later.
  ghost predicate HitOrder(log: seq<Entry>, left: seq<Entry>, maxEntrySize: int)
    reads log, left
  {
    && (forall i, j :: 0 <= i < j < |log| && log[i].size <= maxEntrySize ==> log[i].hits <= log[j].hits)
    && (forall i, j :: 0 <= i < |log| && 0 <= j < |left| && log[i].size <= maxEntrySize && left[j].lock == None ==>
          log[i].hits <= left[j].hits)
  }

  ghost predicate Unlocked(es: seq<Entry>)
    reads es
  {
    forall i :: 0 <= i < |es| ==> es[i].lock == None
  }

  // All that are left unlocked have at least so many hits, and after the first sweep none is too big.
  ghost predicate AtLeast(left: seq<Entry>, hits: nat, maxEntrySize: int)
    reads left
  {
    forall j :: 0 <= j < |left| && left[j].lock == None ==>
      left[j].hits >= hits && (hits > 0 ==> left[j].size <= maxEntrySize)
  }

  ghost predicate AtMost(log: seq<Entry>, hits: nat, maxEntrySize: int)
    reads log
  {
    forall i :: 0 <= i < |log| && log[i].size <= maxEntrySize ==> log[i].hits <= hits
  }

  ghost predicate InOrder(log: seq<Entry>, left: seq<Entry>, hits: nat, maxEntrySize: int)
    reads log, left
  {
    Unlocked(log) && HitOrder(log, left, maxEntrySize) && AtMost(log, hits, maxEntrySize)
  }

  lemma SplitHas(all: seq<Entry>, left: seq<Entry>, gone: seq<Entry>, e: Entry)
    requires Split(all, left, gone)
    ensures e in all <==> e in left || e in gone
  {
    SplitIsPartition(all, left, gone);
    assert e in all <==> e in multiset(all);
  }

  // One sweep goes on with the order.
  lemma SweepKeepsOrder(all: seq<Entry>, left: seq<Entry>, log: seq<Entry>, more: seq<Entry>, hits: nat, max: int)
    requires Split(all, left, more) && Removable(LeastUsed(hits, max), more)
    requires InOrder(log, all, hits, max) && AtLeast(all, hits, max)
    ensures InOrder(log + more, left, hits, max) && |left| + |more| == |all|
  {
    SplitIsPartition(all, left, more);
    forall j | 0 <= j < |left|
      ensures left[j] in all
    {
      SplitHas(all, left, more, left[j]);
    }
    forall j | 0 <= j < |more|
      ensures more[j] in all
    {
      SplitHas(all, left, more, more[j]);
    }
  }

  // What the sweeps for fewer than h hits let go.
  predicate Evictable(e: Entry, h: nat, maxEntrySize: int)
    reads e
  {
    e.lock == None && h > 0 && (e.size > maxEntrySize || e.hits < h)
  }

  ghost predicate AllEvictable(es: seq<Entry>, h: nat, maxEntrySize: int)
    reads es
  {
    forall i :: 0 <= i < |es| ==> Evictable(es[i], h, maxEntrySize)
  }

  // The size of the others.
  ghost function Kept(es: seq<Entry>, h: nat, maxEntrySize: int): nat
    reads es
  {
    if es == [] then 0
    else (if Evictable(es[0], h, maxEntrySize) then 0 else es[0].size) + Kept(es[1..], h, maxEntrySize)
  }

  // The sweep for g hits finds nothing that the sweeps before it would not have let go.
  ghost predicate Gap(es: seq<Entry>, g: nat, maxEntrySize: int)
    reads es
  {
    forall i :: 0 <= i < |es| && Evictable(es[i], g + 1, maxEntrySize) ==> Evictable(es[i], g, maxEntrySize)
  }

  ghost function MaxHits(es: seq<Entry>): (m: nat)
    reads es
    ensures forall i :: 0 <= i < |es| ==> es[i].hits <= m
  {
    if es == [] then 0 else Max(es[0].hits, MaxHits(es[1..]))
  }

  // The first number of hits, from h on, that no unlocked entry has; and 0 only if none is too big either.
  ghost function GapFrom(es: seq<Entry>, h: nat, maxEntrySize: int): (g: nat)
    reads es
    ensures h <= g && Gap(es, g, maxEntrySize)
    ensures forall k :: h <= k < g ==> !Gap(es, k, maxEntrySize)
    decreases MaxHits(es) + 1 - h
  {
    if h > MaxHits(es) || Gap(es, h, maxEntrySize) then h else GapFrom(es, h + 1, maxEntrySize)
  }

  ghost function FirstGap(es: seq<Entry>, maxEntrySize: int): nat
    reads es
  {
    GapFrom(es, 0, maxEntrySize)
  }

  // Every sweep for fewer hits finds something.
  ghost predicate NoGap(es: seq<Entry>, h: nat, maxEntrySize: int)
    reads es
  {
    forall k :: 0 <= k < h ==> !Gap(es, k, maxEntrySize)
  }

  lemma {:induction false} SplitKept(all: seq<Entry>, left: seq<Entry>, gone: seq<Entry>, h: nat, max: int)
    requires Split(all, left, gone)
    ensures Kept(all, h, max) == Kept(left, h, max) + Kept(gone, h, max)
    decreases |gone|
  {
    if gone != [] {
      var n := |gone| - 1;
      var x := gone[n];
      var size := if Evictable(x, h, max) then 0 else x.size;
      var k :| 0 <= k <= |left| && Split(all, With(left, k, x), gone[..n]);
      SplitKept(all, With(left, k, x), gone[..n], h, max);
      KeptWith(left, k, x, h, max);
      KeptWith(gone[..n], n, x, h, max);
      assert gone == With(gone[..n], n, x);
    }
  }

  lemma {:induction false} KeptWith(es: seq<Entry>, k: nat, x: Entry, h: nat, max: int)
    requires k <= |es|
    ensures Kept(With(es, k, x), h, max) == Kept(es, h, max) + if Evictable(x, h, max) then 0 else x.size
  {
    if k == 0 {
      assert With(es, 0, x)[1..] == es;
    } else {
      KeptWith(es[1..], k - 1, x, h, max);
      assert With(es, k, x)[1..] == With(es[1..], k - 1, x);
    }
  }

  lemma {:induction false} KeptBounds(es: seq<Entry>, h: nat, max: int)
    ensures Kept(es, h, max) <= Sum(Sizes(es))
    ensures AllEvictable(es, h, max) ==> Kept(es, h, max) == 0
    ensures AtLeast(es, h, max) ==> Kept(es, h, max) == Sum(Sizes(es))
  {
    if es != [] {
      KeptBounds(es[1..], h, max);
    }
  }

  // How much is left when everything the first h sweeps have let go is gone; and it is as much as that if
  // the sweeps were finished.
  lemma LeftOver(all: seq<Entry>, left: seq<Entry>, log: seq<Entry>, h: nat, max: int)
    requires Split(all, left, log) && AllEvictable(log, h, max)
    ensures Kept(all, h, max) <= Sum(Sizes(left))
    ensures AtLeast(left, h, max) ==> Kept(all, h, max) == Sum(Sizes(left))
  {
    SplitKept(all, left, log, h, max);
    KeptBounds(left, h, max);
    KeptBounds(log, h, max);
  }

  lemma SweptMore(left: seq<Entry>, log: seq<Entry>, h: nat, max: int)
    requires InOrder(log, left, h, max)
    ensures InOrder(log, left, h + 1, max)
    ensures Clean(LeastUsed(h, max), left) ==> AtLeast(left, h + 1, max)
  {
  }

  // A sweep that finds something: no gap.
  lemma SweepFinds(all: seq<Entry>, mid: seq<Entry>, left: seq<Entry>, log: seq<Entry>, more: seq<Entry>, h: nat, max: int)
    requires Split(all, mid, log) && AllEvictable(log, h, max) && AtLeast(mid, h, max)
    requires Split(mid, left, more) && Removable(LeastUsed(h, max), more)
    ensures AllEvictable(log + more, h + 1, max)
    ensures more != [] ==> !Gap(all, h, max) && !AllEvictable(log + more, h, max)
  {
    if more != [] {
      SplitHas(mid, left, more, more[0]);
      SplitHas(all, mid, log, more[0]);
      assert !Evictable((log + more)[|log|], h, max);
    }
  }

  lemma MoreEvictable(log: seq<Entry>, h: nat, g: nat, max: int)
    requires AllEvictable(log, h, max) && h <= g
    ensures AllEvictable(log, g, max)
  {
  }

  lemma SweepEnds(all: seq<Entry>, left: seq<Entry>, log: seq<Entry>, h: nat, max: int)
    requires Split(all, left, log) && AllEvictable(log, h, max) && Clean(LeastUsed(h, max), left)
    ensures Gap(all, h, max)
  {
    forall i | 0 <= i < |all| && Evictable(all[i], h + 1, max)
      ensures Evictable(all[i], h, max)
    {
      SplitHas(all, left, log, all[i]);
    }
  }

  lemma WithFirst<T>(s: seq<T>, k: nat, x: T)
    requires 0 < k <= |s|
    ensures With(s, k, x)[0] == s[0] && With(s, k, x)[1..] == With(s[1..], k - 1, x)
  {
  }

  lemma {:induction false} SizesWith(es: seq<Entry>, p: nat, x: Entry)
    requires p <= |es|
    ensures Sum(Sizes(With(es, p, x))) == Sum(Sizes(es)) + x.size
  {
    var more := With(es, p, x);
    if p == 0 {
      assert more[1..] == es;
    } else {
      WithFirst(es, p, x);
      SizesWith(es[1..], p - 1, x);
    }
    assert Sizes(more)[1..] == Sizes(more[1..]);
  }

  lemma SizeWith(t: Table, v: nat, k: nat, x: Entry)
    requires v < |t| && k <= |t[v]|
    ensures Sum(Sizes(Flat(t[v := With(t[v], k, x)]))) == Sum(Sizes(Flat(t))) + x.size
  {
    var p := FlatWith(t, v, k, x);
    SizesWith(Flat(t), p, x);
  }

  lemma GoodWith(t: Table, e: Entry)
    requires GoodTable(t) && e.hash == HashFrom(0, e.url)
    requires forall i :: 0 <= i < |t[e.hash]| ==> t[e.hash][i].url != e.url
    ensures GoodTable(t[e.hash := With(t[e.hash], 0, e)])
  {
    assert GoodBucket(t[e.hash], e.hash);
    assert GoodBucket(With(t[e.hash], 0, e), e.hash);
  }

  // An entry in the table is where its hash says, and nowhere else.
  lemma InItsBucket(t: Table, e: Entry) returns (p: nat)
    requires GoodTable(t) && e in Flat(t)
    ensures e.hash == HashFrom(0, e.url) && e in t[e.hash] && p < |Flat(t)| && Flat(t)[p] == e
    ensures forall q :: 0 <= q < |Flat(t)| && q != p ==> Flat(t)[q].url != e.url
  {
    p :| 0 <= p < |Flat(t)| && Flat(t)[p] == e;
    var v, i := FlatHas(t, p);
    assert GoodBucket(t[v], v);
    forall q | 0 <= q < |Flat(t)| && q != p
      ensures Flat(t)[q].url != e.url
    {
      UrlsDiffer(t, p, q);
    }
  }

  // What a lookup of a URL should give.
  ghost predicate Maps(t: Table, url: seq<Byte>, e: Entry?) {
    if e == null then forall p :: 0 <= p < |Flat(t)| ==> Flat(t)[p].url != url
    else e in Flat(t) && e.url == url
  }

  lemma MapsBucket(t: Table, url: seq<Byte>, e: Entry?)
    requires GoodTable(t)
    requires var b := t[HashFrom(0, url)];
      if e == null then forall i :: 0 <= i < |b| ==> b[i].url != url else e in b && e.url == url
    ensures Maps(t, url, e)
  {
    var h := HashFrom(0, url);
    if e == null {
      forall p | 0 <= p < |Flat(t)|
        ensures Flat(t)[p].url != url
      {
        var v, i := FlatHas(t, p);
        assert GoodBucket(t[v], v);
      }
    } else {
      var i :| 0 <= i < |t[h]| && t[h][i] == e;
      assert Flat(t)[Place(t, h, i)] == e;
    }
  }

  // And it is a map: there is one answer.
  lemma MapsOnce(t: Table, url: seq<Byte>, e: Entry?, f: Entry?)
    requires GoodTable(t) && Maps(t, url, e) && Maps(t, url, f)
    ensures e == f
  {
    if e != null {
      var p := InItsBucket(t, e);
    }
  }

  // The cache as a map from URLs to entries.
  ghost function AsMap(es: seq<Entry>): map<seq<Byte>, Entry> {
    if es == [] then map[] else AsMap(es[1..])[es[0].url := es[0]]
  }

  ghost function Index(t: Table): map<seq<Byte>, Entry> {
    AsMap(Flat(t))
  }

  lemma {:induction false} AsMapHas(es: seq<Entry>, url: seq<Byte>)
    ensures url in AsMap(es) ==> AsMap(es)[url] in es && AsMap(es)[url].url == url
    ensures url !in AsMap(es) ==> forall p :: 0 <= p < |es| ==> es[p].url != url
  {
    if es != [] {
      AsMapHas(es[1..], url);
    }
  }

  ghost function Answer(t: Table, url: seq<Byte>): Entry? {
    if url in Index(t) then Index(t)[url] else null
  }

  // A lookup by walking the buckets is a lookup in the map.
  lemma MapsIsIndex(t: Table, url: seq<Byte>, e: Entry?)
    requires GoodTable(t)
    ensures Maps(t, url, e) <==> e == Answer(t, url)
  {
    AsMapHas(Flat(t), url);
    if Maps(t, url, e) && url in Index(t) {
      MapsOnce(t, url, e, Index(t)[url]);
    }
  }

  lemma WithHas<T>(s: seq<T>, k: nat, y: T, x: T)
    requires k <= |s|
    ensures x in With(s, k, y) <==> x in s || x == y
  {
    assert s == s[..k] + s[k..];
  }

  lemma WithoutHas<T>(s: seq<T>, k: nat, x: T)
    requires k < |s| && forall q :: 0 <= q < |s| && q != k ==> s[q] != s[k]
    ensures x in Without(s, k) <==> x in s && x != s[k]
  {
    if x in s && x != s[k] {
      var q :| 0 <= q < |s| && s[q] == x;
      assert Without(s, k)[if q < k then q else q - 1] == x;
    }
  }

  lemma IndexWith(t: Table, u: Table, e: Entry, p: nat)
    requires GoodTable(t) && GoodTable(u) && Maps(t, e.url, null)
    requires p <= |Flat(t)| && Flat(u) == With(Flat(t), p, e)
    ensures Index(u) == Index(t)[e.url := e]
  {
    forall url
      ensures url in Index(u) <==> url in Index(t) || url == e.url
      ensures url in Index(u) ==> Index(u)[url] == if url == e.url then e else Index(t)[url]
    {
      var was, now := Answer(t, url), Answer(u, url);
      MapsIsIndex(t, url, was);
      MapsIsIndex(u, url, now);
      MapsIsIndex(u, url, if url == e.url then e else was);
      WithHas(Flat(t), p, e, was);
      WithHas(Flat(t), p, e, now);
      WithHas(Flat(t), p, e, e);
    }
  }

  lemma IndexWithout(t: Table, u: Table, p: nat)
    requires GoodTable(t) && GoodTable(u) && p < |Flat(t)| && Flat(u) == Without(Flat(t), p)
    ensures Index(u) == Index(t) - {Flat(t)[p].url}
  {
    var e := Flat(t)[p];
    forall q | 0 <= q < |Flat(t)| && q != p
      ensures Flat(t)[q] != e
    {
      UrlsDiffer(t, p, q);
    }
    forall url
      ensures url in Index(u) <==> url in Index(t) && url != e.url
      ensures url in Index(u) ==> Index(u)[url] == Index(t)[url]
    {
      var was, now := Answer(t, url), Answer(u, url);
      MapsIsIndex(t, url, was);
      MapsIsIndex(u, url, now);
      MapsIsIndex(t, url, e);
      if was != null {
        WithoutHas(Flat(t), p, was);
        MapsIsIndex(u, url, was);
      }
      if now != null {
        WithoutHas(Flat(t), p, now);
        MapsIsIndex(t, url, now);
      }
    }
  }

  lemma RemovedFromIndex(t: Table, v: nat, i: nat)
    requires GoodTable(t) && v < |t| && i < |t[v]| && GoodTable(t[v := Without(t[v], i)])
    ensures Index(t[v := Without(t[v], i)]) == Index(t) - {t[v][i].url}
  {
    FlatWithout(t, v, i);
    IndexWithout(t, t[v := Without(t[v], i)], Place(t, v, i));
  }

  lemma AddedToIndex(t: Table, e: Entry)
    requires GoodTable(t) && e.hash < |t| && GoodTable(t[e.hash := With(t[e.hash], 0, e)]) && Maps(t, e.url, null)
    ensures Index(t[e.hash := With(t[e.hash], 0, e)]) == Index(t)[e.url := e]
  {
    var p := FlatWith(t, e.hash, 0, e);
    IndexWith(t, t[e.hash := With(t[e.hash], 0, e)], e, p);
  }

  // Fewer entries: a smaller map.
  ghost predicate Within(m: map<seq<Byte>, Entry>, n: map<seq<Byte>, Entry>) {
    forall url :: url in m ==> url in n && m[url] == n[url]
  }

  lemma IndexWithin(t: Table, u: Table)
    requires GoodTable(t) && GoodTable(u) && forall x :: x in Flat(u) ==> x in Flat(t)
    ensures Within(Index(u), Index(t))
  {
    forall url | url in Index(u)
      ensures url in Index(t) && Index(u)[url] == Index(t)[url]
    {
      AsMapHas(Flat(u), url);
      AsMapHas(Flat(t), url);
      MapsOnce(t, url, Index(u)[url], Index(t)[url]);
    }
  }

  // The size the cache has for a URL.
  ghost function SizeOf(t: Table, url: seq<Byte>): nat
    reads Flat(t)
  {
    AsMapHas(Flat(t), url);
    if url in Index(t) then Index(t)[url].size else 0
  }

  ghost function HitsOf(t: Table, url: seq<Byte>): nat
    reads Flat(t)
  {
    AsMapHas(Flat(t), url);
    if url in Index(t) then Index(t)[url].hits else 0
  }

  // The cache has an entry for the URL that is not locked.
  ghost predicate Free(t: Table, url: seq<Byte>)
    reads Flat(t)
  {
    AsMapHas(Flat(t), url);
    url in Index(t) && Index(t)[url].lock == None
  }

  // What the rest of the library does with the cache.
  datatype Operation =
    | Load(url: seq<Byte>, request: nat, requestDate: Time, response: Response, mustRevalidate: bool, now: Time)
    | Store(url: seq<Byte>, written: nat, abort: bool, now: Time)
    | Hit(url: seq<Byte>)
    | Release(url: seq<Byte>)
    | Drop(url: seq<Byte>)
    | Collect(now: Time)
    | Empty

  // What an operation may do to the map.
  ghost predicate Effect(op: Operation, m: map<seq<Byte>, Entry>, n: map<seq<Byte>, Entry>) {
    match op
    case Load(url, _, _, _, _, _) => url in n && n == m[url := n[url]] && (url in m ==> n == m)
    case Hit(_) => n == m
    case Release(_) => n == m
    case Drop(url) => n == m || n == m - {url}
    case Store(_, _, _, _) => Within(n, m)
    case Collect(_) => Within(n, m)
    case Empty => n == map[]
  }

  // The operation is about another URL, and does not collect.
  predicate Spares(op: Operation, url: seq<Byte>) {
    match op
    case Load(u, _, _, _, _, _) => u != url
    case Hit(_) => true
    case Release(_) => true
    case Drop(u) => u != url
    case _ => false
  }

  class Cache {
    var cacheTable: Table
    var contentSize: int
    var totalSize: int
    var folderSize: int
    var gcBuffer: int
    var maxEntrySize: int
    var enabled: bool

    ghost predicate Valid()
      reads this
    {
      GoodTable(cacheTable) && gcBuffer >= 0
    }

    // By how much HTCacheContentSize is off.
    ghost function Drift(): int
      reads this, Flat(cacheTable)
    {
      contentSize - Sum(Sizes(Flat(cacheTable)))
    }

    predicate StopGC()
      reads this
    {
      contentSize + folderSize < totalSize - gcBuffer
    }

    // What the content has to get below.
    function Limit(): int
      reads `folderSize, `totalSize, `gcBuffer
    {
      totalSize - gcBuffer - folderSize
    }

    predicate StartGC()
      reads this
    {
      contentSize + folderSize > totalSize
    }

    constructor ()
      ensures Valid() && Drift() == 0 && Flat(cacheTable) == [] && contentSize == 0 && !enabled
      ensures totalSize == 20 * MEGA && folderSize == gcBuffer == totalSize / 10 && maxEntrySize == 3 * MEGA
    {
      cacheTable := seq(HT_XL_HASH_SIZE, _ => []);
      contentSize := 0;
      totalSize, folderSize, gcBuffer := 20 * MEGA, 20 * MEGA / 10, 20 * MEGA / 10;
      maxEntrySize, enabled := 3 * MEGA, false;
      new;
      EmptyIsFlat(cacheTable);
    }

    // HTCache_remove: nothing happens to a locked entry.
    method Remove(e: Entry) returns (b: bool, ghost at: nat)
      requires Valid() && e.hash < HT_XL_HASH_SIZE && e in cacheTable[e.hash]
      modifies `cacheTable, `contentSize
      ensures Valid() && b == (e.lock == None)
      ensures at < |old(cacheTable)[e.hash]| && old(cacheTable)[e.hash][at] == e
      ensures cacheTable ==
        if b then old(cacheTable)[e.hash := Without(old(cacheTable)[e.hash], at)] else old(cacheTable)
      ensures contentSize == old(contentSize) - if b then e.size else 0
      ensures Drift() == old(Drift())
      ensures Index(cacheTable) == if b then old(Index(cacheTable)) - {e.url} else old(Index(cacheTable))
    {
      var v := e.hash;
      var i := 0;
      while cacheTable[v][i] != e
        invariant i < |cacheTable[v]| && e in cacheTable[v][i..]
        decreases |cacheTable[v]| - i
      {
        i := i + 1;
      }
      at := i;
      if e.lock.Some? {
        return false, at;
      }
      ghost var t := cacheTable;
      cacheTable := cacheTable[v := Without(cacheTable[v], i)];
      contentSize := contentSize - e.size;
      GoodWithout(t, v, i);
      SizeWithout(t, v, i);
      RemovedFromIndex(t, v, i);
      return true, at;
    }

    // One entry of the inner loop: it goes if it may.
    method Visit(cnt: nat, cur: nat, what: Selector) returns (gone: bool)
      requires Valid() && cnt < HT_XL_HASH_SIZE && cur < |cacheTable[cnt]|
      modifies `cacheTable, `contentSize
      ensures Valid() && Drift() == old(Drift()) && contentSize <= old(contentSize)
      ensures gone == (old(cacheTable[cnt][cur]).lock == None && Selected(what, old(cacheTable[cnt][cur])))
      ensures cacheTable ==
        if gone then old(cacheTable)[cnt := Without(old(cacheTable)[cnt], cur)] else old(cacheTable)
      ensures contentSize == old(contentSize) - if gone then old(cacheTable[cnt][cur]).size else 0
    {
      var pres := cacheTable[cnt][cur];
      assert GoodBucket(cacheTable[cnt], cnt);
      gone := false;
      if Selected(what, pres) {
        ghost var at;
        gone, at := Remove(pres);
        assert at == cur;
      }
    }

    // What the inner loop keeps: the bucket t has been split, by entries that could go, and none of the
    // first cur that are left could.
    ghost predicate Walked(cnt: nat, what: Selector, t: Table, cur: nat, left: seq<Entry>, log: seq<Entry>)
      reads this, left, log
    {
      && cnt < |t| && cacheTable == t[cnt := left] && Split(t[cnt], left, log)
      && Removable(what, log) && cur <= |left| && CleanTo(what, left, cur)
    }

    method Once(cnt: nat, what: Selector, cur: nat, ghost t: Table, ghost left: seq<Entry>, ghost log: seq<Entry>)
      returns (gone: bool, ghost left': seq<Entry>, ghost log': seq<Entry>)
      requires Valid() && cnt < HT_XL_HASH_SIZE && Walked(cnt, what, t, cur, left, log) && cur < |left|
      modifies `cacheTable, `contentSize
      ensures Valid() && Drift() == old(Drift()) && contentSize <= old(contentSize)
      ensures Walked(cnt, what, t, if gone then cur else cur + 1, left', log')
      ensures contentSize == old(contentSize) - if gone then left[cur].size else 0
      ensures if gone then |left'| == |left| - 1 && log' == log + [left[cur]] else left' == left && log' == log
    {
      gone := Visit(cnt, cur, what);
      left', log' := left, log;
      if gone {
        SplitOne(t[cnt], left, log, cur);
        RemovableOne(what, log, left[cur]);
        left', log' := Without(left, cur), log + [left[cur]];
      }
    }

    // The same, and what it is for.
    method OnceForRoom(cnt: nat, what: Selector, cur: nat, ghost t: Table, ghost left: seq<Entry>, ghost log: seq<Entry>,
                       ghost before: int)
      returns (gone: bool, ghost left': seq<Entry>, ghost log': seq<Entry>)
      requires Valid() && cnt < HT_XL_HASH_SIZE && Walked(cnt, what, t, cur, left, log) && cur < |left|
      requires ForRoom(t, before, contentSize, log, Limit())
      requires IsFirst(t, left[cur]) || !StopGC()
      modifies `cacheTable, `contentSize
      ensures Valid() && Drift() == old(Drift()) && contentSize <= old(contentSize)
      ensures Walked(cnt, what, t, if gone then cur else cur + 1, left', log')
      ensures ForRoom(t, before, contentSize, log', Limit())
      ensures if gone then |left'| == |left| - 1 && log' == log + [left[cur]] else left' == left && log' == log
    {
      ForRoomOne(t, before, contentSize, log, left[cur], Limit());
      gone, left', log' := Once(cnt, what, cur, t, left, log);
    }

    // The inner loop of both phases of the garbage collector.
    method WalkBucket(cnt: nat, what: Selector) returns (removed: bool, ghost left: seq<Entry>, ghost log: seq<Entry>)
      requires Valid() && cnt < HT_XL_HASH_SIZE
      modifies `cacheTable, `contentSize
      ensures Valid() && Drift() == old(Drift()) && contentSize <= old(contentSize)
      ensures cacheTable == old(cacheTable)[cnt := left]
      ensures Split(old(cacheTable)[cnt], left, log)
      ensures removed == (log != []) && Removable(what, log)
      ensures StopGC() || Clean(what, left)
      ensures ForRoom(old(cacheTable), old(contentSize), contentSize, log, Limit())
    {
      ghost var t := cacheTable;
      removed, left, log := false, cacheTable[cnt], [];
      var cur := 0;
      ghost var first := true;
      while cur < |cacheTable[cnt]|
        invariant Valid() && Drift() == old(Drift()) && contentSize <= old(contentSize)
        invariant Walked(cnt, what, t, cur, left, log) && removed == (log != [])
        invariant first ==> cur == 0 && left == t[cnt] && log == []
        invariant !first ==> !StopGC()
        invariant ForRoom(t, old(contentSize), contentSize, log, Limit())
        decreases |left| - cur
      {
        var gone;
        assert IsFirst(t, left[cur]) || !StopGC() by {
          assert GoodBucket(cacheTable[cnt], cnt);
        }
        gone, left, log := OnceForRoom(cnt, what, cur, t, left, log, old(contentSize));
        first := false;
        if gone {
          removed := true;
        } else {
          cur := cur + 1;
        }
        if StopGC() {
          break;
        }
      }
    }

    // The same with the entries that have gone from the buckets before it.
    method WalkOn(cnt: nat, what: Selector, ghost t: Table, ghost before: int, ghost log: seq<Entry>)
      returns (any: bool, ghost left: seq<Entry>, ghost more: seq<Entry>)
      requires Valid() && cnt < HT_XL_HASH_SIZE && |t| == HT_XL_HASH_SIZE && t[cnt] == cacheTable[cnt]
      requires ForRoom(t, before, contentSize, log, Limit())
      modifies `cacheTable, `contentSize
      ensures Valid() && Drift() == old(Drift()) && contentSize <= old(contentSize)
      ensures cacheTable == old(cacheTable)[cnt := left]
      ensures Split(old(cacheTable)[cnt], left, more)
      ensures any == (more != []) && Removable(what, more)
      ensures StopGC() || Clean(what, left)
      ensures ForRoom(t, before, contentSize, log + more, Limit())
    {
      any, left, more := WalkBucket(cnt, what);
      BucketForRoom(t, old(cacheTable), cnt, left, before, old(contentSize), contentSize, log, more, Limit());
    }

    // The next of the buckets, after cnt of them.
    method WalkNext(cnt: nat, what: Selector, ghost t: Table, ghost before: int, ghost log: seq<Entry>)
      returns (any: bool, ghost log': seq<Entry>)
      requires Valid() && cnt < HT_XL_HASH_SIZE
      requires Split(Flat(t), Flat(cacheTable), log) && Removable(what, log)
      requires StopGC() || forall v :: 0 <= v < cnt ==> Clean(what, cacheTable[v])
      requires ForRoom(t, before, contentSize, log, Limit())
      requires |t| == HT_XL_HASH_SIZE && forall v :: cnt <= v < |t| ==> cacheTable[v] == t[v]
      modifies `cacheTable, `contentSize
      ensures Valid() && Drift() == old(Drift()) && contentSize <= old(contentSize)
      ensures Split(Flat(t), Flat(cacheTable), log') && Removable(what, log') && (log' != [] <==> log != [] || any)
      ensures StopGC() || forall v :: 0 <= v < cnt + 1 ==> Clean(what, cacheTable[v])
      ensures ForRoom(t, before, contentSize, log', Limit())
      ensures forall v :: cnt + 1 <= v < |t| ==> cacheTable[v] == t[v]
    {
      ghost var left, more;
      any, left, more := WalkOn(cnt, what, t, before, log);
      log' := log + more;
      FlatSplit(old(cacheTable), cnt, left, more);
      SplitTwice(Flat(t), Flat(old(cacheTable)), Flat(cacheTable), log, more);
    }

    // All the buckets, in either phase.
    method Walk(what: Selector) returns (removed: bool, ghost log: seq<Entry>)
      requires Valid()
      modifies `cacheTable, `contentSize
      ensures Valid() && Drift() == old(Drift()) && contentSize <= old(contentSize)
      ensures Split(Flat(old(cacheTable)), Flat(cacheTable), log)
      ensures removed == (log != []) && Removable(what, log)
      ensures StopGC() || Clean(what, Flat(cacheTable))
      ensures ForRoom(old(cacheTable), old(contentSize), contentSize, log, Limit())
    {
      removed, log := false, [];
      for cnt := 0 to HT_XL_HASH_SIZE
        invariant Valid() && Drift() == old(Drift()) && contentSize <= old(contentSize)
        invariant Split(Flat(old(cacheTable)), Flat(cacheTable), log) && Removable(what, log) && removed == (log != [])
        invariant StopGC() || forall v :: 0 <= v < cnt ==> Clean(what, cacheTable[v])
        invariant ForRoom(old(cacheTable), old(contentSize), contentSize, log, Limit())
        invariant forall v :: cnt <= v < HT_XL_HASH_SIZE ==> cacheTable[v] == old(cacheTable)[v]
      {
        var any;
        any, log := WalkNext(cnt, what, old(cacheTable), old(contentSize), log);
        removed := removed || any;
      }
      if !StopGC() {
        CleanTable(what, cacheTable);
      }
    }

    // Too much would be left if all that the first h sweeps let go were gone.
    ghost predicate Over(all: seq<Entry>, drift: int, h: nat)
      reads `folderSize, `totalSize, `maxEntrySize, all
    {
      drift + Kept(all, h, maxEntrySize) + folderSize > totalSize
    }

    // One sweep of the second phase.
    method Sweep(h: nat, ghost all: seq<Entry>, ghost log: seq<Entry>) returns (removed: bool, ghost log': seq<Entry>)
      requires Valid() && StartGC() && Split(all, Flat(cacheTable), log)
      requires InOrder(log, Flat(cacheTable), h, maxEntrySize) && AtLeast(Flat(cacheTable), h, maxEntrySize)
      requires AllEvictable(log, h, maxEntrySize)
      modifies `cacheTable, `contentSize
      ensures Valid() && Drift() == old(Drift()) && contentSize <= old(contentSize)
      ensures Split(all, Flat(cacheTable), log') && InOrder(log', Flat(cacheTable), h, maxEntrySize)
      ensures StartGC() ==> Clean(LeastUsed(h, maxEntrySize), Flat(cacheTable))
      ensures |Flat(cacheTable)| <= old(|Flat(cacheTable)|) - if removed then 1 else 0
      ensures if removed then
                && AllEvictable(log', h + 1, maxEntrySize) && !AllEvictable(log', h, maxEntrySize)
                && !Gap(all, h, maxEntrySize)
              else log' == log && StartGC()
    {
      FlatAllocated(cacheTable);
      ghost var mid := Flat(cacheTable);
      ghost var more;
      removed, more := Walk(LeastUsed(h, maxEntrySize));
      log' := log + more;
      SplitTwice(all, mid, Flat(cacheTable), log, more);
      assert InOrder(log, mid, h, maxEntrySize) && AtLeast(mid, h, maxEntrySize);
      SweepKeepsOrder(mid, Flat(cacheTable), log, more, h, maxEntrySize);
      SweepFinds(all, mid, Flat(cacheTable), log, more, h, maxEntrySize);
    }

    // What h sweeps that found something have made of the entries.
    ghost predicate Swept(all: seq<Entry>, drift: int, h: nat, log: seq<Entry>)
      reads this, log, Flat(cacheTable)
    {
      && Valid() && Drift() == drift && Split(all, Flat(cacheTable), log)
      && InOrder(log, Flat(cacheTable), h, maxEntrySize)
      && (StartGC() ==> AtLeast(Flat(cacheTable), h, maxEntrySize))
      && AllEvictable(log, h, maxEntrySize) && (h > 0 ==> !AllEvictable(log, h - 1, maxEntrySize))
    }

    method SweepOn(h: nat, ghost all: seq<Entry>, ghost drift: int, ghost log: seq<Entry>)
      returns (removed: bool, ghost log': seq<Entry>)
      requires Swept(all, drift, h, log) && StartGC()
      modifies `cacheTable, `contentSize
      ensures contentSize <= old(contentSize) && Swept(all, drift, if removed then h + 1 else h, log')
      ensures if removed then |Flat(cacheTable)| < old(|Flat(cacheTable)|) && !Gap(all, h, maxEntrySize)
              else log' == log && StartGC() && Clean(LeastUsed(h, maxEntrySize), Flat(cacheTable))
    {
      FlatAllocated(cacheTable);
      removed, log' := Sweep(h, all, log);
      SweptMore(Flat(cacheTable), log', h, maxEntrySize);
    }

    ghost predicate SweptTo(all: seq<Entry>, drift: int, h: nat, log: seq<Entry>)
      reads this, all, log, Flat(cacheTable)
    {
      Swept(all, drift, h, log) && NoGap(all, h, maxEntrySize)
    }

    method SweepTo(h: nat, ghost all: seq<Entry>, ghost drift: int, ghost log: seq<Entry>)
      returns (removed: bool, ghost log': seq<Entry>)
      requires SweptTo(all, drift, h, log) && StartGC()
      modifies `cacheTable, `contentSize
      ensures contentSize <= old(contentSize) && SweptTo(all, drift, if removed then h + 1 else h, log')
      ensures if removed then |Flat(cacheTable)| < old(|Flat(cacheTable)|)
              else log' == log && StartGC() && Clean(LeastUsed(h, maxEntrySize), Flat(cacheTable))
    {
      removed, log' := SweepOn(h, all, drift, log);
    }

    // Whether there is room in the end, from what there was in the beginning.
    lemma Verdict(all: seq<Entry>, drift: int, h: nat, log: seq<Entry>)
      requires SweptTo(all, drift, h, log)
      requires StartGC() ==> Clean(LeastUsed(h, maxEntrySize), Flat(cacheTable))
      ensures h <= FirstGap(all, maxEntrySize) && (StartGC() ==> h == FirstGap(all, maxEntrySize))
      ensures StartGC() <==> Over(all, drift, FirstGap(all, maxEntrySize))
    {
      var g := FirstGap(all, maxEntrySize);
      assert Gap(all, g, maxEntrySize);
      if StartGC() {
        SweepEnds(all, Flat(cacheTable), log, h, maxEntrySize);
      }
      MoreEvictable(log, h, g, maxEntrySize);
      LeftOver(all, Flat(cacheTable), log, g, maxEntrySize);
    }

    // The second phase: sweep after sweep, for entries with no hits, one hit, two, until there is room or a
    // sweep has found nothing.  `hits` sweeps find something, none of them for the first number of hits with
    // a gap.  It ends above the limit exactly if what is left after all the sweeps before that is too much.
    method CollectLeastUsed() returns (ghost hits: nat, ghost log: seq<Entry>)
      requires Valid()
      modifies `cacheTable, `contentSize
      ensures contentSize <= old(contentSize) && Swept(Flat(old(cacheTable)), old(Drift()), hits, log)
      ensures !old(StartGC()) ==> log == []
      ensures hits <= FirstGap(Flat(old(cacheTable)), maxEntrySize)
      ensures StartGC() ==>
        hits == FirstGap(Flat(old(cacheTable)), maxEntrySize) && Clean(LeastUsed(hits, maxEntrySize), Flat(cacheTable))
      ensures StartGC() <==> Over(Flat(old(cacheTable)), old(Drift()), FirstGap(Flat(old(cacheTable)), maxEntrySize))
    {
      var h := 0;
      hits, log := 0, [];
      FlatAllocated(cacheTable);
      ghost var all, drift := Flat(cacheTable), Drift();
      while StartGC()
        invariant hits == h && SweptTo(all, drift, h, log) && contentSize <= old(contentSize)
        invariant !old(StartGC()) ==> log == []
        decreases |Flat(cacheTable)|
      {
        var removed;
        removed, log := SweepTo(h, all, drift, log);
        if !removed {
          break;
        }
        h := h + 1;
        hits := h;
      }
      Verdict(all, drift, hits, log);
    }

    // The first phase.
    method CollectStale(now: Time) returns (ghost mid: seq<Entry>, ghost stale: seq<Entry>)
      requires Valid()
      modifies `cacheTable, `contentSize
      ensures Valid() && Drift() == old(Drift()) && contentSize <= old(contentSize)
      ensures mid == Flat(cacheTable) && Split(Flat(old(cacheTable)), mid, stale)
      ensures Removable(StaleAt(now), stale) && (StopGC() || Clean(StaleAt(now), mid))
      ensures Clean(StaleAt(now), Flat(old(cacheTable))) ==> mid == Flat(old(cacheTable))
    {
      var any;
      FlatAllocated(cacheTable);
      any, stale := Walk(StaleAt(now));
      mid := Flat(cacheTable);
      NothingStale(now, Flat(old(cacheTable)), mid, stale);
    }

    // What a collection makes of the entries: the stale ones go first, which leaves `mid`, and of the others
    // those with the fewest hits.  It ends above the limit exactly if there is a gap in the hits that comes
    // too early.
    ghost predicate Collected(all: seq<Entry>, drift: int, now: Time,
                              stale: seq<Entry>, mid: seq<Entry>, hits: nat, evicted: seq<Entry>)
      reads this, all, stale, mid, evicted, Flat(cacheTable)
    {
      && Split(all, mid, stale) && Split(mid, Flat(cacheTable), evicted)
      && Removable(StaleAt(now), stale) && Unlocked(evicted) && AllEvictable(evicted, hits, maxEntrySize)
      && (contentSize + folderSize < totalSize - gcBuffer || Clean(StaleAt(now), Flat(cacheTable)))
      && HitOrder(evicted, Flat(cacheTable), maxEntrySize)
      && hits <= FirstGap(mid, maxEntrySize)
      && (contentSize + folderSize > totalSize ==>
            hits == FirstGap(mid, maxEntrySize) && Clean(LeastUsed(hits, maxEntrySize), Flat(cacheTable)))
      && (contentSize + folderSize > totalSize <==> Over(mid, drift, FirstGap(mid, maxEntrySize)))
      && (Clean(StaleAt(now), all) ==> mid == all)
    }

    // HTCacheGarbage
    method Garbage(now: Time)
      returns (ghost stale: seq<Entry>, ghost mid: seq<Entry>, ghost hits: nat, ghost evicted: seq<Entry>)
      requires Valid()
      modifies `cacheTable, `contentSize
      ensures Valid() && Drift() == old(Drift()) && contentSize <= old(contentSize)
      ensures Collected(Flat(old(cacheTable)), old(Drift()), now, stale, mid, hits, evicted)
    {
      FlatAllocated(cacheTable);
      mid, stale := CollectStale(now);
      FlatAllocated(cacheTable);
      hits, evicted := CollectLeastUsed();
      SplitKeepsClean(StaleAt(now), mid, Flat(cacheTable), evicted);
    }

    method Hash(url: seq<Byte>) returns (hash: nat)
      ensures hash == HashFrom(0, url)
    {
      hash := 0;
      var i := 0;
      assert url[0..] == url;
      while i < |url|
        invariant i <= |url| && hash < HT_XL_HASH_SIZE && HashFrom(hash, url[i..]) == HashFrom(0, url)
      {
        assert url[i..][1..] == url[i + 1..];
        hash := (hash * 3 + url[i]) % HT_XL_HASH_SIZE;
        i := i + 1;
      }
    }

    method Search(hash: nat, url: seq<Byte>) returns (e: Entry?)
      requires Valid() && hash == HashFrom(0, url)
      ensures Maps(cacheTable, url, e)
      ensures e == null ==> forall i :: 0 <= i < |cacheTable[hash]| ==> cacheTable[hash][i].url != url
      ensures e != null ==> e in cacheTable[hash] && e.hash == hash
    {
      assert GoodBucket(cacheTable[hash], hash);
      var i := 0;
      e := null;
      while i < |cacheTable[hash]|
        invariant i <= |cacheTable[hash]| && e == null
        invariant forall k :: 0 <= k < i ==> cacheTable[hash][k].url != url
      {
        if cacheTable[hash][i].url == url {
          e := cacheTable[hash][i];
          break;
        }
        i := i + 1;
      }
      MapsBucket(cacheTable, url, e);
    }

    method Find(url: seq<Byte>) returns (e: Entry?)
      requires Valid()
      ensures e == if enabled then Answer(cacheTable, url) else null
    {
      if !enabled {
        return null;
      }
      var hash := Hash(url);
      e := Search(hash, url);
      MapsIsIndex(cacheTable, url, e);
    }

    method Insert(hash: nat, url: seq<Byte>) returns (e: Entry)
      requires Valid() && hash == HashFrom(0, url)
      requires forall i :: 0 <= i < |cacheTable[hash]| ==> cacheTable[hash][i].url != url
      modifies `cacheTable
      ensures Valid() && Drift() == old(Drift())
      ensures fresh(e) && e.url == url && e.hash == hash && e.lock == None && e.size == 0 && e.hits == 0
      ensures cacheTable == old(cacheTable)[hash := With(old(cacheTable)[hash], 0, e)]
    {
      ghost var t := cacheTable;
      FlatAllocated(t);
      ghost var total := Sum(Sizes(Flat(t)));
      e := new Entry(hash, url);
      assert Sum(Sizes(Flat(t))) == total;
      cacheTable := cacheTable[hash := [e] + cacheTable[hash]];
      assert [e] + t[hash] == With(t[hash], 0, e);
      GoodWith(t, e);
      SizeWith(t, hash, 0, e);
    }

    // The entry for a URL, which is made if it is not there.
    method Obtain(url: seq<Byte>) returns (e: Entry, isNew: bool)
      requires Valid()
      modifies `cacheTable
      ensures Valid() && Drift() == old(Drift()) && e.url == url && e.hash == HashFrom(0, url)
      ensures !isNew ==> Maps(old(cacheTable), url, e) && cacheTable == old(cacheTable)
      ensures isNew ==> Maps(old(cacheTable), url, null) && fresh(e) && e.lock == None && e.size == 0 && e.hits == 0
      ensures isNew ==> cacheTable == old(cacheTable)[e.hash := With(old(cacheTable[HashFrom(0, url)]), 0, e)]
      ensures Maps(cacheTable, url, e) && e.size == old(SizeOf(cacheTable, url))
      ensures Index(cacheTable) == old(Index(cacheTable))[url := e] && (isNew <==> url !in old(Index(cacheTable)))
    {
      FlatAllocated(cacheTable);
      var hash := Hash(url);
      var pres := Search(hash, url);
      MapsIsIndex(cacheTable, url, pres);
      if pres != null {
        return pres, false;
      }
      e := Insert(hash, url);
      isNew := true;
      AddedToIndex(old(cacheTable), e);
      assert cacheTable[e.hash][0] == e;
      MapsBucket(cacheTable, url, e);
    }

    // HTCache_new.  An entry that another request has locked is returned as it is; no other is touched.
    method New(request: nat, requestDate: Time, response: Response, mustRevalidate: bool, now: Time,
               defaultExpiration: Time, url: seq<Byte>) returns (e: Entry, isNew: bool)
      requires Valid()
      modifies `cacheTable, set x: Entry | x in Flat(cacheTable) && x.url == url
      ensures Valid() && Drift() == old(Drift()) && e.url == url && e.hash == HashFrom(0, url)
      ensures !isNew ==> Maps(old(cacheTable), url, e) && cacheTable == old(cacheTable)
      ensures isNew ==> Maps(old(cacheTable), url, null) && fresh(e) && e.lock == Some(request) && e.size == 0
      ensures Maps(cacheTable, url, e) && e.size == old(SizeOf(cacheTable, url))
      ensures Index(cacheTable) == old(Index(cacheTable))[url := e] && (isNew <==> url !in old(Index(cacheTable)))
      ensures isNew ==> cacheTable == old(cacheTable)[e.hash := With(old(cacheTable[HashFrom(0, url)]), 0, e)]
      ensures e.lock == Some(request) ==>
        && e.mustRevalidate == mustRevalidate && e.lm == response.lastModified
        && e.times == CalculateTime(now, requestDate, response, defaultExpiration)
    {
      FlatAllocated(cacheTable);
      e, isNew := Obtain(url);
      FlatAllocated(cacheTable);
      ghost var sizes := Sizes(Flat(cacheTable));
      e.Claim(request, requestDate, response, mustRevalidate, now, defaultExpiration);
      assert Sizes(Flat(cacheTable)) == sizes;
    }

    // The accounting of HTCache_setSize.  The old size is taken off unless the entry has been appended to,
    // and then the total goes wrong by it.
    method Resize(e: Entry, written: nat, append: bool)
      requires Valid() && e in Flat(cacheTable)
      modifies e`size, `contentSize
      ensures Drift() == old(Drift()) + if append then old(e.size) else 0
      ensures e.size == written
      ensures contentSize == old(contentSize) - (if append then 0 else old(e.size)) + written
    {
      FlatAllocated(cacheTable);
      ghost var p := InItsBucket(cacheTable, e);
      ghost var sizes := Sizes(Flat(cacheTable));
      if e.size > 0 && !append {
        contentSize := contentSize - e.size;
      }
      e.size := written;
      contentSize := contentSize + written;
      SumPut(sizes, p, written);
      assert Sizes(Flat(cacheTable)) == sizes[p := written];
    }

    // A cache that is full with the new size is collected, and any other is left alone.
    method SetSize(e: Entry, written: nat, append: bool, now: Time)
      returns (ghost stale: seq<Entry>, ghost mid: seq<Entry>, ghost hits: nat, ghost evicted: seq<Entry>)
      requires Valid() && e in Flat(cacheTable)
      modifies e`size, `cacheTable, `contentSize
      ensures Valid() && Drift() == old(Drift()) + if append then old(e.size) else 0
      ensures e.size == written
      ensures forall x :: x in Flat(cacheTable) ==> x in Flat(old(cacheTable))
      ensures var content := old(contentSize) - (if append then 0 else old(e.size)) + written;
        if content + folderSize > totalSize then
          Collected(Flat(old(cacheTable)), Drift(), now, stale, mid, hits, evicted)
        else
          cacheTable == old(cacheTable) && contentSize == content
    {
      Resize(e, written, append);
      stale, mid, hits, evicted := CollectIfFull(now);
    }

    method CollectIfFull(now: Time)
      returns (ghost stale: seq<Entry>, ghost mid: seq<Entry>, ghost hits: nat, ghost evicted: seq<Entry>)
      requires Valid()
      modifies `cacheTable, `contentSize
      ensures Valid() && Drift() == old(Drift())
      ensures forall x :: x in Flat(cacheTable) ==> x in Flat(old(cacheTable))
      ensures if old(StartGC()) then
          Collected(Flat(old(cacheTable)), Drift(), now, stale, mid, hits, evicted)
        else
          cacheTable == old(cacheTable) && contentSize == old(contentSize)
    {
      stale, mid, hits, evicted := [], [], 0, [];
      var start := StartGC();
      if start {
        FlatAllocated(cacheTable);
        stale, mid, hits, evicted := Garbage(now);
        SplitWithin(Flat(old(cacheTable)), mid, stale);
        SplitWithin(mid, Flat(cacheTable), evicted);
      }
    }

    // HTCache_touch: what is known of the size is forgotten, but not in the total.
    method Touch(request: nat, requestDate: Time, response: Response, mustRevalidate: bool, now: Time,
                 defaultExpiration: Time, url: seq<Byte>) returns (e: Entry)
      requires Valid()
      modifies `cacheTable, set x: Entry | x in Flat(cacheTable) && x.url == url
      ensures Valid() && Drift() == old(Drift()) + old(SizeOf(cacheTable, url)) && e.size == 0 && e.range
      ensures Index(cacheTable) == old(Index(cacheTable))[url := e]
    {
      var isNew;
      e, isNew := New(request, requestDate, response, mustRevalidate, now, defaultExpiration, url);
      FlatAllocated(cacheTable);
      ghost var p := InItsBucket(cacheTable, e);
      ghost var sizes := Sizes(Flat(cacheTable));
      e.size := 0;
      e.range := true;
      SumPut(sizes, p, 0);
      assert Sizes(Flat(cacheTable)) == sizes[p := 0];
    }

    // HTCache_deleteAll and, what is in memory being concerned, HTCache_flushAll.
    method DeleteAll()
      requires Valid()
      modifies `cacheTable, `contentSize
      ensures Valid() && contentSize == 0 && Flat(cacheTable) == [] && Index(cacheTable) == map[] && Drift() == 0
    {
      for cnt := 0 to HT_XL_HASH_SIZE
        invariant |cacheTable| == HT_XL_HASH_SIZE && forall v :: 0 <= v < cnt ==> cacheTable[v] == []
      {
        cacheTable := cacheTable[cnt := []];
      }
      contentSize := 0;
      EmptyIsFlat(cacheTable);
    }

    // Every entry is one that was there, or is new.
    twostate predicate Descends()
      reads this
    {
      forall e :: e in Flat(cacheTable) ==> e in Flat(old(cacheTable)) || fresh(e)
    }

    // free_stream: the writer has done, and gives up the lock.
    method StoreFor(url: seq<Byte>, written: nat, abort: bool, now: Time)
      returns (ghost stale: seq<Entry>, ghost mid: seq<Entry>, ghost hits: nat, ghost evicted: seq<Entry>)
      requires Valid()
      modifies `cacheTable, `contentSize, set x: Entry | x in Flat(cacheTable) && x.url == url
      ensures Valid() && Drift() == old(Drift()) && Descends() && Within(Index(cacheTable), old(Index(cacheTable)))
      ensures Answer(old(cacheTable), url) != null ==>
        var e := Answer(old(cacheTable), url); e.lock == None && e.range == abort && e.size == written
      ensures url in old(Index(cacheTable)) ==>
        var content := old(contentSize) - old(SizeOf(cacheTable, url)) + written;
        if content + folderSize > totalSize then
          Collected(Flat(old(cacheTable)), Drift(), now, stale, mid, hits, evicted)
        else
          cacheTable == old(cacheTable) && contentSize == content
      ensures url !in old(Index(cacheTable)) ==> cacheTable == old(cacheTable) && contentSize == old(contentSize)
    {
      FlatAllocated(cacheTable);
      stale, mid, hits, evicted := [], [], 0, [];
      ghost var t, sizes := cacheTable, Sizes(Flat(cacheTable));
      var hash := Hash(url);
      var e := Search(hash, url);
      MapsIsIndex(cacheTable, url, e);
      if e != null {
        e.ReleaseLock();
        e.range := abort;
        assert Sizes(Flat(cacheTable)) == sizes;
        stale, mid, hits, evicted := SetSize(e, written, false, now);
        IndexWithin(t, cacheTable);
      }
    }

    method HitFor(url: seq<Byte>)
      requires Valid()
      modifies (set x: Entry | x in Flat(cacheTable) && x.url == url)`hits
      ensures Valid() && Drift() == old(Drift()) && Descends()
      ensures url in Index(cacheTable) ==> HitsOf(cacheTable, url) == old(HitsOf(cacheTable, url)) + 1
    {
      FlatAllocated(cacheTable);
      ghost var sizes := Sizes(Flat(cacheTable));
      var hash := Hash(url);
      var e := Search(hash, url);
      MapsIsIndex(cacheTable, url, e);
      if e != null {
        e.AddHit();
        assert Sizes(Flat(cacheTable)) == sizes;
      }
    }

    method ReleaseFor(url: seq<Byte>)
      requires Valid()
      modifies (set x: Entry | x in Flat(cacheTable) && x.url == url)`lock
      ensures Valid() && Drift() == old(Drift()) && Descends()
      ensures url in Index(cacheTable) ==> Free(cacheTable, url)
    {
      FlatAllocated(cacheTable);
      ghost var sizes := Sizes(Flat(cacheTable));
      var hash := Hash(url);
      var e := Search(hash, url);
      MapsIsIndex(cacheTable, url, e);
      if e != null {
        e.ReleaseLock();
        assert Sizes(Flat(cacheTable)) == sizes;
      }
    }

    method RemoveFor(url: seq<Byte>)
      requires Valid()
      modifies `cacheTable, `contentSize
      ensures Valid() && Drift() == old(Drift()) && Descends()
      ensures Index(cacheTable) ==
        if old(Free(cacheTable, url)) then old(Index(cacheTable)) - {url} else old(Index(cacheTable))
      ensures contentSize == old(contentSize) - if old(Free(cacheTable, url)) then old(SizeOf(cacheTable, url)) else 0
    {
      FlatAllocated(cacheTable);
      var hash := Hash(url);
      var e := Search(hash, url);
      MapsIsIndex(cacheTable, url, e);
      if e != null {
        assert Free(cacheTable, url) <==> e.lock == None;
        ghost var at;
        var b;
        b, at := Remove(e);
        WithoutWithin(old(cacheTable), hash, at);
      }
    }

    method CollectNow(now: Time)
      requires Valid()
      modifies `cacheTable, `contentSize
      ensures Valid() && Drift() == old(Drift()) && Descends() && Within(Index(cacheTable), old(Index(cacheTable)))
    {
      FlatAllocated(cacheTable);
      ghost var stale, mid, hits, evicted;
      stale, mid, hits, evicted := Garbage(now);
      SplitWithin(Flat(old(cacheTable)), mid, stale);
      SplitWithin(mid, Flat(cacheTable), evicted);
      IndexWithin(old(cacheTable), cacheTable);
    }

    method LoadFor(url: seq<Byte>, request: nat, requestDate: Time, response: Response, mustRevalidate: bool, now: Time)
      requires Valid()
      modifies this, Flat(cacheTable)
      ensures Valid() && Drift() == old(Drift()) && Descends()
      ensures url in Index(cacheTable) && Index(cacheTable) == old(Index(cacheTable))[url := Index(cacheTable)[url]]
      ensures url in old(Index(cacheTable)) ==> Index(cacheTable) == old(Index(cacheTable))
    {
      FlatAllocated(cacheTable);
      var e, isNew := New(request, requestDate, response, mustRevalidate, now, 24 * 3600, url);
      if isNew {
        var p := FlatWith(old(cacheTable), e.hash, 0, e);
      }
    }

    method Perform(op: Operation)
      requires Valid()
      modifies this, Flat(cacheTable)
      ensures Valid() && (Drift() == old(Drift()) || Drift() == 0) && Descends()
      ensures Effect(op, old(Index(cacheTable)), Index(cacheTable))
      ensures op.Drop? && old(Free(cacheTable, op.url)) ==> op.url !in Index(cacheTable)
      ensures op.Hit? && op.url in Index(cacheTable) ==>
        HitsOf(cacheTable, op.url) == old(HitsOf(cacheTable, op.url)) + 1
      ensures op.Release? && op.url in Index(cacheTable) ==> Free(cacheTable, op.url)
    {
      FlatAllocated(cacheTable);
      match op
      case Load(url, request, requestDate, response, mustRevalidate, now) =>
        LoadFor(url, request, requestDate, response, mustRevalidate, now);
      case Store(url, written, abort, now) =>
        ghost var stale, mid, hits, evicted;
        stale, mid, hits, evicted := StoreFor(url, written, abort, now);
      case Hit(url) => HitFor(url);
      case Release(url) => ReleaseFor(url);
      case Drop(url) => RemoveFor(url);
      case Collect(now) => CollectNow(now);
      case Empty => DeleteAll();
    }

    // Over any run in which nothing is appended, the total stays right, and a URL keeps its entry, or its
    // lack of one, as long as nothing is done to it and nothing is collected.
    method Run(ops: seq<Operation>)
      requires Valid() && Drift() == 0
      modifies this, Flat(cacheTable)
      ensures Valid() && Drift() == 0
      ensures forall url :: (forall k :: 0 <= k < |ops| ==> Spares(ops[k], url)) ==>
        Answer(cacheTable, url) == Answer(old(cacheTable), url)
    {
      FlatAllocated(cacheTable);
      for i := 0 to |ops|
        invariant Valid() && Drift() == 0 && Descends()
        invariant forall url :: (forall k :: 0 <= k < i ==> Spares(ops[k], url)) ==>
          Answer(cacheTable, url) == Answer(old(cacheTable), url)
      {
        FlatAllocated(cacheTable);
        assert forall p :: 0 <= p < |Flat(cacheTable)| ==>
            Flat(cacheTable)[p] in Flat(old(cacheTable)) || fresh(Flat(cacheTable)[p]);
        Perform(ops[i]);
      }
    }
  }

  // Every entry has been hit, and none is stale or too big.
  ghost predicate AllUsed(es: seq<Entry>, now: Time, maxEntrySize: int)
    reads es
  {
    forall i :: 0 <= i < |es| ==> !es[i].Stale(now) && es[i].hits > 0 && es[i].size <= maxEntrySize
  }

  // The collector takes nothing then, however full the cache is, for the sweep for entries without hits finds
  // none and is the last.
  method NothingGoes(c: Cache, now: Time)
    requires c.Valid() && AllUsed(Flat(c.cacheTable), now, c.maxEntrySize)
    modifies c`cacheTable, c`contentSize
    ensures c.Valid() && Flat(c.cacheTable) == old(Flat(c.cacheTable)) && c.Drift() == old(c.Drift())
  {
    ghost var es, stale, mid, hits, evicted := Flat(c.cacheTable), [], [], 0, [];
    FlatAllocated(c.cacheTable);
    stale, mid, hits, evicted := c.Garbage(now);
    NoneFound(es, Flat(c.cacheTable), evicted, hits, now, c.maxEntrySize);
  }

  lemma NoneFound(es: seq<Entry>, left: seq<Entry>, gone: seq<Entry>, hits: nat, now: Time, maxEntrySize: int)
    requires AllUsed(es, now, maxEntrySize) && Split(es, left, gone)
    requires AllEvictable(gone, hits, maxEntrySize) && hits <= FirstGap(es, maxEntrySize)
    ensures left == es
  {
    assert Gap(es, 0, maxEntrySize);
  }

  method BigEnough() returns (c: Cache)
    ensures fresh(c) && c.Valid() && c.Drift() == 0 && Flat(c.cacheTable) == []
    ensures c.maxEntrySize == c.totalSize == 20 * MEGA && c.folderSize > 0
  {
    c := new Cache();
    c.maxEntrySize := 20 * MEGA;
  }

  // A cache with one entry, which is fresh, and which fills it.
  method OneEntry(now: Time) returns (c: Cache, e: Entry)
    ensures fresh(c) && fresh(e) && c.Valid() && c.Drift() == 0 && c.maxEntrySize == c.totalSize == 20 * MEGA
    ensures Flat(c.cacheTable) == [e] && !e.Stale(now) && c.folderSize > 0
  {
    c := BigEnough();
    ghost var t := c.cacheTable;
    var isNew;
    e, isNew := c.New(1, now, Response(now, -1, 3600, -1, -1), false, now, 3600, [1]);
    ghost var p := FlatWith(t, e.hash, 0, e);
  }

  method FullOfOne(now: Time) returns (c: Cache, e: Entry)
    ensures fresh(c) && c.Valid() && c.Drift() == 0 && c.maxEntrySize == 20 * MEGA && c.StartGC()
    ensures Flat(c.cacheTable) == [e] && e.lock == None && e.hits > 0 && e.size == 20 * MEGA && !e.Stale(now)
  {
    c, e := OneEntry(now);
    c.Resize(e, 20 * MEGA, false);
    assert Sizes([e]) == [e.size];
    e.AddHit();
    e.ReleaseLock();
    assert Sizes([e]) == [e.size];
  }

  // So a collection may end above the limit with an entry left that it could let go.
  method StopsAbove(now: Time) returns (c: Cache)
    ensures c.Valid() && c.Drift() == 0 && c.StartGC() && |Flat(c.cacheTable)| == 1 && Unlocked(Flat(c.cacheTable))
  {
    var e;
    c, e := FullOfOne(now);
    NothingGoes(c, now);
    assert Sizes([e]) == [e.size];
  }

  lemma WithoutWithin(t: Table, v: nat, i: nat)
    requires v < |t| && i < |t[v]|
    ensures forall e :: e in Flat(t[v := Without(t[v], i)]) ==> e in Flat(t)
  {
    FlatWithout(t, v, i);
  }

  lemma SplitWithin(all: seq<Entry>, left: seq<Entry>, gone: seq<Entry>)
    requires Split(all, left, gone)
    ensures forall e :: e in left ==> e in all
  {
    forall e | e in left
      ensures e in all
    {
      SplitHas(all, left, gone, e);
    }
  }

  lemma NothingStale(now: Time, all: seq<Entry>, left: seq<Entry>, gone: seq<Entry>)
    requires Split(all, left, gone) && Removable(StaleAt(now), gone)
    ensures Clean(StaleAt(now), all) ==> left == all
  {
    if gone != [] {
      SplitHas(all, left, gone, gone[0]);
    }
  }

  lemma SplitKeepsClean(what: Selector, all: seq<Entry>, left: seq<Entry>, gone: seq<Entry>)
    requires Split(all, left, gone)
    ensures Clean(what, all) ==> Clean(what, left)
  {
    forall i | 0 <= i < |left|
      ensures left[i] in all
    {
      SplitHas(all, left, gone, left[i]);
    }
  }

  lemma {:induction false} EmptyIsFlat(t: Table)
    requires forall v :: 0 <= v < |t| ==> t[v] == []
    ensures Flat(t) == []
  {
    if t != [] {
      EmptyIsFlat(t[1..]);
    }
  }
}
