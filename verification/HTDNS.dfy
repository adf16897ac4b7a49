// HTDNS.c: the choice among the addresses of a multihomed host, and why no address starves.
module HTDNS {
  // Connect times are of type ms_t, an unsigned long.
  newtype Millis = x: int | 0 <= x < 0x1_0000_0000_0000_0000

  const PASSIVE := 0.9
  const ALPHA := 0.716531310574
  const PRETTY_BAD := 1000000000000000000000000000000.0  // 1e30

  type Weights = seq<real>

  // ---------------------------------------------------------------------------------------------
  // What one round does to the weights, and which home is the best.

  function Updated(w: real, active: bool, t: real): real {
    if active then
      var x := w * ALPHA + (1.0 - ALPHA) * t;
      if x < 0.0 then 0.0 else x
    else w * PASSIVE
  }

  function Update(ws: Weights, current: int, t: real): Weights {
    seq(|ws|, i requires 0 <= i < |ws| => Updated(ws[i], i == current, t))
  }

  // An average: the weight goes toward the time, and its distance shrinks to ALPHA times what it was.
  lemma Averaging(w: real, t: real)
    requires w >= 0.0 && t >= 0.0
    ensures Updated(w, true, t) - t == ALPHA * (w - t)
    ensures if w <= t then w <= Updated(w, true, t) <= t else t <= Updated(w, true, t) <= w
  {
    var p, q := ALPHA * w, ALPHA * t;
    assert p >= 0.0 && w * ALPHA == p && (1.0 - ALPHA) * t == t - q;
    assert ALPHA * (w - t) == p - q;
  }

  // ALPHA stands for exp(-1/3), which the code does not compute: its cube is 1/e to five places.
  lemma AlphaCubed()
    ensures 0.367879 < ALPHA * ALPHA * ALPHA < 0.367880
  {
  }

  // best is the first home of the least weight, among those that are not hopeless.
  ghost predicate IsBest(ws: Weights, best: nat) {
    if exists i :: 0 <= i < |ws| && ws[i] < PRETTY_BAD then
      && best < |ws| && ws[best] < PRETTY_BAD
      && (forall i :: 0 <= i < |ws| ==> ws[best] <= ws[i])
      && (forall i :: 0 <= i < best ==> ws[best] < ws[i])
    else best == 0
  }

  class HTdns {
    const homes: nat
    const weight: array<real>

    ghost predicate Valid()
      reads this
    {
      weight.Length == homes
    }

    // HTDNS_add: HT_CALLOC clears the weights.
    constructor (homes: nat)
      ensures Valid() && this.homes == homes && fresh(weight)
      ensures forall i :: 0 <= i < homes ==> weight[i] == 0.0
    {
      this.homes := homes;
      weight := new real[homes](_ => 0.0);
    }

    // HTDNS_updateWeigths
    method UpdateWeights(current: int, deltatime: Millis)
      requires Valid()
      modifies weight
      ensures weight[..] == Update(old(weight[..]), current, deltatime as real)
      ensures 0 <= current < homes && old(weight[current]) >= 0.0 ==>
        weight[current] - deltatime as real == ALPHA * (old(weight[current]) - deltatime as real)
      ensures forall i :: 0 <= i < homes && i != current ==> weight[i] == 0.9 * old(weight[i])
    {
      var cnt := 0;
      while cnt < homes
        invariant cnt <= homes
        invariant forall i :: 0 <= i < cnt ==> weight[i] == Updated(old(weight[i]), i == current, deltatime as real)
        invariant forall i :: cnt <= i < homes ==> weight[i] == old(weight[i])
      {
        if cnt == current {
          weight[current] := weight[current] * ALPHA + (1.0 - ALPHA) * deltatime as real;
          if weight[current] < 0.0 {
            weight[current] := 0.0;
          }
        } else {
          weight[cnt] := weight[cnt] * PASSIVE;
        }
        cnt := cnt + 1;
      }
      if 0 <= current < homes && old(weight[current]) >= 0.0 {
        Averaging(old(weight[current]), deltatime as real);
      }
    }

    // The part of HTGetHostByName that sets the home, for a host found in the cache.
    method BestHome() returns (home: nat)
      requires Valid()
      ensures IsBest(weight[..], home)
    {
      home := 0;
      if homes > 1 {
        var cnt := 0;
        var bestWeight := PRETTY_BAD;
        while cnt < homes
          invariant cnt <= homes && bestWeight <= PRETTY_BAD
          invariant forall i :: 0 <= i < cnt ==> bestWeight <= weight[i]
          invariant if bestWeight < PRETTY_BAD
            then home < cnt && weight[home] == bestWeight && forall i :: 0 <= i < home ==> bestWeight < weight[i]
            else home == 0
        {
          if weight[cnt] < bestWeight {
            bestWeight := weight[cnt];
            home := cnt;
          }
          cnt := cnt + 1;
        }
      }
    }
  }

  // ---------------------------------------------------------------------------------------------
  // Fairness.

  // A run: in each round the best home is used and its connect time noted.
  ghost predicate IsRun(ws: seq<Weights>, homes: seq<nat>, times: seq<Millis>) {
    && |ws| == |homes| + 1 && |times| == |homes|
    && forall k :: 0 <= k < |homes| ==> IsRound(ws[k], homes[k], times[k], ws[k + 1])
  }

  ghost predicate IsRound(ws: Weights, home: nat, time: Millis, ws': Weights) {
    IsBest(ws, home) && ws' == Update(ws, home, time as real)
  }

  ghost predicate NonNegative(ws: Weights) {
    forall i :: 0 <= i < |ws| ==> ws[i] >= 0.0
  }

  // Just used, at a connect time of at least d, a home weighs at least this much.
  function Floor(d: Millis): real {
    (1.0 - ALPHA) * d as real
  }

  // After so many rounds without being used, a home of weight w weighs less than that.
  function Patience(w: real, d: Millis): nat
    requires w >= 0.0 && d > 0
  {
    (9.0 * w / Floor(d)).Floor + 1
  }

  lemma RoundFacts(ws: Weights, home: nat, time: Millis, ws': Weights, h: nat, d: Millis)
    requires IsRound(ws, home, time, ws') && NonNegative(ws) && h < |ws| && 0 < d <= time
    ensures |ws'| == |ws| && NonNegative(ws')
    ensures home < |ws| ==> ws'[home] >= Floor(d)
    ensures forall i :: 0 <= i < |ws| && i != home ==> ws'[i] == ws[i] * PASSIVE
    ensures ws[h] < Floor(d) ==> home < |ws| && ws[home] <= ws[h]
  {
    if home < |ws| {
      assert ws[home] * ALPHA >= 0.0;
      assert (1.0 - ALPHA) * time as real >= Floor(d);
    }
    if ws[h] < Floor(d) {
      assert ws[h] < PRETTY_BAD;
    }
  }

  lemma {:induction false} StaysNonNegative(ws: seq<Weights>, homes: seq<nat>, times: seq<Millis>, d: Millis, k: nat)
    requires IsRun(ws, homes, times) && NonNegative(ws[0]) && ws[0] != []
    requires d > 0 && forall i :: 0 <= i < |times| ==> d <= times[i]
    requires k < |ws|
    ensures NonNegative(ws[k]) && |ws[k]| == |ws[0]|
  {
    if k > 0 {
      StaysNonNegative(ws, homes, times, d, k - 1);
      assert IsRound(ws[k - 1], homes[k - 1], times[k - 1], ws[k]);
      RoundFacts(ws[k - 1], homes[k - 1], times[k - 1], ws[k], 0, d);
    }
  }

  function Power(x: real, k: nat): real {
    if k == 0 then 1.0 else Power(x, k - 1) * x
  }

  // A home used k times at the same connect time: the distance is ALPHA to the k times the first.
  lemma {:induction false} UsedConverges(ws: seq<Weights>, homes: seq<nat>, times: seq<Millis>, h: nat, t: Millis, s: nat, k: nat)
    requires IsRun(ws, homes, times) && s + k < |ws| && h < |ws[s]| && ws[s][h] >= 0.0
    requires forall i :: s <= i < s + k ==> homes[i] == h && times[i] == t
    ensures h < |ws[s + k]| && ws[s + k][h] >= 0.0
    ensures ws[s + k][h] - t as real == Power(ALPHA, k) * (ws[s][h] - t as real)
  {
    if k > 0 {
      var i := s + k - 1;
      UsedConverges(ws, homes, times, h, t, s, k - 1);
      assert IsRound(ws[i], homes[i], times[i], ws[i + 1]);
      Averaging(ws[i][h], t as real);
      var x, first := Power(ALPHA, k - 1), ws[s][h] - t as real;
      assert ALPHA * (x * first) == x * ALPHA * first;
    }
  }

  // No weight gets above the greatest connect time, or what it was, so that no home is ever hopeless.
  lemma {:induction false} NeverHopeless(ws: seq<Weights>, homes: seq<nat>, times: seq<Millis>, k: nat, i: nat)
    requires IsRun(ws, homes, times) && k < |ws| && i < |ws[0]|
    requires forall j :: 0 <= j < |ws[0]| ==> 0.0 <= ws[0][j] <= 18446744073709551615.0
    ensures |ws[k]| == |ws[0]| && 0.0 <= ws[k][i] <= 18446744073709551615.0 < PRETTY_BAD
  {
    if k > 0 {
      NeverHopeless(ws, homes, times, k - 1, i);
      assert IsRound(ws[k - 1], homes[k - 1], times[k - 1], ws[k]);
      Averaging(ws[k - 1][i], times[k - 1] as real);
    }
  }

  function Decayed(w: real, k: nat): real {
    if k == 0 then w else Decayed(w, k - 1) * PASSIVE
  }

  // Decay by a constant factor is at least hyperbolic.
  lemma {:induction false} DecayBound(w: real, k: nat)
    requires w >= 0.0
    ensures 0.0 <= Decayed(w, k) && Decayed(w, k) * (9.0 + k as real) <= 9.0 * w
  {
    if k > 0 {
      DecayBound(w, k - 1);
      OneMoreRound(Decayed(w, k - 1), k as real);
      assert (k - 1) as real == k as real - 1.0;
    }
  }

  lemma OneMoreRound(w: real, r: real)
    requires w >= 0.0 && r >= 1.0
    ensures w * PASSIVE * (9.0 + r) <= w * (9.0 + (r - 1.0))
  {
    var p := w * r;
    assert p >= w;
    assert w * PASSIVE * (9.0 + r) == 8.1 * w + 0.9 * p;
    assert w * (9.0 + (r - 1.0)) == 8.0 * w + p;
  }

  lemma {:induction false} UnusedDecays(ws: seq<Weights>, homes: seq<nat>, times: seq<Millis>, h: nat, d: Millis, k: nat)
    requires IsRun(ws, homes, times) && NonNegative(ws[0]) && h < |ws[0]|
    requires d > 0 && forall i :: 0 <= i < |times| ==> d <= times[i]
    requires k < |ws| && forall i :: 0 <= i < k ==> homes[i] != h
    ensures |ws[k]| == |ws[0]| && ws[k][h] == Decayed(ws[0][h], k)
  {
    if k > 0 {
      UnusedDecays(ws, homes, times, h, d, k - 1);
      StaysNonNegative(ws, homes, times, d, k - 1);
      assert IsRound(ws[k - 1], homes[k - 1], times[k - 1], ws[k]);
      RoundFacts(ws[k - 1], homes[k - 1], times[k - 1], ws[k], h, d);
    }
  }

  // While h waits below Floor(d), whoever is used instead becomes heavier than h and stays so.
  ghost predicate Passed(ws: Weights, used: set<nat>, h: nat) {
    h < |ws| && forall j :: j in used ==> j < |ws| && j != h && ws[j] > ws[h]
  }

  lemma {:induction false} Overtaken(ws: seq<Weights>, homes: seq<nat>, times: seq<Millis>, h: nat, d: Millis, s: nat, k: nat)
    returns (used: set<nat>)
    requires IsRun(ws, homes, times) && NonNegative(ws[0]) && h < |ws[0]|
    requires d > 0 && forall i :: 0 <= i < |times| ==> d <= times[i]
    requires s + k < |ws| && |ws[s]| == |ws[0]| && ws[s][h] < Floor(d)
    requires forall i :: s <= i < s + k ==> homes[i] != h
    ensures |used| == k && |ws[s + k]| == |ws[0]| && ws[s + k][h] < Floor(d)
    ensures Passed(ws[s + k], used, h)
  {
    if k == 0 {
      used := {};
    } else {
      var i := s + k - 1;
      used := Overtaken(ws, homes, times, h, d, s, k - 1);
      StaysNonNegative(ws, homes, times, d, i);
      assert IsRound(ws[i], homes[i], times[i], ws[i + 1]);
      RoundFacts(ws[i], homes[i], times[i], ws[i + 1], h, d);
      assert homes[i] !in used;
      used := used + {homes[i]};
    }
  }

  function UpTo(n: nat): (r: set<nat>)
    ensures |r| == n && forall i :: i in r <==> 0 <= i < n
  {
    if n == 0 then {} else UpTo(n - 1) + {n - 1}
  }

  // Once below Floor(d), a home is used within as many rounds as there are homes.
  lemma SoonUsed(ws: seq<Weights>, homes: seq<nat>, times: seq<Millis>, h: nat, d: Millis, s: nat)
    requires IsRun(ws, homes, times) && NonNegative(ws[0]) && h < |ws[0]|
    requires d > 0 && forall i :: 0 <= i < |times| ==> d <= times[i]
    requires s + |ws[0]| <= |homes| && |ws[s]| == |ws[0]| && ws[s][h] < Floor(d)
    ensures exists i :: s <= i < s + |ws[0]| && homes[i] == h
  {
    var n := |ws[0]|;
    if forall i :: s <= i < s + n ==> homes[i] != h {
      var used := Overtaken(ws, homes, times, h, d, s, n);
      SubsetSize(used, UpTo(n) - {h});
    }
  }

  lemma {:induction false} SubsetSize(a: set<nat>, b: set<nat>)
    requires a <= b
    ensures |a| <= |b|
  {
    if a != {} {
      var x :| x in a;
      SubsetSize(a - {x}, b - {x});
    }
  }

  lemma PatienceEnds(w: real, d: Millis)
    requires w >= 0.0 && d > 0
    ensures Decayed(w, Patience(w, d)) < Floor(d)
  {
    var k := Patience(w, d);
    var b, r, x := Floor(d), k as real, Decayed(w, k);
    DecayBound(w, k);
    assert r > 9.0 * w / b;
    assert r * b > 9.0 * w;
    assert x >= b ==> x * (9.0 + r) >= b * (9.0 + r);
  }

  // No home starves: whatever the weights, each home is used once in so many rounds.
  lemma NoStarvation(ws: seq<Weights>, homes: seq<nat>, times: seq<Millis>, h: nat, d: Millis)
    requires IsRun(ws, homes, times) && NonNegative(ws[0]) && h < |ws[0]|
    requires d > 0 && forall i :: 0 <= i < |times| ==> d <= times[i]
    requires Patience(ws[0][h], d) + |ws[0]| <= |homes|
    ensures exists i :: 0 <= i < Patience(ws[0][h], d) + |ws[0]| && homes[i] == h
  {
    var w, k := ws[0][h], Patience(ws[0][h], d);
    if forall i :: 0 <= i < k ==> homes[i] != h {
      UnusedDecays(ws, homes, times, h, d, k);
      PatienceEnds(w, d);
      SoonUsed(ws, homes, times, h, d, k);
    }
  }
}
