/**
  The capped equity curve (backend/scripts/hybrid_mp_portfolio_math.py:38-54) and the running-peak
  drawdown of the block ledger (backend/data/autoscalp_reversal_block_ledger.py:56-60).

  Money is exact reals; a trade's return on equity, f * (bps - cost) / rk, is an input.
 */
module EquityCurve {
  import opened Wrappers

  datatype Day = Day(n: nat)
  datatype Trade = Trade(entry: int, exit: int, ret: real, day: Day)

  // ---------------------------------------------------------------- the concurrency cap

  /** How many of the trades are open at an instant. */
  function OpenAt(ts: seq<Trade>, at: int): nat {
    if ts == [] then 0
    else OpenAt(ts[..|ts| - 1], at) + if ts[|ts| - 1].entry <= at < ts[|ts| - 1].exit then 1 else 0
  }

  function StillOpen(open: seq<int>, now: int): seq<int> {
    if open == [] then []
    else StillOpen(open[..|open| - 1], now) + if open[|open| - 1] > now then [open[|open| - 1]] else []
  }

  /** The trades taken of the first n. */
  function Taken(ev: seq<Trade>, n: nat, cap: int): (seq<Trade>, seq<int>)
    requires n <= |ev|
  {
    if n == 0 then ([], [])
    else
      var (ts, open) := Taken(ev, n - 1, cap);
      var e := ev[n - 1];
      var left := StillOpen(open, e.entry);
      if |left| >= cap then (ts, left) else (ts + [e], left + [e.exit])
  }

  ghost predicate ByEntry(ev: seq<Trade>) {
    forall i, j | 0 <= i < j < |ev| :: ev[i].entry <= ev[j].entry
  }

  /** An entry later than one before it in the list and one behind it. */
  predicate Sticks(es: seq<int>, i: int, j: int, k: int) {
    0 <= i < j < k < |es| && es[j] > es[i] && es[j] > es[k]
  }

  /** The entries fall at first and then rise; in particular they may be in order. */
  ghost predicate Valley(es: seq<int>) {
    forall i, j, k :: !Sticks(es, i, j, k)
  }

  function Entries(ev: seq<Trade>): (es: seq<int>)
    ensures |es| == |ev| && forall i | 0 <= i < |ev| :: es[i] == ev[i].entry
  {
    seq(|ev|, i requires 0 <= i < |ev| => ev[i].entry)
  }

  lemma OpenAtGrows(ts: seq<Trade>, t: Trade, at: int)
    ensures OpenAt(ts + [t], at) == OpenAt(ts, at) + if t.entry <= at < t.exit then 1 else 0
  {
  }

  lemma StillOpenGrows(open: seq<int>, x: int, now: int)
    ensures StillOpen(open + [x], now) == StillOpen(open, now) + if x > now then [x] else []
  {
  }

  lemma {:induction false} StillOpenTwice(open: seq<int>, now: int, later: int)
    requires now <= later
    ensures StillOpen(StillOpen(open, now), later) == StillOpen(open, later)
    ensures |StillOpen(open, later)| <= |StillOpen(open, now)|
  {
    if open != [] {
      var n := |open| - 1;
      StillOpenTwice(open[..n], now, later);
      if open[n] > now {
        StillOpenGrows(StillOpen(open[..n], now), open[n], later);
      } else {
        assert StillOpen(open[..n], now) + [] == StillOpen(open[..n], now);
      }
    }
  }

  /** The list of exits, pruned at any later instant, counts the trades open then. */
  lemma {:induction false} OpenListCounts(ev: seq<Trade>, n: nat, cap: int, at: int)
    requires ByEntry(ev) && n <= |ev| && (n > 0 ==> ev[n - 1].entry <= at)
    ensures OpenAt(Taken(ev, n, cap).0, at) == |StillOpen(Taken(ev, n, cap).1, at)|
  {
    if n > 0 {
      hide OpenAt, StillOpen;
      var (ts, open) := Taken(ev, n - 1, cap);
      var e := ev[n - 1];
      assert n > 1 ==> ev[n - 2].entry <= e.entry;
      OpenListCounts(ev, n - 1, cap, at);
      StillOpenTwice(open, e.entry, at);
      var left := StillOpen(open, e.entry);
      if |left| < cap {
        OpenAtGrows(ts, e, at);
        StillOpenGrows(left, e.exit, at);
      }
    }
  }

  /** While a trade entered by then is still to come, no trade open at an instant is off the list. */
  lemma {:induction false} NothingMissing(ev: seq<Trade>, n: nat, k: nat, cap: int, at: int)
    requires Valley(Entries(ev)) && n <= k < |ev| && ev[k].entry <= at
    ensures OpenAt(Taken(ev, n, cap).0, at) <= |StillOpen(Taken(ev, n, cap).1, at)|
  {
    if n > 0 {
      hide OpenAt, StillOpen, Entries, Valley;
      var (ts, open) := Taken(ev, n - 1, cap);
      var e := ev[n - 1];
      NothingMissing(ev, n - 1, k, cap, at);
      if e.entry > at {
        NoneBefore(ev, n - 1, k, cap, at);
        OpenAtGrows(ts, e, at);
      } else {
        ListKeepsUp(ts, open, e, at);
      }
    }
  }

  lemma ListKeepsUp(ts: seq<Trade>, open: seq<int>, e: Trade, at: int)
    requires OpenAt(ts, at) <= |StillOpen(open, at)| && e.entry <= at
    ensures var left := StillOpen(open, e.entry);
      && OpenAt(ts, at) <= |StillOpen(left, at)|
      && OpenAt(ts + [e], at) <= |StillOpen(left + [e.exit], at)|
  {
    hide OpenAt, StillOpen;
    StillOpenTwice(open, e.entry, at);
    OpenAtGrows(ts, e, at);
    StillOpenGrows(StillOpen(open, e.entry), e.exit, at);
  }

  lemma NoneBefore(ev: seq<Trade>, n: nat, k: nat, cap: int, at: int)
    requires Valley(Entries(ev)) && n < k < |ev| && ev[k].entry <= at < ev[n].entry
    ensures OpenAt(Taken(ev, n, cap).0, at) == 0
  {
    forall i | 0 <= i < n
      ensures ev[i].entry > at
    {
      assert !Sticks(Entries(ev), i, n, k);
    }
    NoneYet(ev, n, cap, at);
  }

  lemma {:induction false} NoneYet(ev: seq<Trade>, n: nat, cap: int, at: int)
    requires n <= |ev| && forall i | 0 <= i < n :: ev[i].entry > at
    ensures OpenAt(Taken(ev, n, cap).0, at) == 0
  {
    if n > 0 {
      hide OpenAt, StillOpen;
      NoneYet(ev, n - 1, cap, at);
      OpenAtGrows(Taken(ev, n - 1, cap).0, ev[n - 1], at);
    } else {
      assert OpenAt([], at) == 0;
    }
  }

  /** At every instant at most `cap` taken trades are open. */
  lemma {:induction false} NeverMoreThanCap(ev: seq<Trade>, n: nat, cap: nat, at: int)
    requires Valley(Entries(ev)) && n <= |ev|
    ensures OpenAt(Taken(ev, n, cap).0, at) <= cap
  {
    if n > 0 {
      TakenUnfolds(ev, n, cap);
      hide OpenAt, StillOpen, Entries, Valley, Taken;
      var (ts, open) := Taken(ev, n - 1, cap);
      var e := ev[n - 1];
      NeverMoreThanCap(ev, n - 1, cap, at);
      if |StillOpen(open, e.entry)| < cap {
        OpenAtGrows(ts, e, at);
        if e.entry <= at {
          NothingMissing(ev, n - 1, n - 1, cap, at);
          StillOpenTwice(open, e.entry, at);
        }
      }
    } else {
      assert Taken(ev, 0, cap).0 == [] && OpenAt([], at) == 0;
    }
  }

  lemma SortedIsValley(ev: seq<Trade>)
    requires ByEntry(ev)
    ensures Valley(Entries(ev))
  {
  }

  /** A trade is passed over exactly when `cap` taken ones are open at its entry. */
  lemma TakenIffRoom(ev: seq<Trade>, n: nat, cap: int)
    requires ByEntry(ev) && n < |ev|
    ensures Taken(ev, n + 1, cap).0 ==
      if OpenAt(Taken(ev, n, cap).0, ev[n].entry) >= cap then Taken(ev, n, cap).0 else Taken(ev, n, cap).0 + [ev[n]]
  {
    assert n > 0 ==> ev[n - 1].entry <= ev[n].entry;
    OpenListCounts(ev, n, cap, ev[n].entry);
  }

  lemma TakenStep(ev: seq<Trade>, n: nat, cap: int, ts: seq<Trade>, open: seq<int>, left: seq<int>)
    requires n < |ev| && Taken(ev, n, cap) == (ts, open) && StillOpen(open, ev[n].entry) == left && |left| < cap
    ensures Taken(ev, n + 1, cap) == (ts + [ev[n]], left + [ev[n].exit])
  {
  }

  /** Trades that end at once, but for two that are open one instant past the later of their entries. */
  function Evading(es: seq<int>, i: int, k: int, at: int, low: int): seq<Trade> {
    seq(|es|, m requires 0 <= m < |es| =>
      Trade(es[m], if m == i || m == k then at + 1 else low, 0.0, Day(0)))
  }

  ghost predicate Over(open: seq<int>, now: int) {
    forall i | 0 <= i < |open| :: open[i] <= now
  }

  lemma {:induction false} OverIsPruned(open: seq<int>, now: int)
    requires Over(open, now)
    ensures StillOpen(open, now) == []
  {
    if open != [] {
      OverIsPruned(open[..|open| - 1], now);
    }
  }

  /** With room for one: if all that is on the list is over by the next entry, its trade is taken. */
  lemma TakenAlone(ev: seq<Trade>, n: nat)
    requires n < |ev| && Over(Taken(ev, n, 1).1, ev[n].entry)
    ensures Taken(ev, n + 1, 1) == (Taken(ev, n, 1).0 + [ev[n]], [ev[n].exit])
  {
    hide StillOpen;
    OverIsPruned(Taken(ev, n, 1).1, ev[n].entry);
    assert [] + [ev[n].exit] == [ev[n].exit];
  }

  ghost predicate NoneBelow(ev: seq<Trade>, low: int) {
    forall m | 0 <= m < |ev| :: low <= ev[m].entry
  }

  ghost predicate AtOnce(ev: seq<Trade>, from: nat, n: nat, low: int)
    requires n <= |ev|
  {
    forall m | from <= m < n :: ev[m].exit == low
  }

  /** Between the two long trades whatever is on the list ends at once. */
  lemma {:induction false} Stretch(ev: seq<Trade>, from: nat, n: nat, low: int, at: int)
    requires from <= n <= |ev|
    requires NoneBelow(ev, low)
    requires AtOnce(ev, from, n, low)
    requires Over(Taken(ev, from, 1).1, low)
    ensures Over(Taken(ev, n, 1).1, low)
    ensures OpenAt(Taken(ev, n, 1).0, at) >= OpenAt(Taken(ev, from, 1).0, at)
  {
    if from < n {
      Stretch(ev, from, n - 1, low, at);
      hide StillOpen, OpenAt;
      TakenAlone(ev, n - 1);
      hide Taken;
      OpenAtGrows(Taken(ev, n - 1, 1).0, ev[n - 1], at);
    }
  }

  /** Before an entry that sticks out, the list may hold the first long trade, but nothing that is open later. */
  lemma {:induction false} Waiting(ev: seq<Trade>, from: nat, n: nat, low: int, at: int)
    requires from <= n <= |ev|
    requires AtOnce(ev, from, n, low)
    requires low <= at && Over(Taken(ev, from, 1).1, at + 1)
    ensures Over(Taken(ev, n, 1).1, at + 1)
    ensures OpenAt(Taken(ev, n, 1).0, at) >= OpenAt(Taken(ev, from, 1).0, at)
  {
    if from < n {
      Waiting(ev, from, n - 1, low, at);
      var (ts, open) := Taken(ev, n - 1, 1);
      PrunedIsOver(open, ev[n - 1].entry, at + 1);
      hide StillOpen, OpenAt;
      OpenAtGrows(ts, ev[n - 1], at);
    }
  }

  lemma {:induction false} PrunedIsOver(open: seq<int>, now: int, late: int)
    requires Over(open, late)
    ensures Over(StillOpen(open, now), late)
  {
    if open != [] {
      PrunedIsOver(open[..|open| - 1], now, late);
    }
  }

  function Least(es: seq<int>): (low: int)
    requires es != []
    ensures forall m | 0 <= m < |es| :: low <= es[m]
  {
    if |es| == 1 then es[0]
    else
      var low := Least(es[..|es| - 1]);
      if es[|es| - 1] < low then es[|es| - 1] else low
  }

  lemma LongTaken(ev: seq<Trade>, n: nat, low: int, at: int)
    requires n < |ev| && low <= ev[n].entry <= at && ev[n].exit == at + 1 && Over(Taken(ev, n, 1).1, low)
    ensures OpenAt(Taken(ev, n + 1, 1).0, at) == OpenAt(Taken(ev, n, 1).0, at) + 1
    ensures Over(Taken(ev, n + 1, 1).1, at + 1)
  {
    hide StillOpen, OpenAt;
    TakenAlone(ev, n);
    OpenAtGrows(Taken(ev, n, 1).0, ev[n], at);
  }

  lemma ShortTaken(ev: seq<Trade>, n: nat, low: int, at: int)
    requires n < |ev| && at < ev[n].entry && ev[n].exit == low && Over(Taken(ev, n, 1).1, at + 1)
    ensures OpenAt(Taken(ev, n + 1, 1).0, at) == OpenAt(Taken(ev, n, 1).0, at)
    ensures Over(Taken(ev, n + 1, 1).1, low)
  {
    hide StillOpen, OpenAt;
    TakenAlone(ev, n);
    OpenAtGrows(Taken(ev, n, 1).0, ev[n], at);
  }

  lemma StartsOver(ev: seq<Trade>, low: int)
    ensures Over(Taken(ev, 0, 1).1, low)
  {
  }

  lemma FirstTaken(ev: seq<Trade>, i: nat, j: nat, low: int, at: int)
    requires i < j < |ev| && low <= ev[i].entry <= at < ev[j].entry
    requires NoneBelow(ev, low) && ev[i].exit == at + 1 && ev[j].exit == low
    requires AtOnce(ev, 0, i, low) && AtOnce(ev, i + 1, j, low)
    ensures OpenAt(Taken(ev, j + 1, 1).0, at) >= 1 && Over(Taken(ev, j + 1, 1).1, low)
  {
    hide Taken, OpenAt, Over, AtOnce, NoneBelow;
    StartsOver(ev, low);
    Stretch(ev, 0, i, low, at);
    LongTaken(ev, i, low, at);
    Waiting(ev, i + 1, j, low, at);
    ShortTaken(ev, j, low, at);
  }

  lemma TwoTaken(ev: seq<Trade>, i: nat, j: nat, k: nat, at: int, low: int)
    requires i < j < k < |ev| && low <= ev[i].entry <= at < ev[j].entry && low <= ev[k].entry <= at
    requires NoneBelow(ev, low) && ev[i].exit == ev[k].exit == at + 1 && ev[j].exit == low
    requires AtOnce(ev, 0, i, low) && AtOnce(ev, i + 1, j, low)
    requires AtOnce(ev, j + 1, k, low) && AtOnce(ev, k + 1, |ev|, low)
    ensures OpenAt(Taken(ev, |ev|, 1).0, at) >= 2
  {
    hide Taken, OpenAt, Over, AtOnce, NoneBelow;
    FirstTaken(ev, i, j, low, at);
    Stretch(ev, j + 1, k, low, at);
    LongTaken(ev, k, low, at);
    Waiting(ev, k + 1, |ev|, low, at);
  }

  /** An entry that sticks out makes the loop forget a trade that is open when an earlier one comes up. */
  lemma StickingBreaksCap(es: seq<int>, i: nat, j: nat, k: nat)
    requires Sticks(es, i, j, k)
    ensures var at, low := if es[i] < es[k] then es[k] else es[i], Least(es);
      var ev := Evading(es, i, k, at, low);
      Entries(ev) == es && OpenAt(Taken(ev, |ev|, 1).0, at) >= 2
  {
    var at, low := if es[i] < es[k] then es[k] else es[i], Least(es);
    var ev := Evading(es, i, k, at, low);
    assert Entries(ev) == es;
    hide Least, Evading, Entries;
    TwoTaken(ev, i, j, k, at, low);
  }

  /** Whatever the exits and the cap, it is kept at every instant iff no entry in the list sticks out. */
  lemma CapHoldsIff(es: seq<int>)
    ensures (forall ev, cap: nat, at | Entries(ev) == es :: OpenAt(Taken(ev, |ev|, cap).0, at) <= cap) <==> Valley(es)
  {
    hide OpenAt, Taken, Entries, Evading;
    if Valley(es) {
      forall ev, cap: nat, at | Entries(ev) == es
        ensures OpenAt(Taken(ev, |ev|, cap).0, at) <= cap
      {
        NeverMoreThanCap(ev, |ev|, cap, at);
      }
    } else {
      var i, j, k :| Sticks(es, i, j, k);
      StickingBreaksCap(es, i, j, k);
    }
  }

  lemma NothingTaken(ev: seq<Trade>, cap: int)
    ensures Taken(ev, 0, cap) == ([], []) && OpenAt([], 5) == 0
    ensures StillOpen([], 0) == [] && StillOpen([], 20) == [] && StillOpen([], 5) == []
  {
  }

  // ---------------------------------------------------------------- drawdown by running peak

  function Compounded(eq: real, ret: real): real {
    eq * (1.0 + ret)
  }

  /** Equity after each trade, from 1. */
  function Curve(ts: seq<Trade>): (c: seq<real>)
    ensures |c| == |ts| + 1
  {
    if ts == [] then [1.0]
    else
      var c := Curve(ts[..|ts| - 1]);
      c + [Compounded(c[|c| - 1], ts[|ts| - 1].ret)]
  }

  /** One plus the return, over all trades. */
  function Growth(ts: seq<Trade>): real {
    if ts == [] then 1.0 else (1.0 + ts[0].ret) * Growth(ts[1..])
  }

  lemma {:induction false} GrowthAdds(ts: seq<Trade>, t: Trade)
    ensures Growth(ts + [t]) == Growth(ts) * (1.0 + t.ret)
  {
    if ts == [] {
      assert [] + [t] == [t] && [t][1..] == [];
    } else {
      GrowthAdds(ts[1..], t);
      assert (ts + [t])[1..] == ts[1..] + [t];
      Reassociate(1.0 + ts[0].ret, Growth(ts[1..]), 1.0 + t.ret);
    }
  }

  lemma Reassociate(a: real, b: real, c: real)
    ensures a * (b * c) == (a * b) * c
  {
  }

  /** Equity after the first n trades is the product of one plus their returns. */
  lemma {:induction false} CurveIsGrowth(ts: seq<Trade>, n: nat)
    requires n <= |ts|
    ensures Curve(ts)[n] == Growth(ts[..n])
    decreases |ts|
  {
    if ts != [] {
      var m := |ts| - 1;
      if n <= m {
        CurveIsGrowth(ts[..m], n);
        assert ts[..m][..n] == ts[..n];
      } else {
        CurveIsGrowth(ts[..m], m);
        assert ts[..m][..m] == ts[..m] && ts[..n] == ts[..m] + [ts[m]];
        GrowthAdds(ts[..m], ts[m]);
      }
    }
  }

  function Fall(from: real, to: real): real
    requires from > 0.0
  {
    1.0 - to / from
  }

  ghost predicate FallOf(c: seq<real>, i: int, j: int, m: real) {
    0 <= i <= j < |c| && c[i] > 0.0 && m == Fall(c[i], c[j])
  }

  ghost predicate FallsBelow(c: seq<real>, j: int, m: real) {
    0 <= j < |c| ==> forall i | 0 <= i <= j && c[i] > 0.0 :: Fall(c[i], c[j]) <= m
  }

  /** `m` is the greatest fall from any point of the curve to a later one. */
  ghost predicate MaxDrawdown(c: seq<real>, m: real) {
    (forall j :: FallsBelow(c, j, m)) && exists i, j :: FallOf(c, i, j, m)
  }

  ghost predicate IsPeak(c: seq<real>, peak: real) {
    peak >= 1.0 && peak in c && forall i | 0 <= i < |c| :: c[i] <= peak
  }

  /** The running peak and the drawdown kept against it. */
  function Running(c: seq<real>): (r: (real, real))
    requires c != [] && c[0] == 1.0
    ensures r.0 >= 1.0
  {
    if |c| == 1 then (1.0, 0.0)
    else
      var (peak, mdd) := Running(c[..|c| - 1]);
      var e := c[|c| - 1];
      var top := if peak < e then e else peak;
      (top, if mdd < Fall(top, e) then Fall(top, e) else mdd)
  }

  lemma FallMono(a: real, b: real, to: real)
    requires 0.0 < a <= b && to >= 0.0
    ensures Fall(a, to) <= Fall(b, to)
  {
  }

  lemma NewPeak(c: seq<real>, peak: real, e: real)
    requires IsPeak(c, peak)
    ensures IsPeak(c + [e], if peak < e then e else peak)
  {
  }

  // ---------------------------------------------------------------- the day's returns

  function DaySum(ts: seq<Trade>, day: Day): real {
    if ts == [] then 0.0
    else DaySum(ts[..|ts| - 1], day) + if ts[|ts| - 1].day == day then ts[|ts| - 1].ret else 0.0
  }

  function Traded(ts: seq<Trade>, day: Day): bool {
    ts != [] && (ts[|ts| - 1].day == day || Traded(ts[..|ts| - 1], day))
  }

  ghost predicate DayReturns(dayRet: map<Day, real>, ts: seq<Trade>) {
    forall d :: (d in dayRet <==> Traded(ts, d)) && (d in dayRet ==> dayRet[d] == DaySum(ts, d))
  }

  lemma DayReturnsGrow(dayRet: map<Day, real>, ts: seq<Trade>, t: Trade)
    requires DayReturns(dayRet, ts)
    ensures DayReturns(dayRet[t.day := (if t.day in dayRet then dayRet[t.day] else 0.0) + t.ret], ts + [t])
  {
    assert (ts + [t])[..|ts|] == ts;
    if !Traded(ts, t.day) {
      NotTraded(ts, t.day);
    }
  }

  lemma {:induction false} NotTraded(ts: seq<Trade>, day: Day)
    requires !Traded(ts, day)
    ensures DaySum(ts, day) == 0.0
  {
    if ts != [] {
      NotTraded(ts[..|ts| - 1], day);
    }
  }

  lemma CurveGrows(ts: seq<Trade>, t: Trade)
    ensures var c := Curve(ts); Curve(ts + [t]) == c + [Compounded(c[|c| - 1], t.ret)]
  {
  }

  ghost predicate NonNegative(c: seq<real>) {
    forall i | 0 <= i < |c| :: c[i] >= 0.0
  }

  lemma FallBelowZero(a: real, b: real, to: real)
    requires 0.0 < a <= b && to < 0.0
    ensures Fall(a, to) >= Fall(b, to) > 1.0
    ensures a < b ==> Fall(a, to) > Fall(b, to)
  {
    Quotients(a, b, -to);
    assert to / a == -((-to) / a) && to / b == -((-to) / b);
  }

  lemma Quotients(a: real, b: real, x: real)
    requires 0.0 < a <= b && x > 0.0
    ensures x / a >= x / b > 0.0
    ensures a < b ==> x / a > x / b
  {
    var p, q := x / a, x / b;
    assert p * a == x && q * b == x;
    if a < b && p <= q {
      Products(a, b, p, q);
    }
  }

  lemma Products(a: real, b: real, p: real, q: real)
    requires 0.0 < a < b && p <= q && q * b > 0.0
    ensures p * a < q * b
  {
    assert q > 0.0;
    assert p * a <= q * a;
    assert q * a < q * b;
  }

  /** The running peak is the highest point so far, whatever the signs. */
  lemma {:induction false} PeakIsHighest(c: seq<real>)
    requires c != [] && c[0] == 1.0
    ensures IsPeak(c, Running(c).0)
  {
    var n := |c| - 1;
    if n > 0 {
      hide IsPeak, Fall;
      PeakIsHighest(c[..n]);
      NewPeak(c[..n], Running(c[..n]).0, c[n]);
      assert c[..n] + [c[n]] == c;
    } else {
      assert c == [1.0];
    }
  }

  /** The fall to point j that the loop looks at. */
  function Seen(c: seq<real>, j: nat): real
    requires j < |c| && c[0] == 1.0
  {
    Fall(Running(c[..j + 1]).0, c[j])
  }

  lemma {:induction false} RunningCovers(c: seq<real>, j: nat)
    requires j < |c| && c[0] == 1.0
    ensures Seen(c, j) <= Running(c).1
    decreases |c|
  {
    assert Fall(1.0, 1.0) == 0.0;
    hide Fall;
    var n := |c| - 1;
    assert c[..n + 1] == c;
    if j < n {
      RunningCovers(c[..n], j);
      assert c[..n][..j + 1] == c[..j + 1];
    }
  }

  lemma {:induction false} RunningIsSeen(c: seq<real>) returns (j: nat)
    requires c != [] && c[0] == 1.0
    ensures j < |c| && Running(c).1 == Seen(c, j)
  {
    assert Fall(1.0, 1.0) == 0.0;
    hide Fall;
    var n := |c| - 1;
    assert c[..n + 1] == c;
    if n == 0 {
      j := 0;
    } else if Running(c).1 == Seen(c, n) {
      j := n;
    } else {
      j := RunningIsSeen(c[..n]);
      assert c[..n][..j + 1] == c[..j + 1];
    }
  }

  /** What the loop sees is a fall on the curve, so the drawdown kept is one. */
  lemma RunningIsFall(c: seq<real>)
    requires c != [] && c[0] == 1.0
    ensures exists i, j :: FallOf(c, i, j, Running(c).1)
  {
    hide Fall, Running;
    var j := RunningIsSeen(c);
    PeakIsHighest(c[..j + 1]);
    var i :| 0 <= i < j + 1 && c[..j + 1][i] == Running(c[..j + 1]).0;
    assert FallOf(c, i, j, Running(c).1);
  }

  /** While equity stays non-negative the running drawdown is the greatest fall between any two points. */
  lemma RunningIsMaximal(c: seq<real>)
    requires c != [] && c[0] == 1.0 && NonNegative(c)
    ensures IsPeak(c, Running(c).0) && MaxDrawdown(c, Running(c).1)
  {
    PeakIsHighest(c);
    RunningIsFall(c);
    forall j
      ensures FallsBelow(c, j, Running(c).1)
    {
      if 0 <= j < |c| {
        RunningCovers(c, j);
        SeenIsHighest(c, j);
      }
    }
  }

  lemma SeenIsHighest(c: seq<real>, j: nat)
    requires j < |c| && c[0] == 1.0 && c[j] >= 0.0
    ensures FallsBelow(c, j, Seen(c, j))
  {
    hide Fall, Running;
    PeakIsHighest(c[..j + 1]);
    forall i | 0 <= i <= j && c[i] > 0.0
      ensures Fall(c[i], c[j]) <= Seen(c, j)
    {
      assert c[..j + 1][i] == c[i];
      FallMono(c[i], Running(c[..j + 1]).0, c[j]);
    }
  }

  /** Before point j equity was at no positive value but the initial one. */
  ghost predicate Unmoved(c: seq<real>, j: int)
    requires j <= |c|
  {
    forall i | 0 <= i < j && c[i] > 0.0 :: c[i] == 1.0
  }

  /** No point lies deeper below zero than m times a positive point before it. */
  ghost predicate NoDeeper(c: seq<real>, m: real) {
    forall i, k | 0 <= i <= k < |c| && c[i] > 0.0 :: c[k] >= m * c[i]
  }

  /** A point below zero that equity reached before it moved, and none is deeper for where it fell from. */
  ghost predicate DeepestFirst(c: seq<real>, j: int) {
    0 <= j < |c| && c[j] < 0.0 && Unmoved(c, j) && NoDeeper(c, c[j])
  }

  lemma FallWithin(a: real, b: real, m: real)
    requires a > 0.0
    ensures Fall(a, b) <= 1.0 - m <==> b >= m * a
  {
    var q := b / a;
    assert q * a == b;
    if q >= m {
      assert q * a >= m * a;
    } else {
      assert q * a < m * a;
    }
  }

  lemma NoDeeperIff(c: seq<real>, m: real, d: real)
    requires d == 1.0 - m
    ensures NoDeeper(c, m) <==> forall k :: FallsBelow(c, k, d)
  {
    hide Fall;
    forall i, k | 0 <= i <= k < |c| && c[i] > 0.0
      ensures Fall(c[i], c[k]) <= d <==> c[k] >= m * c[i]
    {
      FallWithin(c[i], c[k], m);
    }
    if forall k :: FallsBelow(c, k, d) {
      forall i, k | 0 <= i <= k < |c| && c[i] > 0.0
        ensures c[k] >= m * c[i]
      {
        assert FallsBelow(c, k, d);
      }
    }
  }

  lemma SeenUnmoved(c: seq<real>, j: nat)
    requires j < |c| && c[0] == 1.0 && c[j] < 0.0 && Unmoved(c, j)
    ensures Seen(c, j) == 1.0 - c[j]
  {
    PeakIsHighest(c[..j + 1]);
    hide Running;
    var i :| 0 <= i < j + 1 && c[..j + 1][i] == Running(c[..j + 1]).0;
    assert c[i] == 1.0;
  }

  lemma DeepestFirstIsMaximal(c: seq<real>, j: nat)
    requires c != [] && c[0] == 1.0 && DeepestFirst(c, j)
    ensures MaxDrawdown(c, Running(c).1)
  {
    hide Fall, Running, NoDeeper, Unmoved, Seen, FallsBelow;
    SeenUnmoved(c, j);
    RunningCovers(c, j);
    RunningIsFall(c);
    NoDeeperIff(c, c[j], 1.0 - c[j]);
    FallIsBelow(c, Running(c).1, 1.0 - c[j]);
  }

  lemma FallIsBelow(c: seq<real>, m: real, d: real)
    requires (exists i, j :: FallOf(c, i, j, m)) && forall k :: FallsBelow(c, k, d)
    ensures m <= d
  {
    hide Fall;
    var i, k :| FallOf(c, i, k, m);
    assert FallsBelow(c, k, d);
  }

  lemma FallAboveOne(from: real, to: real)
    requires from > 0.0
    ensures Fall(from, to) > 1.0 <==> to < 0.0
  {
    FallWithin(from, to, 0.0);
  }

  lemma MaximalIsDeepestFirst(c: seq<real>, n: nat) returns (j: nat)
    requires c != [] && c[0] == 1.0 && n < |c| && c[n] < 0.0 && MaxDrawdown(c, Running(c).1)
    ensures DeepestFirst(c, j)
  {
    hide Fall, NoDeeper, IsPeak, Unmoved;
    j := RunningIsSeen(c);
    var m, peak := Running(c).1, Running(c[..j + 1]).0;
    hide Running;
    FallAboveOne(1.0, c[n]);
    FallAboveOne(peak, c[j]);
    assert FallsBelow(c, n, m) && Fall(c[0], c[n]) <= m;
    PositiveIsPeak(c, j, peak);
    assert c[0] == peak;
    SeenUnmoved(c, j);
    NoDeeperIff(c, c[j], m);
  }

  lemma PositiveIsPeak(c: seq<real>, j: nat, peak: real)
    requires j < |c| && c[0] == 1.0 && peak == Running(c[..j + 1]).0 && c[j] < 0.0
    requires FallsBelow(c, j, Fall(peak, c[j]))
    ensures peak == 1.0 && Unmoved(c, j)
  {
    PeakIsHighest(c[..j + 1]);
    hide Fall, Running;
    forall i | 0 <= i < j && c[i] > 0.0
      ensures c[i] == peak
    {
      assert c[..j + 1][i] == c[i] <= peak;
      FallBelowZero(c[i], peak, c[j]);
    }
    assert c[0] == peak;
  }

  /**
    On every curve: the running drawdown is the greatest fall between any two points iff equity is never
    below zero, or falls deepest, for where it fell from, before it was at another positive value than 1.
   */
  lemma RunningIsMaximalIff(c: seq<real>)
    requires c != [] && c[0] == 1.0
    ensures MaxDrawdown(c, Running(c).1) <==> NonNegative(c) || exists j :: DeepestFirst(c, j)
  {
    hide MaxDrawdown, Running, DeepestFirst;
    if NonNegative(c) {
      RunningIsMaximal(c);
    } else if j :| DeepestFirst(c, j) {
      assert 0 <= j by { InRange(c, j); }
      DeepestFirstIsMaximal(c, j);
    } else if MaxDrawdown(c, Running(c).1) {
      var n :| 0 <= n < |c| && c[n] < 0.0;
      var j := MaximalIsDeepestFirst(c, n);
    }
  }

  lemma InRange(c: seq<real>, j: int)
    requires DeepestFirst(c, j)
    ensures 0 <= j < |c|
  {
  }

  /** A drawdown that some fall on the curve exceeds. */
  ghost predicate Understated(c: seq<real>, m: real) {
    exists i, j :: 0 <= i <= j < |c| && c[i] > 0.0 && Fall(c[i], c[j]) > m
  }

  lemma UnderstatedIffNotMaximal(c: seq<real>)
    requires c != [] && c[0] == 1.0
    ensures Understated(c, Running(c).1) <==> !MaxDrawdown(c, Running(c).1)
  {
    RunningIsFall(c);
    hide Fall, Running;
    if !MaxDrawdown(c, Running(c).1) {
      var j :| !FallsBelow(c, j, Running(c).1);
    } else {
      forall i, j | 0 <= i <= j < |c| && c[i] > 0.0
        ensures Fall(c[i], c[j]) <= Running(c).1
      {
        assert FallsBelow(c, j, Running(c).1);
      }
    }
  }

  lemma OnlyAtRuin(c: seq<real>, f: nat, j: int)
    requires f < |c| && NonNegative(c[..f]) && DeepestFirst(c, j)
    ensures f <= j && Unmoved(c, f)
  {
    forall i | 0 <= i < f
      ensures c[i] >= 0.0
    {
      assert c[..f][i] == c[i];
    }
  }

  lemma FirstIsDeepest(c: seq<real>, f: nat)
    requires f + 1 == |c| && c[0] == 1.0 && NonNegative(c[..f]) && c[f] < 0.0 && Unmoved(c, f)
    ensures DeepestFirst(c, f)
  {
    forall i, k | 0 <= i <= k < |c| && c[i] > 0.0
      ensures c[k] >= c[f] * c[i]
    {
      if k < f {
        assert c[..f][k] == c[k] >= 0.0;
        assert c[f] * c[i] <= 0.0;
      }
    }
  }

  lemma RuinIsSeen(c: seq<real>, f: nat)
    requires f < |c| && c[0] == 1.0 && NonNegative(c[..f]) && c[f] < 0.0
    ensures Running(c[..f + 1]).1 == Fall(Running(c[..f]).0, c[f])
  {
    var front := c[..f + 1];
    assert front[..f] == c[..f] && front[..f + 1] == front;
    forall i | 0 <= i < f
      ensures front[i] >= 0.0
    {
      assert c[..f][i] == front[i];
    }
    var j := RunningIsSeen(front);
    RunningCovers(front, f);
    FallAboveOne(Running(front).0, c[f]);
    FallAboveOne(Running(front[..j + 1]).0, front[j]);
    hide Fall;
  }

  /**
    At the first point below zero the running drawdown is the fall from the peak, and the greatest fall exactly
    when equity had been at no other positive value than 1; when it had, the drawdown is understated from
    then on, whatever follows.
   */
  lemma FirstRuin(c: seq<real>, f: nat)
    requires f < |c| && c[0] == 1.0 && NonNegative(c[..f]) && c[f] < 0.0
    ensures Running(c[..f + 1]).1 == Fall(Running(c[..f]).0, c[f])
    ensures MaxDrawdown(c[..f + 1], Running(c[..f + 1]).1) <==> Unmoved(c, f)
    ensures !Unmoved(c, f) ==> Understated(c, Running(c).1)
  {
    var front := c[..f + 1];
    assert front[..f] == c[..f] && front[f] == c[f] && !NonNegative(front) && !NonNegative(c);
    assert Unmoved(front, f) == Unmoved(c, f);
    RuinIsSeen(c, f);
    RunningIsMaximalIff(front);
    RunningIsMaximalIff(c);
    UnderstatedIffNotMaximal(c);
    hide MaxDrawdown, Running, Fall, Understated, DeepestFirst, Unmoved, NonNegative;
    if Unmoved(c, f) {
      FirstIsDeepest(front, f);
    } else {
      forall j
        ensures !DeepestFirst(c, j) && !DeepestFirst(front, j)
      {
        if DeepestFirst(c, j) {
          OnlyAtRuin(c, f, j);
        }
        if DeepestFirst(front, j) {
          OnlyAtRuin(front, f, j);
        }
      }
    }
  }

  /**
    A doubling and a loss of twice the account: the running peak reports 200 % where 300 % were lost
    since the start.
   */
  lemma RuinIsUnderstated(day: Day)
    ensures var ev := [Trade(0, 1, 1.0, day), Trade(2, 3, -2.0, day)];
      && Taken(ev, 2, 1).0 == ev && Curve(ev) == [1.0, 2.0, -2.0]
      && Running(Curve(ev)).1 == 2.0 && Fall(Curve(ev)[0], Curve(ev)[2]) == 3.0
  {
    var a, b := Trade(0, 1, 1.0, day), Trade(2, 3, -2.0, day);
    var ev := [a, b];
    NothingTaken(ev, 1);
    assert StillOpen([], 2) == [] && Curve([]) == [1.0] && Running([1.0]) == (1.0, 0.0);
    hide Taken, StillOpen, Curve, Running;
    StillOpenGrows([], 1, 2);
    TakenStep(ev, 0, 1, [], [], []);
    TakenStep(ev, 1, 1, [] + [a], [] + [1], [] + []);
    assert [] + [a] + [b] == ev;
    CurveGrows([], a);
    CurveGrows([] + [a], b);
    RunningGrows([1.0], 2.0);
    RunningGrows([1.0] + [2.0], -2.0);
    assert [1.0] + [2.0] + [-2.0] == [1.0, 2.0, -2.0];
  }

  /** Returns of at least -100 % keep equity non-negative. */
  lemma {:induction false} NoRuin(ts: seq<Trade>)
    requires forall i | 0 <= i < |ts| :: ts[i].ret >= -1.0
    ensures NonNegative(Curve(ts))
  {
    if ts != [] {
      NoRuin(ts[..|ts| - 1]);
      var c := Curve(ts[..|ts| - 1]);
      NonNegativeProduct(c[|c| - 1], 1.0 + ts[|ts| - 1].ret);
    }
  }

  lemma NonNegativeProduct(a: real, b: real)
    requires a >= 0.0 && b >= 0.0
    ensures a * b >= 0.0
  {
  }

  lemma {:induction false} CurveStarts(ts: seq<Trade>)
    ensures Curve(ts)[0] == 1.0
  {
    if ts != [] {
      CurveStarts(ts[..|ts| - 1]);
    }
  }

  /** `[y for y in open_ if y > e]` */
  method Pruned(open: seq<int>, now: int) returns (left: seq<int>)
    ensures left == StillOpen(open, now)
  {
    left := [];
    var i := 0;
    while i < |open|
      invariant 0 <= i <= |open| && left == StillOpen(open[..i], now)
    {
      assert open[..i + 1][..i] == open[..i];
      if open[i] > now {
        left := left + [open[i]];
      }
      i := i + 1;
    }
    assert open[..i] == open;
  }

  lemma RunningGrows(c: seq<real>, e: real)
    requires c != [] && c[0] == 1.0
    ensures (c + [e])[0] == 1.0
    ensures var (peak, mdd) := Running(c); var top := if peak < e then e else peak;
      Running(c + [e]) == (top, if mdd < Fall(top, e) then Fall(top, e) else mdd)
  {
  }

  ghost predicate Plotted(curve: seq<(Day, real)>, ts: seq<Trade>) {
    |curve| == |ts| && forall i | 0 <= i < |ts| :: curve[i] == (ts[i].day, Curve(ts)[i + 1])
  }

  lemma PlottedGrows(curve: seq<(Day, real)>, ts: seq<Trade>, t: Trade)
    requires Plotted(curve, ts)
    ensures Plotted(curve + [(t.day, Curve(ts + [t])[|ts| + 1])], ts + [t])
  {
  }

  lemma TakenUnfolds(ev: seq<Trade>, n: nat, cap: int)
    requires 0 < n <= |ev|
    ensures var (ts, open) := Taken(ev, n - 1, cap); var left := StillOpen(open, ev[n - 1].entry);
      Taken(ev, n, cap) == if |left| >= cap then (ts, left) else (ts + [ev[n - 1]], left + [ev[n - 1].exit])
  {
  }

  /** The account over the trades taken under the cap. */
  method Equity(ev: seq<Trade>, cap: int) returns (eq: real, mdd: real, dayRet: map<Day, real>, curve: seq<(Day, real)>)
    ensures var taken := Taken(ev, |ev|, cap).0; var c := Curve(taken);
      && c[0] == 1.0 && eq == c[|taken|] == Growth(taken) && mdd == Running(c).1
      && (MaxDrawdown(c, mdd) <==> NonNegative(c) || exists j :: DeepestFirst(c, j))
      && DayReturns(dayRet, taken) && Plotted(curve, taken)
  {
    var peak := 1.0;
    ghost var taken: seq<Trade> := [];
    eq, mdd, dayRet, curve := 1.0, 0.0, map[], [];
    var open: seq<int> := [];
    CurveStarts(taken);
    assert Curve([]) == [1.0] && Running([1.0]) == (1.0, 0.0) && DayReturns(map[], []);
    assert Plotted(curve, taken) && (taken, open) == Taken(ev, 0, cap);
    hide Taken, StillOpen, Running, MaxDrawdown, DayReturns, Curve, NonNegative, DaySum, Compounded, Fall;
    hide Growth, Plotted, DeepestFirst;
    var n := 0;
    while n < |ev|
      invariant 0 <= n <= |ev| && (taken, open) == Taken(ev, n, cap) && Curve(taken)[0] == 1.0
      invariant eq == Curve(taken)[|taken|] && (peak, mdd) == Running(Curve(taken)) && DayReturns(dayRet, taken)
      invariant Plotted(curve, taken)
    {
      var e := ev[n];
      n := n + 1;
      open := Pruned(open, e.entry);
      TakenUnfolds(ev, n, cap);
      if |open| >= cap {
        continue;
      }
      CurveGrows(taken, e);
      RunningGrows(Curve(taken), Compounded(eq, e.ret));
      DayReturnsGrow(dayRet, taken, e);
      PlottedGrows(curve, taken, e);
      open := open + [e.exit];
      eq := Compounded(eq, e.ret);
      peak := if peak < eq then eq else peak;
      mdd := if mdd < Fall(peak, eq) then Fall(peak, eq) else mdd;
      dayRet := dayRet[e.day := (if e.day in dayRet then dayRet[e.day] else 0.0) + e.ret];
      curve := curve + [(e.day, eq)];
      taken := taken + [e];
    }
    RunningIsMaximalIff(Curve(taken));
    CurveIsGrowth(taken, |taken|);
    assert taken[..|taken|] == taken;
  }

  // ---------------------------------------------------------------- the ledger's drawdown

  function Sum(xs: seq<real>): real {
    if xs == [] then 0.0 else Sum(xs[..|xs| - 1]) + xs[|xs| - 1]
  }

  ghost predicate RunSum(xs: seq<real>, i: int, j: int, m: real) {
    0 <= i <= j <= |xs| && m == Sum(xs[i..j])
  }

  ghost predicate Lowest(xs: seq<real>, j: int, m: real) {
    0 <= j <= |xs| ==> forall i | 0 <= i <= j :: m <= Sum(xs[i..j])
  }

  /** `m` is the least total of any stretch of consecutive trades, the empty one included. */
  ghost predicate WorstRun(xs: seq<real>, m: real) {
    (forall j :: Lowest(xs, j, m)) && exists i, j :: RunSum(xs, i, j, m)
  }

  /** The total after i trades. */
  function Level(xs: seq<real>, i: nat): real
    requires i <= |xs|
  {
    Sum(xs[..i])
  }

  /** The peak is the highest total so far, from 0. */
  ghost predicate HighWater(xs: seq<real>, peak: real) {
    (forall i | 0 <= i <= |xs| :: Level(xs, i) <= peak) && exists i | 0 <= i <= |xs| :: Level(xs, i) == peak
  }

  lemma {:induction false} SumSplits(xs: seq<real>, i: nat, j: nat)
    requires i <= j <= |xs|
    ensures Sum(xs[i..j]) == Level(xs, j) - Level(xs, i)
    decreases j
  {
    if i < j {
      SumSplits(xs, i, j - 1);
      assert xs[i..j][..j - 1 - i] == xs[i..j - 1] && xs[..j][..j - 1] == xs[..j - 1];
    }
  }

  lemma SumGrows(xs: seq<real>, x: real)
    ensures Sum(xs + [x]) == Sum(xs) + x
  {
  }

  lemma SameLevel(xs: seq<real>, x: real, i: nat)
    requires i <= |xs|
    ensures Level(xs + [x], i) == Level(xs, i)
  {
    assert (xs + [x])[..i] == xs[..i];
  }

  lemma HighWaterGrows(xs: seq<real>, x: real, peak: real)
    requires HighWater(xs, peak)
    ensures HighWater(xs + [x], if peak < Sum(xs) + x then Sum(xs) + x else peak)
  {
    hide Sum, Level;
    var ys := xs + [x];
    SumGrows(xs, x);
    WholeLevel(ys);
    forall i | 0 <= i <= |xs|
      ensures Level(ys, i) == Level(xs, i)
    {
      SameLevel(xs, x, i);
    }
    var i :| 0 <= i <= |xs| && Level(xs, i) == peak;
    assert Level(ys, i) == peak;
  }

  lemma WorstRunGrows(xs: seq<real>, x: real, peak: real, dd: real)
    requires HighWater(xs, peak) && WorstRun(xs, dd)
    ensures var cum := Sum(xs) + x; var top := if peak < cum then cum else peak;
      WorstRun(xs + [x], if cum - top < dd then cum - top else dd)
  {
    hide Sum, HighWater;
    var ys, cum := xs + [x], Sum(xs) + x;
    var top := if peak < cum then cum else peak;
    var dd' := if cum - top < dd then cum - top else dd;
    SumGrows(xs, x);
    HighWaterGrows(xs, x, peak);
    forall j
      ensures Lowest(ys, j, dd')
    {
      if 0 <= j <= |xs| {
        assert Lowest(xs, j, dd);
        assert forall i | 0 <= i <= j :: ys[i..j] == xs[i..j];
      } else if j == |ys| {
        LastRun(ys, top);
      }
    }
    if cum - top < dd {
      HighestRun(ys, top);
    } else {
      var i, j :| RunSum(xs, i, j, dd);
      assert ys[i..j] == xs[i..j];
      assert RunSum(ys, i, j, dd);
    }
  }

  lemma WholeLevel(xs: seq<real>)
    ensures Level(xs, |xs|) == Sum(xs)
  {
    assert xs[..|xs|] == xs;
  }

  lemma LastRun(xs: seq<real>, top: real)
    requires HighWater(xs, top)
    ensures Lowest(xs, |xs|, Sum(xs) - top)
  {
    hide Sum, Level;
    WholeLevel(xs);
    forall i | 0 <= i <= |xs|
      ensures Sum(xs) - top <= Sum(xs[i..|xs|])
    {
      SumSplits(xs, i, |xs|);
      assert Level(xs, i) <= top;
    }
  }

  lemma HighestRun(xs: seq<real>, top: real)
    requires HighWater(xs, top)
    ensures var m := Sum(xs) - top; exists i, j :: RunSum(xs, i, j, m)
  {
    hide Sum, Level;
    WholeLevel(xs);
    var i :| 0 <= i <= |xs| && Level(xs, i) == top;
    SumSplits(xs, i, |xs|);
    assert RunSum(xs, i, |xs|, Sum(xs) - top);
  }

  lemma NoTrades()
    ensures HighWater([], 0.0) && WorstRun([], 0.0)
  {
    var none: seq<real> := [];
    assert none[..0] == [] && none[0..0] == [];
    assert Level(none, 0) == 0.0;
    assert RunSum(none, 0, 0, 0.0);
  }

  /** A missing profit counts as zero. */
  function Values(pnls: seq<Option<real>>): (xs: seq<real>)
    ensures |xs| == |pnls|
  {
    seq(|pnls|, i requires 0 <= i < |pnls| => if pnls[i].Some? then pnls[i].value else 0.0)
  }

  lemma NextValue(pnls: seq<Option<real>>, i: nat)
    requires i < |pnls|
    ensures Values(pnls)[..i + 1] == Values(pnls)[..i] + [if pnls[i].Some? then pnls[i].value else 0.0]
  {
  }

  /** The block ledger's drawdown over the decided trades in opening order: the worst stretch of consecutive ones. */
  method LedgerDrawdown(pnls: seq<Option<real>>) returns (dd: real)
    ensures WorstRun(Values(pnls), dd)
  {
    var cum, peak := 0.0, 0.0;
    dd := 0.0;
    ghost var xs: seq<real> := [];
    ghost var all := Values(pnls);
    NoTrades();
    assert Sum([]) == 0.0;
    hide Sum, HighWater, WorstRun, Values;
    var i := 0;
    while i < |pnls|
      invariant 0 <= i <= |pnls| == |all| && xs == all[..i]
      invariant cum == Sum(xs) && HighWater(xs, peak) && WorstRun(xs, dd)
    {
      var x := if pnls[i].Some? then pnls[i].value else 0.0;
      NextValue(pnls, i);
      WorstRunGrows(xs, x, peak, dd);
      HighWaterGrows(xs, x, peak);
      SumGrows(xs, x);
      cum := cum + x;
      peak := if peak < cum then cum else peak;
      dd := if cum - peak < dd then cum - peak else dd;
      xs := xs + [x];
      i := i + 1;
    }
    assert all[..|all|] == all;
  }
}
