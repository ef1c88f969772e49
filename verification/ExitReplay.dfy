/**
  Exits replayed on the true path (backend/scripts/hybrid_mp_bias_audit.py:82-108).

  Prices are exact reals already multiplied by the trade's side, so that up is favourable.  Profit is
  per unit before the division by the risk.
 */
module ExitReplay {

  /** `targets` are T1 to T4. */
  datatype Setup = Setup(stop: real, entry: real, targets: seq<real>)

  datatype Ending = Stopped | TargetsDone | RanOut
  /** `hits` quarters closed at targets; the rest, if any, closed at tick `at` the way `ending` says. */
  datatype Exit = Exit(pnl: real, hits: nat, at: nat, ending: Ending)

  predicate Valid(x: Setup) {
    |x.targets| == 4
  }

  // ---------------------------------------------------------------- tick by tick

  /** The stop in force after `hits` targets. */
  function StopAfter(x: Setup, hits: nat): real {
    if hits == 0 then x.stop else x.entry
  }

  function Remaining(hits: nat): real {
    1.0 - 0.25 * hits as real
  }

  /** Profit of what remains, closed at a gain of `gain` a unit. */
  function Part(hits: nat, gain: real): real {
    Remaining(hits) * gain
  }

  /** Profit of the quarters closed at the first `hits` targets. */
  function Banked(x: Setup, hits: nat): real
    requires Valid(x) && hits <= 4
  {
    if hits == 0 then 0.0 else Banked(x, hits - 1) + 0.25 * (x.targets[hits - 1] - x.entry)
  }

  /** From tick i on with `hits` targets taken: at each tick targets come first, then the stop. */
  function Simulate(seg: seq<real>, x: Setup, i: nat, hits: nat): (e: Exit)
    requires Valid(x) && seg != [] && i <= |seg| && hits <= 4
    decreases |seg| - i + 4 - hits
  {
    if hits == 4 then Exit(Banked(x, 4), 4, i, TargetsDone)
    else if i == |seg| then Exit(Banked(x, hits) + Part(hits, seg[|seg| - 1] - x.entry), hits, |seg| - 1, RanOut)
    else if seg[i] >= x.targets[hits] then Simulate(seg, x, i, hits + 1)
    else if seg[i] <= StopAfter(x, hits) then
      Exit(Banked(x, hits) + Part(hits, StopAfter(x, hits) - x.entry), hits, i, Stopped)
    else Simulate(seg, x, i + 1, hits)
  }

  // ---------------------------------------------------------------- first-hit indices

  /** `np.flatnonzero(sub <= level)[0]`, counted from the start of the path, or the length if there is none. */
  method FirstAtMost(seg: seq<real>, i: nat, level: real) returns (k: nat)
    requires i <= |seg|
    ensures i <= k <= |seg| && (k < |seg| ==> seg[k] <= level) && forall j | i <= j < k :: seg[j] > level
  {
    k := i;
    while k < |seg| && seg[k] > level
      invariant i <= k <= |seg| && forall j | i <= j < k :: seg[j] > level
    {
      k := k + 1;
    }
  }

  method FirstAtLeast(seg: seq<real>, i: nat, level: real) returns (k: nat)
    requires i <= |seg|
    ensures i <= k <= |seg| && (k < |seg| ==> seg[k] >= level) && forall j | i <= j < k :: seg[j] < level
  {
    k := i;
    while k < |seg| && seg[k] < level
      invariant i <= k <= |seg| && forall j | i <= j < k :: seg[j] < level
    {
      k := k + 1;
    }
  }

  lemma {:induction false} SkipTicks(seg: seq<real>, x: Setup, i: nat, k: nat, hits: nat)
    requires Valid(x) && seg != [] && i <= k <= |seg| && hits < 4
    requires forall j | i <= j < k :: seg[j] < x.targets[hits] && seg[j] > StopAfter(x, hits)
    ensures Simulate(seg, x, i, hits) == Simulate(seg, x, k, hits)
    decreases k - i
  {
    if i < k {
      SkipTicks(seg, x, i + 1, k, hits);
    }
  }

  /** Quarters at T1 to T4, stop to the entry after T1, by first-hit indices. */
  method EvalScaleBe(seg: seq<real>, x: Setup) returns (exit: Exit)
    requires Valid(x) && seg != []
    ensures exit == Simulate(seg, x, 0, 0)
  {
    var pos, hits: nat, cur, remain, pnl := 0, 0, x.stop, 1.0, 0.0;
    while remain > 0.000000001
      invariant hits <= 4 && pos <= |seg| && (hits < 4 ==> pos < |seg|)
      invariant cur == StopAfter(x, hits) && remain == Remaining(hits) && pnl == Banked(x, hits)
      invariant Simulate(seg, x, 0, 0) == Simulate(seg, x, pos, hits)
      decreases 4 - hits
    {
      assert hits < 4;
      var ia := FirstAtMost(seg, pos, cur);
      var ib := FirstAtLeast(seg, pos, x.targets[hits]);
      SkipTicks(seg, x, pos, if ia < ib then ia else ib, hits);
      if ia == |seg| && ib == |seg| {
        return Exit(pnl + remain * (seg[|seg| - 1] - x.entry), hits, |seg| - 1, RanOut);
      }
      if ia < ib {
        return Exit(pnl + remain * (cur - x.entry), hits, ia, Stopped);
      }
      pnl := pnl + 0.25 * (x.targets[hits] - x.entry);
      remain := remain - 0.25;
      pos := ib;
      hits := hits + 1;
      if hits == 1 {
        cur := x.entry;
      }
      if hits == 4 {
        break;
      }
    }
    return Exit(pnl, hits, pos, TargetsDone);
  }

  // ---------------------------------------------------------------- what the exit means

  /** The stop below the entry and the targets above it, in order. */
  predicate Ordered(x: Setup) {
    Valid(x) && x.stop < x.entry < x.targets[0] < x.targets[1] < x.targets[2] < x.targets[3]
  }

  ghost predicate ReachedBy(seg: seq<real>, level: real, at: int) {
    exists k | 0 <= k < |seg| && k <= at :: seg[k] >= level
  }

  lemma Reached(seg: seq<real>, level: real, at: nat)
    requires at < |seg|
    ensures seg[at] >= level ==> ReachedBy(seg, level, at)
    ensures ReachedBy(seg, level, at) && (forall k | 0 <= k < at :: seg[k] < level) ==> seg[at] >= level
  {
  }

  lemma ReachedMono(seg: seq<real>, level: real, higher: real, at: int, later: int)
    requires ReachedBy(seg, higher, at) && level <= higher && at <= later
    ensures ReachedBy(seg, level, later)
  {
    var k :| 0 <= k < |seg| && k <= at && seg[k] >= higher;
    assert seg[k] >= level && k <= later;
  }

  /** Before tick i, with `hits` targets taken: all of them reached, the next one not, the stop in force not touched. */
  ghost predicate SoFar(seg: seq<real>, x: Setup, i: nat, hits: nat)
    requires Valid(x)
  {
    && hits <= 4
    && (hits > 0 ==> ReachedBy(seg, x.targets[hits - 1], i))
    && (forall k | 0 <= k < i && k < |seg| :: seg[k] < x.targets[if hits < 4 then hits else 3] && seg[k] > x.stop)
  }

  /**
    The exit in terms of the path: the hits are exactly the targets the path reaches up to the exit,
    and a stop is touched at the exit tick while the initial stop was never touched before.
   */
  ghost predicate Explains(seg: seq<real>, x: Setup, e: Exit)
    requires Valid(x)
  {
    && e.hits <= 4 && e.at < |seg|
    && (e.hits > 0 ==> ReachedBy(seg, x.targets[e.hits - 1], e.at))
    && (e.hits < 4 ==> forall k | 0 <= k <= e.at :: seg[k] < x.targets[e.hits])
    && (forall k | 0 <= k < e.at :: seg[k] > x.stop)
    && match e.ending
       case TargetsDone => e.hits == 4 && e.pnl == Banked(x, 4) && forall k | 0 <= k < e.at :: seg[k] < x.targets[3]
       case Stopped => e.hits < 4 && seg[e.at] <= StopAfter(x, e.hits)
                       && e.pnl == Banked(x, e.hits) + Part(e.hits, StopAfter(x, e.hits) - x.entry)
       case RanOut => e.hits < 4 && e.at == |seg| - 1 && seg[e.at] > StopAfter(x, e.hits)
                      && e.pnl == Banked(x, e.hits) + Part(e.hits, seg[e.at] - x.entry)
  }

  lemma {:induction false} SimulateExplains(seg: seq<real>, x: Setup, i: nat, hits: nat)
    requires Ordered(x) && seg != [] && i <= |seg| && SoFar(seg, x, i, hits) && (hits == 4 ==> i < |seg|)
    requires i > 0 && hits < 4 && i == |seg| ==> seg[i - 1] > StopAfter(x, hits)
    ensures Explains(seg, x, Simulate(seg, x, i, hits))
    decreases |seg| - i + 4 - hits
  {
    hide Banked, Remaining, ReachedBy;
    if hits < 4 && i < |seg| {
      if seg[i] >= x.targets[hits] {
        Reached(seg, x.targets[hits], i);
        SimulateExplains(seg, x, i, hits + 1);
      } else if seg[i] > StopAfter(x, hits) {
        if hits > 0 {
          ReachedMono(seg, x.targets[hits - 1], x.targets[hits - 1], i, i + 1);
        }
        SimulateExplains(seg, x, i + 1, hits);
      }
    } else if i == |seg| && hits > 0 {
      LastTick(seg, x.targets[hits - 1]);
    }
  }

  lemma LastTick(seg: seq<real>, level: real)
    requires ReachedBy(seg, level, |seg|)
    ensures ReachedBy(seg, level, |seg| - 1)
  {
  }

  lemma ScaleBeExplained(seg: seq<real>, x: Setup)
    requires Ordered(x) && seg != []
    ensures Explains(seg, x, Simulate(seg, x, 0, 0))
  {
    SimulateExplains(seg, x, 0, 0);
  }

  // ---------------------------------------------------------------- quarters

  function FractionSum(fills: seq<(real, real)>): real {
    if fills == [] then 0.0 else FractionSum(fills[..|fills| - 1]) + fills[|fills| - 1].1
  }

  function ProfitSum(fills: seq<(real, real)>, entry: real): real {
    if fills == [] then 0.0
      else ProfitSum(fills[..|fills| - 1], entry) + fills[|fills| - 1].1 * (fills[|fills| - 1].0 - entry)
  }

  function TargetFills(x: Setup, hits: nat): seq<(real, real)>
    requires Valid(x) && hits <= 4
  {
    if hits == 0 then [] else TargetFills(x, hits - 1) + [(x.targets[hits - 1], 0.25)]
  }

  /** Price and fraction of every part of the position. */
  function Fills(seg: seq<real>, x: Setup, e: Exit): seq<(real, real)>
    requires Valid(x) && e.hits <= 4 && e.at < |seg|
  {
    TargetFills(x, e.hits) +
    match e.ending
    case TargetsDone => []
    case Stopped => [(StopAfter(x, e.hits), Remaining(e.hits))]
    case RanOut => [(seg[e.at], Remaining(e.hits))]
  }

  lemma {:induction false} TargetFillsBalance(x: Setup, hits: nat)
    requires Valid(x) && hits <= 4
    ensures FractionSum(TargetFills(x, hits)) == 0.25 * hits as real &&
      ProfitSum(TargetFills(x, hits), x.entry) == Banked(x, hits)
  {
    if hits > 0 {
      TargetFillsBalance(x, hits - 1);
      var fills := TargetFills(x, hits);
      assert fills[..|fills| - 1] == TargetFills(x, hits - 1);
    }
  }

  lemma OneMoreFill(fills: seq<(real, real)>, price: real, hits: nat, entry: real)
    ensures FractionSum(fills + [(price, Remaining(hits))]) == FractionSum(fills) + Remaining(hits)
    ensures ProfitSum(fills + [(price, Remaining(hits))], entry) == ProfitSum(fills, entry) + Part(hits, price - entry)
  {
    assert (fills + [(price, Remaining(hits))])[..|fills|] == fills;
  }

  /** The closed fractions add up to one, and the profit is theirs. */
  lemma FillsBalance(seg: seq<real>, x: Setup, e: Exit)
    requires Valid(x) && seg != [] && Explains(seg, x, e)
    ensures FractionSum(Fills(seg, x, e)) == 1.0 && ProfitSum(Fills(seg, x, e), x.entry) == e.pnl
  {
    hide Banked, ReachedBy, Part, FractionSum, ProfitSum, TargetFills;
    TargetFillsBalance(x, e.hits);
    var taken := TargetFills(x, e.hits);
    OneMoreFill(taken, StopAfter(x, e.hits), e.hits, x.entry);
    OneMoreFill(taken, seg[e.at], e.hits, x.entry);
    assert taken + [] == taken;
  }

  // ---------------------------------------------------------------- bounds

  lemma BankedSteps(x: Setup)
    requires Valid(x)
    ensures Banked(x, 0) == 0.0 && Banked(x, 1) == 0.25 * (x.targets[0] - x.entry)
    ensures Banked(x, 2) == Banked(x, 1) + 0.25 * (x.targets[1] - x.entry)
    ensures Banked(x, 3) == Banked(x, 2) + 0.25 * (x.targets[2] - x.entry)
    ensures Banked(x, 4) == Banked(x, 3) + 0.25 * (x.targets[3] - x.entry)
  {
    assert Banked(x, 0) == 0.0;
    assert Banked(x, 1) == Banked(x, 0) + 0.25 * (x.targets[0] - x.entry);
    assert Banked(x, 2) == Banked(x, 1) + 0.25 * (x.targets[1] - x.entry);
  }

  lemma PartMono(hits: nat, a: real, b: real)
    requires hits <= 4 && a <= b
    ensures Part(hits, a) <= Part(hits, b) && Part(hits, 0.0) == 0.0 && Part(0, a) == a
  {
    assert Remaining(hits) >= 0.0;
    assert Remaining(hits) * (b - a) >= 0.0;
  }

  lemma BankedBounds(x: Setup, hits: nat)
    requires Ordered(x) && hits <= 4
    ensures hits > 0 ==> Banked(x, hits) >= 0.25 * (x.targets[0] - x.entry)
    ensures hits < 4 ==> Banked(x, hits) + Part(hits, x.targets[hits] - x.entry) <= Banked(x, 4)
    ensures Banked(x, hits) <= Banked(x, 4) && Banked(x, 0) == 0.0
  {
    hide Banked, Part, Remaining;
    BankedSteps(x);
    PartValues(x.targets[0] - x.entry, x.targets[1] - x.entry, x.targets[2] - x.entry, x.targets[3] - x.entry);
    if hits == 0 {
    } else if hits == 1 {
    } else if hits == 2 {
    } else if hits == 3 {
    }
  }

  lemma PartValues(a: real, b: real, c: real, d: real)
    ensures Part(0, a) == a && Part(1, b) == 0.75 * b && Part(2, c) == 0.5 * c && Part(3, d) == 0.25 * d
  {
    assert Remaining(0) == 1.0 && Remaining(1) == 0.75 && Remaining(2) == 0.5 && Remaining(3) == 0.25;
  }

  /** What remains is closed between the stop in force and the next target. */
  lemma PartBounds(x: Setup, hits: nat, gain: real)
    requires Ordered(x) && hits < 4 && StopAfter(x, hits) - x.entry <= gain <= x.targets[hits] - x.entry
    ensures Banked(x, hits) + Part(hits, gain) <= Banked(x, 4)
    ensures hits == 0 ==> Part(0, gain) == gain && Banked(x, 0) == 0.0
    ensures hits > 0 ==> Banked(x, hits) + Part(hits, gain) >= 0.25 * (x.targets[0] - x.entry)
  {
    hide Part, Banked, Remaining;
    BankedBounds(x, hits);
    PartMono(hits, gain, x.targets[hits] - x.entry);
    PartMono(hits, StopAfter(x, hits) - x.entry, gain);
  }

  /** A trade loses at most its risk and earns at most all four targets; once T1 is hit it cannot lose. */
  lemma ScaleBeBounds(seg: seq<real>, x: Setup, e: Exit)
    requires Ordered(x) && Explains(seg, x, e)
    ensures x.stop - x.entry <= e.pnl <= Banked(x, 4)
    ensures e.hits > 0 ==> e.pnl >= 0.25 * (x.targets[0] - x.entry) > 0.0
    ensures e.hits == 0 && e.ending == Stopped ==> e.pnl == x.stop - x.entry
  {
    hide ReachedBy, Banked, Part, Remaining;
    match e.ending
    case TargetsDone =>
      BankedBounds(x, 4);
    case Stopped =>
      PartBounds(x, e.hits, StopAfter(x, e.hits) - x.entry);
    case RanOut =>
      PartBounds(x, e.hits, seg[e.at] - x.entry);
  }

  // ---------------------------------------------------------------- ties

  /** As Simulate, but at each tick the stop comes first. */
  function StopFirst(seg: seq<real>, x: Setup, i: nat, hits: nat): Exit
    requires Valid(x) && seg != [] && i <= |seg| && hits <= 4
    decreases |seg| - i + 4 - hits
  {
    if hits == 4 then Exit(Banked(x, 4), 4, i, TargetsDone)
    else if i == |seg| then Exit(Banked(x, hits) + Part(hits, seg[|seg| - 1] - x.entry), hits, |seg| - 1, RanOut)
    else if seg[i] <= StopAfter(x, hits) then
      Exit(Banked(x, hits) + Part(hits, StopAfter(x, hits) - x.entry), hits, i, Stopped)
    else if seg[i] >= x.targets[hits] then StopFirst(seg, x, i, hits + 1)
    else StopFirst(seg, x, i + 1, hits)
  }

  /** No tick can be at a target and at the stop in force at once. */
  predicate NoTies(x: Setup) {
    Valid(x) && x.stop < x.targets[0] && forall h | 1 <= h < 4 :: x.entry < x.targets[h]
  }

  lemma {:induction false} OrderOfChecks(seg: seq<real>, x: Setup, i: nat, hits: nat)
    requires NoTies(x) && seg != [] && i <= |seg| && hits <= 4
    ensures StopFirst(seg, x, i, hits) == Simulate(seg, x, i, hits)
    decreases |seg| - i + 4 - hits
  {
    if hits < 4 && i < |seg| {
      if seg[i] >= x.targets[hits] {
        OrderOfChecks(seg, x, i, hits + 1);
      } else if seg[i] > StopAfter(x, hits) {
        OrderOfChecks(seg, x, i + 1, hits);
      }
    }
  }

  lemma TieDiffers(x: Setup, h: nat)
    requires Valid(x) && h < 4 && x.targets[h] <= StopAfter(x, h)
    ensures StopFirst([x.targets[h]], x, 0, h) != Simulate([x.targets[h]], x, 0, h)
  {
    hide Banked, Part;
    var tick := [x.targets[h]];
    HitsGrow(tick, x, 0, h + 1);
    assert StopFirst(tick, x, 0, h).hits == h;
  }

  /** The order of the two checks never matters exactly when no level allows a tie. */
  lemma OrderMattersIffTies(x: Setup)
    requires Valid(x)
    ensures NoTies(x) <==> forall seg: seq<real>, i: nat, hits: nat | seg != [] && i <= |seg| && hits <= 4 ::
      StopFirst(seg, x, i, hits) == Simulate(seg, x, i, hits)
  {
    hide StopFirst, Simulate;
    if NoTies(x) {
      forall seg: seq<real>, i: nat, hits: nat | seg != [] && i <= |seg| && hits <= 4
        ensures StopFirst(seg, x, i, hits) == Simulate(seg, x, i, hits)
      {
        OrderOfChecks(seg, x, i, hits);
      }
    } else {
      var h: nat := if x.targets[0] <= x.stop then 0 else if x.targets[1] <= x.entry then 1
        else if x.targets[2] <= x.entry then 2 else 3;
      TieDiffers(x, h);
    }
  }

  lemma {:induction false} HitsGrow(seg: seq<real>, x: Setup, i: nat, hits: nat)
    requires Valid(x) && seg != [] && i <= |seg| && hits <= 4
    ensures Simulate(seg, x, i, hits).hits >= hits
    decreases |seg| - i + 4 - hits
  {
    if hits < 4 && i < |seg| {
      if seg[i] >= x.targets[hits] {
        HitsGrow(seg, x, i, hits + 1);
      } else {
        HitsGrow(seg, x, i + 1, hits);
      }
    }
  }

  // ---------------------------------------------------------------- entries beyond T1

  predicate Ascending(x: Setup) {
    Valid(x) && x.targets[0] < x.targets[1] < x.targets[2] < x.targets[3]
  }

  /**
    An entry filled above T1 (a gap through it): a path touching T1 below the entry books a losing
    quarter and stops the rest out on the same tick.
   */
  lemma EntryAboveTarget(seg: seq<real>, x: Setup)
    requires Valid(x) && seg != [] && x.targets[0] <= seg[0] <= x.entry && seg[0] < x.targets[1] &&
      x.targets[0] < x.entry
    ensures Simulate(seg, x, 0, 0) == Exit(0.25 * (x.targets[0] - x.entry), 1, 0, Stopped)
    ensures Simulate(seg, x, 0, 0).pnl < 0.0
  {
    assert Banked(x, 1) == Banked(x, 0) + 0.25 * (x.targets[0] - x.entry);
    assert Simulate(seg, x, 0, 0) == Simulate(seg, x, 0, 1);
  }

  predicate NoLossOnceHit(seg: seq<real>, x: Setup)
    requires Valid(x) && seg != []
  {
    var e := Simulate(seg, x, 0, 0);
    e.hits > 0 ==> e.pnl >= 0.0
  }

  lemma {:induction false} BankedGains(x: Setup, hits: nat)
    requires Ascending(x) && x.entry <= x.targets[0] && hits <= 4
    ensures Banked(x, hits) >= 0.0
  {
    if hits > 0 {
      BankedGains(x, hits - 1);
    }
  }

  lemma {:induction false} HitsDoNotLose(seg: seq<real>, x: Setup, i: nat, hits: nat)
    requires Ascending(x) && x.entry <= x.targets[0] && seg != [] && i <= |seg| && hits <= 4
    requires i == |seg| && 0 < hits < 4 ==> seg[i - 1] > x.entry
    ensures var e := Simulate(seg, x, i, hits); e.hits > 0 ==> e.pnl >= 0.0
    decreases |seg| - i + 4 - hits
  {
    hide Banked, Part;
    BankedGains(x, hits);
    if hits < 4 {
      if i == |seg| {
        if hits > 0 {
          PartMono(hits, 0.0, seg[i - 1] - x.entry);
        }
      } else if seg[i] >= x.targets[hits] {
        HitsDoNotLose(seg, x, i, hits + 1);
      } else if seg[i] > StopAfter(x, hits) {
        HitsDoNotLose(seg, x, i + 1, hits);
      } else {
        PartMono(hits, 0.0, 0.0);
      }
    }
  }

  /**
    With ascending targets, a trade that hit T1 never loses, on any path, exactly when it was entered
    at T1 or below.
   */
  lemma NoLossOnceHitIff(x: Setup)
    requires Ascending(x)
    ensures (forall seg: seq<real> | seg != [] :: NoLossOnceHit(seg, x)) <==> x.entry <= x.targets[0]
  {
    if x.entry <= x.targets[0] {
      forall seg: seq<real> | seg != []
        ensures NoLossOnceHit(seg, x)
      {
        HitsDoNotLose(seg, x, 0, 0);
      }
    } else {
      EntryAboveTarget([x.targets[0]], x);
      assert !NoLossOnceHit([x.targets[0]], x);
    }
  }

  // ---------------------------------------------------------------- all or nothing

  /** The whole position at the stop or at T4, whichever the path touches first; the stop on a tie. */
  function SimulatePine(seg: seq<real>, x: Setup, i: nat): real
    requires Valid(x) && seg != [] && i <= |seg|
    decreases |seg| - i
  {
    if i == |seg| then seg[|seg| - 1] - x.entry
    else if seg[i] <= x.stop then x.stop - x.entry
    else if seg[i] >= x.targets[3] then x.targets[3] - x.entry
    else SimulatePine(seg, x, i + 1)
  }

  lemma {:induction false} SkipPine(seg: seq<real>, x: Setup, i: nat, k: nat)
    requires Valid(x) && seg != [] && i <= k <= |seg|
    requires forall j | i <= j < k :: x.stop < seg[j] < x.targets[3]
    ensures SimulatePine(seg, x, i) == SimulatePine(seg, x, k)
    decreases k - i
  {
    if i < k {
      SkipPine(seg, x, i + 1, k);
    }
  }

  /** `i` is the first tick at or below the level, or the length of the path. */
  ghost predicate FirstDown(seg: seq<real>, level: real, i: nat) {
    i <= |seg| && (forall k | 0 <= k < i :: seg[k] > level) && (i < |seg| ==> seg[i] <= level)
  }

  ghost predicate FirstUp(seg: seq<real>, level: real, i: nat) {
    i <= |seg| && (forall k | 0 <= k < i :: seg[k] < level) && (i < |seg| ==> seg[i] >= level)
  }

  /** On every path: the stop if it is touched no later than T4, T4 if it is touched sooner, else the last tick. */
  lemma PineByFirstHits(seg: seq<real>, x: Setup, a: nat, b: nat)
    requires Valid(x) && seg != [] && FirstDown(seg, x.stop, a) && FirstUp(seg, x.targets[3], b)
    ensures SimulatePine(seg, x, 0) ==
      (if a < |seg| && a <= b then x.stop else if b < |seg| then x.targets[3] else seg[|seg| - 1]) - x.entry
  {
    SkipPine(seg, x, 0, if a <= b then a else b);
  }

  method EvalPine(seg: seq<real>, x: Setup) returns (pnl: real)
    requires Valid(x) && seg != []
    ensures pnl == SimulatePine(seg, x, 0)
  {
    var ia := FirstAtMost(seg, 0, x.stop);
    var ib := FirstAtLeast(seg, 0, x.targets[3]);
    SkipPine(seg, x, 0, if ia <= ib then ia else ib);
    if ia == |seg| && ib == |seg| {
      return seg[|seg| - 1] - x.entry;
    }
    return (if ia <= ib then x.stop else x.targets[3]) - x.entry;
  }

  /** Where scaling made no difference yet, or went all the way, both readings see the same path. */
  lemma PineAgrees(seg: seq<real>, x: Setup, e: Exit)
    requires Ordered(x) && seg != [] && Explains(seg, x, e)
    ensures e.hits == 0 ==> SimulatePine(seg, x, 0) == e.pnl
    ensures e.hits == 4 ==> SimulatePine(seg, x, 0) == x.targets[3] - x.entry
  {
    hide ReachedBy;
    if e.hits == 0 {
      assert Banked(x, 0) == 0.0;
      SkipPine(seg, x, 0, e.at);
      if e.ending == RanOut {
        SkipPine(seg, x, e.at, |seg|);
      }
    } else if e.hits == 4 {
      SkipPine(seg, x, 0, e.at);
      Reached(seg, x.targets[3], e.at);
    }
  }
}
