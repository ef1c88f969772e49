/**
  The 60/40 scale-out walk over five-minute bars
  (backend/scripts/high_conviction_runner_research.py, _walk_scaleout).

  Prices are exact reals; the final rounding of the reported multiples is dropped.
  A bar is seen from a side through its gains over the entry price, so that LONG and SHORT
  share one specification.  The tick-level result is the same walk on one bar per tick.
 */
module ScaleOutWalk {
  import opened Wrappers

  const LEG_A_FRAC: real := 0.6
  const LEG_B_FRAC: real := 0.4
  const LEG_A_TGT_R: real := 1.0
  const LEG_B_TGT_R: real := 3.0
  const MAX_MIN := 25

  datatype Bar = Bar(t: int, o: real, h: real, l: real, c: real)

  predicate ValidBar(b: Bar) {
    b.l <= b.o <= b.h && b.l <= b.c <= b.h
  }

  datatype Side = Long | Short

  /** Open, best, worst and close of a bar as gains over the entry. */
  datatype Gains = Gains(open: real, best: real, worst: real, close: real)

  function Seen(side: Side, entry: real, b: Bar): Gains {
    match side
    case Long => Gains(b.o - entry, b.h - entry, b.l - entry, b.c - entry)
    case Short => Gains(entry - b.o, entry - b.l, entry - b.h, entry - b.c)
  }

  function SeenAll(side: Side, entry: real, bars: seq<Bar>): (g: seq<Gains>)
    ensures |g| == |bars|
  {
    if bars == [] then [] else [Seen(side, entry, bars[0])] + SeenAll(side, entry, bars[1..])
  }

  lemma SeenTail(side: Side, entry: real, bars: seq<Bar>)
    requires bars != []
    ensures SeenAll(side, entry, bars)[0] == Seen(side, entry, bars[0])
    ensures SeenAll(side, entry, bars)[1..] == SeenAll(side, entry, bars[1..])
  {
  }

  // ---------------------------------------------------------------- the walk, as a specification

  predicate Breaks(b: Bar, hi: real, lo: real) {
    b.h >= hi || b.l <= lo
  }

  function SideOf(b: Bar, hi: real, lo: real): Side
    requires Breaks(b, hi, lo)
  {
    if b.h >= hi && b.l <= lo then (if b.c >= b.o then Long else Short)
    else if b.h >= hi then Long else Short
  }

  function EntryOf(side: Side, hi: real, lo: real): real {
    if side.Long? then hi else lo
  }

  /** The bars from the first break on. */
  function FromBreak(bars: seq<Bar>, hi: real, lo: real): (tail: seq<Bar>)
    ensures tail != [] ==> Breaks(tail[0], hi, lo)
  {
    if bars == [] || Breaks(bars[0], hi, lo) then bars else FromBreak(bars[1..], hi, lo)
  }

  /** Leg A in multiples of R: stop before target inside a bar, mark to market at the end. */
  function LegA(g: seq<Gains>, R: real): real
    requires g != [] && R > 0.0
  {
    if g[0].worst <= -R then -1.0
    else if g[0].best >= LEG_A_TGT_R * R then LEG_A_TGT_R
    else if |g| == 1 then g[0].close / R
    else LegA(g[1..], R)
  }

  /** Leg B: shares leg A's stop until leg A fills, then runs with its stop at the entry. */
  function LegB(g: seq<Gains>, R: real): real
    requires g != [] && R > 0.0
  {
    if g[0].worst <= -R then -1.0
    else if g[0].best >= LEG_A_TGT_R * R then
      if g[0].best >= LEG_B_TGT_R * R then LEG_B_TGT_R
      else if |g| == 1 then g[0].close / R
      else Runner(g[1..], R)
    else if |g| == 1 then g[0].close / R
    else LegB(g[1..], R)
  }

  function Runner(g: seq<Gains>, R: real): real
    requires g != [] && R > 0.0
  {
    if g[0].worst <= 0.0 then 0.0
    else if g[0].best >= LEG_B_TGT_R * R then LEG_B_TGT_R
    else if |g| == 1 then g[0].close / R
    else Runner(g[1..], R)
  }

  datatype Outcome =
    | NoTrade
    | NoTrigger
    | Triggered(side: Side, legA: real, legB: real)

  /** The walk over a segment, legs in multiples of R. */
  function Walk(seg: seq<Bar>, hi: real, lo: real): Outcome {
    if hi - lo <= 0.0 || seg == [] then NoTrade
    else
      var tail := FromBreak(seg, hi, lo);
      if tail == [] then NoTrigger
      else
        var side := SideOf(tail[0], hi, lo);
        var g := SeenAll(side, EntryOf(side, hi, lo), tail);
        Triggered(side, LegA(g, hi - lo), LegB(g, hi - lo))
  }

  function Segment(bars: seq<Bar>, mark: int): seq<Bar> {
    if bars == [] then []
    else (if mark < bars[0].t <= mark + MAX_MIN then [bars[0]] else []) + Segment(bars[1..], mark)
  }

  /** The bar stays inside the mark range. */
  predicate Inside(b: Bar, hi: real, lo: real) {
    lo < b.l && b.h < hi
  }

  lemma {:induction false} FromBreakAt(seg: seq<Bar>, hi: real, lo: real, k: nat)
    requires k <= |seg| && (forall i | 0 <= i < k :: Inside(seg[i], hi, lo))
    requires k < |seg| ==> !Inside(seg[k], hi, lo)
    ensures FromBreak(seg, hi, lo) == seg[k..]
  {
    if k > 0 {
      FromBreakAt(seg[1..], hi, lo, k - 1);
      assert seg[1..][k - 1..] == seg[k..];
    }
  }

  /** No trade without a range or bars; no trigger while every bar stays inside the range. */
  lemma WalkWithoutTrade(seg: seq<Bar>, hi: real, lo: real)
    ensures Walk(seg, hi, lo) == NoTrade <==> hi <= lo || seg == []
    ensures Walk(seg, hi, lo) == NoTrigger <==>
      hi > lo && seg != [] && forall i | 0 <= i < |seg| :: Inside(seg[i], hi, lo)
  {
    hide LegA, LegB, SeenAll;
    if hi > lo && seg != [] {
      if forall i | 0 <= i < |seg| :: Inside(seg[i], hi, lo) {
        FromBreakAt(seg, hi, lo, |seg|);
      } else {
        FirstOutside(seg, hi, lo);
      }
    }
  }

  lemma {:induction false} FirstOutside(seg: seq<Bar>, hi: real, lo: real)
    requires exists i | 0 <= i < |seg| :: !Inside(seg[i], hi, lo)
    ensures FromBreak(seg, hi, lo) != []
  {
    if Inside(seg[0], hi, lo) {
      var i :| 0 <= i < |seg| && !Inside(seg[i], hi, lo);
      assert !Inside(seg[1..][i - 1], hi, lo);
      FirstOutside(seg[1..], hi, lo);
    }
  }

  /**
    The first bar that leaves the range decides the side: LONG if it reaches the high and does not also
    reach the low, or reaches both and closes no lower than it opened; SHORT otherwise. The legs are those
    of the bars from there on, entered at the broken level.
   */
  lemma WalkSide(seg: seq<Bar>, hi: real, lo: real, k: nat)
    requires hi > lo && k < |seg| && (forall i | 0 <= i < k :: Inside(seg[i], hi, lo)) && !Inside(seg[k], hi, lo)
    ensures var side := if seg[k].h >= hi && (seg[k].l > lo || seg[k].c >= seg[k].o) then Long else Short;
      var g := SeenAll(side, if side == Long then hi else lo, seg[k..]);
      Walk(seg, hi, lo) == Triggered(side, LegA(g, hi - lo), LegB(g, hi - lo))
  {
    FromBreakAt(seg, hi, lo, k);
    hide LegA, LegB, SeenAll, FromBreak;
  }

  // ---------------------------------------------------------------- the bars a walk looks at

  /** `ix` picks out, in order, exactly the bars after the mark and at most 25 minutes past it. */
  ghost predicate InWindow(bars: seq<Bar>, mark: int, ix: seq<nat>) {
    && (forall i | 0 <= i < |ix| :: ix[i] < |bars|)
    && (forall i, j | 0 <= i < j < |ix| :: ix[i] < ix[j])
    && forall k: nat | k < |bars| :: Picked(ix, k) <==> mark < bars[k].t <= mark + 25
  }

  ghost predicate Picked(ix: seq<nat>, k: nat) {
    exists i :: 0 <= i < |ix| && ix[i] == k
  }

  function At(bars: seq<Bar>, ix: seq<nat>): (seg: seq<Bar>)
    requires forall i | 0 <= i < |ix| :: ix[i] < |bars|
  {
    seq(|ix|, i requires 0 <= i < |ix| => bars[ix[i]])
  }

  /** A segment is the bars of the window, each as often as it is there and in the same order. */
  lemma {:induction false} SegmentPicks(bars: seq<Bar>, mark: int) returns (ix: seq<nat>)
    ensures InWindow(bars, mark, ix)
    ensures |Segment(bars, mark)| == |ix| && forall i | 0 <= i < |ix| :: Segment(bars, mark)[i] == bars[ix[i]]
  {
    if bars == [] {
      ix := [];
    } else {
      var n := |bars| - 1;
      var front := SegmentPicks(bars[..n], mark);
      SegmentAdds(bars[..n], [bars[n]], mark);
      assert bars == bars[..n] + [bars[n]];
      if mark < bars[n].t <= mark + 25 {
        ix := front + [n];
      } else {
        ix := front;
      }
      assert Segment([bars[n]], mark) == if mark < bars[n].t <= mark + 25 then [bars[n]] else [];
      forall k: nat | k < |bars|
        ensures Picked(ix, k) <==> mark < bars[k].t <= mark + 25
      {
        PickedMore(front, ix, n, k);
        if k < n {
          assert bars[..n][k] == bars[k];
        }
      }
    }
  }

  lemma PickedMore(front: seq<nat>, ix: seq<nat>, n: nat, k: nat)
    requires (ix == front || ix == front + [n]) && forall i | 0 <= i < |front| :: front[i] < n
    ensures k < n ==> (Picked(ix, k) <==> Picked(front, k))
    ensures Picked(ix, n) <==> ix == front + [n]
  {
    if i :| 0 <= i < |front| && front[i] == k {
      assert ix[i] == k;
    }
    if ix == front + [n] {
      assert ix[|front|] == n;
    }
  }

  function OneBar(b: Bar, mark: int): seq<Bar> {
    if mark < b.t <= mark + 25 then [b] else []
  }

  lemma SegmentUnfolds(bars: seq<Bar>, mark: int)
    requires bars != []
    ensures Segment(bars, mark) == OneBar(bars[0], mark) + Segment(bars[1..], mark)
  {
  }

  lemma Associates<T>(a: seq<T>, b: seq<T>, c: seq<T>)
    ensures (a + b) + c == a + (b + c)
  {
  }

  lemma {:induction false} SegmentAdds(a: seq<Bar>, b: seq<Bar>, mark: int)
    ensures Segment(a + b, mark) == Segment(a, mark) + Segment(b, mark)
  {
    if a == [] {
      assert a + b == b;
    } else {
      SegmentAdds(a[1..], b, mark);
      assert (a + b)[0] == a[0] && (a + b)[1..] == a[1..] + b;
      SegmentUnfolds(a + b, mark);
      SegmentUnfolds(a, mark);
      hide Segment;
      Associates(OneBar(a[0], mark), Segment(a[1..], mark), Segment(b, mark));
    }
  }

  lemma {:induction false} NothingInside(outside: seq<Bar>, mark: int)
    requires forall i | 0 <= i < |outside| :: outside[i].t <= mark || outside[i].t > mark + 25
    ensures Segment(outside, mark) == []
  {
    if outside != [] {
      NothingInside(outside[1..], mark);
    }
  }

  /** Bars at or before the mark, or past the deadline, make no difference wherever they stand. */
  lemma OutsideIsIgnored(a: seq<Bar>, outside: seq<Bar>, b: seq<Bar>, mark: int)
    requires forall i | 0 <= i < |outside| :: outside[i].t <= mark || outside[i].t > mark + 25
    ensures Segment(a + outside + b, mark) == Segment(a + b, mark)
  {
    NothingInside(outside, mark);
    SegmentAdds(a + outside, b, mark);
    SegmentAdds(a, outside, mark);
    SegmentAdds(a, b, mark);
  }

  function Blended(w: Outcome): real
    requires w.Triggered?
  {
    LEG_A_FRAC * w.legA + LEG_B_FRAC * w.legB
  }

  // ---------------------------------------------------------------- the walk, as the source runs it

  /** The two legs while bars are being scanned; None while open. */
  datatype Legs = Legs(a: Option<real>, b: Option<real>)

  /** What the legs come to when the gains still to be scanned are `g` and the last close was `last`. */
  ghost function Outlook(legs: Legs, g: seq<Gains>, last: real, R: real): (real, real)
    requires R > 0.0
  {
    if legs.a.Some? && legs.b.Some? then (legs.a.value, legs.b.value)
    else if legs.a.Some? then (legs.a.value, if g == [] then last / R else Runner(g, R))
    else if g == [] then (last / R, last / R)
    else (LegA(g, R), LegB(g, R))
  }

  /** One bar of the scan: stop before target for both legs, then breakeven before leg B's target. */
  method ScanBar(legs: Legs, side: Side, hi: real, lo: real, b: Bar, ghost g: seq<Gains>, ghost last: real)
    returns (next: Legs)
    requires hi - lo > 0.0 && legs.b.None?
    requires g != [] && g[0] == Seen(side, EntryOf(side, hi, lo), b)
    ensures next.b.Some? ==> next.a.Some?
    ensures Outlook(legs, g, last, hi - lo) == Outlook(next, g[1..], g[0].close, hi - lo)
  {
    var R := hi - lo;
    var entry := if side == Long then hi else lo;
    var slp := if side == Long then lo else hi;
    var aTgt := if side == Long then entry + LEG_A_TGT_R * R else entry - LEG_A_TGT_R * R;
    var bTgt := if side == Long then entry + LEG_B_TGT_R * R else entry - LEG_B_TGT_R * R;
    var aHit := if side == Long then b.h >= aTgt else b.l <= aTgt;
    var bHit := if side == Long then b.h >= bTgt else b.l <= bTgt;
    var slHit := if side == Long then b.l <= slp else b.h >= slp;
    var beHit := if side == Long then b.l <= entry else b.h >= entry;
    next := legs;
    if next.a.None? && slHit {
      return Legs(Some(-1.0), Some(-1.0));
    }
    if next.a.None? && aHit {
      next := next.(a := Some(LEG_A_TGT_R));
    } else if next.a.Some? && beHit {
      return next.(b := Some(0.0));
    }
    if next.a.Some? && bHit {
      next := next.(b := Some(LEG_B_TGT_R));
    }
  }

  /** Phase 1: the index of the first bar that breaks the mark range. */
  method FindBreak(seg: seq<Bar>, hi: real, lo: real) returns (k: nat)
    ensures k <= |seg| && seg[k..] == FromBreak(seg, hi, lo)
  {
    k := 0;
    while k < |seg| && !(seg[k].h >= hi || seg[k].l <= lo)
      invariant k <= |seg|
      invariant FromBreak(seg, hi, lo) == FromBreak(seg[k..], hi, lo)
    {
      assert seg[k..][1..] == seg[k + 1..];
      k := k + 1;
    }
  }

  /** The whole walk: segment, first break, scan, mark to market. */
  method WalkScaleout(bars: seq<Bar>, mark: int, n1: Bar) returns (w: Outcome)
    ensures w == Walk(Segment(bars, mark), n1.h, n1.l)
    ensures exists ix :: InWindow(bars, mark, ix) && w == Walk(At(bars, ix), n1.h, n1.l)
  {
    ghost var ix := SegmentPicks(bars, mark);
    assert At(bars, ix) == Segment(bars, mark);
    hide Segment, LegA, LegB, SeenAll, FromBreak;
    var hi, lo := n1.h, n1.l;
    var seg := Segment(bars, mark);
    if hi - lo <= 0.0 || seg == [] {
      return NoTrade;
    }
    var k := FindBreak(seg, hi, lo);
    if k == |seg| {
      return NoTrigger;
    }
    var b := seg[k];
    var side: Side;
    if b.h >= hi && b.l <= lo {
      side := if b.c >= b.o then Long else Short;
    } else if b.h >= hi {
      side := Long;
    } else {
      side := Short;
    }
    var legA, legB := ScanAll(seg[k..], side, hi, lo);
    return Triggered(side, legA, legB);
  }

  method ScanAll(tail: seq<Bar>, side: Side, hi: real, lo: real) returns (a: real, b: real)
    requires tail != [] && hi - lo > 0.0
    ensures var g := SeenAll(side, EntryOf(side, hi, lo), tail);
      a == LegA(g, hi - lo) && b == LegB(g, hi - lo)
  {
    var R, entry := hi - lo, EntryOf(side, hi, lo);
    ghost var g := SeenAll(side, entry, tail);
    var legs := Legs(None, None);
    var i := 0;
    var last := tail[0].c;
    ghost var gain := 0.0;
    while i < |tail| && legs.b.None?
      invariant 0 <= i <= |tail|
      invariant legs.b.Some? ==> legs.a.Some?
      invariant i > 0 ==> gain == if side == Long then last - entry else entry - last
      invariant i == 0 ==> legs.b.None?
      invariant g[i..] == SeenAll(side, entry, tail[i..])
      invariant Outlook(legs, g[i..], gain, R) == (LegA(g, R), LegB(g, R))
    {
      last := tail[i].c;
      ghost var rest := g[i..];
      SeenTail(side, entry, tail[i..]);
      legs := ScanBar(legs, side, hi, lo, tail[i], rest, gain);
      assert rest[1..] == g[i + 1..] && tail[i..][1..] == tail[i + 1..];
      gain := rest[0].close;
      i := i + 1;
    }
    assert g[|tail|..] == [];
    var marked := (if side == Long then last - entry else entry - last) / R;
    a := if legs.a.Some? then legs.a.value else marked;
    b := if legs.b.Some? then legs.b.value else marked;
  }

  lemma Ratio(x: real, y: real, R: real)
    requires R > 0.0
    ensures x <= y <==> x / R <= y / R
    ensures R / R == 1.0 && (-R) / R == -1.0 && (LEG_B_TGT_R * R) / R == LEG_B_TGT_R && 0.0 / R == 0.0
  {
  }

  // ---------------------------------------------------------------- ticks inside the bars

  /** A tick path that a bar summarises. */
  ghost predicate Traces(b: Bar, path: seq<real>) {
    && path != []
    && path[0] == b.o && path[|path| - 1] == b.c
    && b.h in path && b.l in path
    && forall x | x in path :: b.l <= x <= b.h
  }

  ghost predicate TracesAll(seg: seq<Bar>, paths: seq<seq<real>>) {
    if seg == [] then paths == []
    else paths != [] && Traces(seg[0], paths[0]) && TracesAll(seg[1..], paths[1..])
  }

  ghost predicate ValidBars(seg: seq<Bar>) {
    forall i :: 0 <= i < |seg| ==> ValidBar(seg[i])
  }

  function Flat(paths: seq<seq<real>>): seq<real> {
    if paths == [] then [] else paths[0] + Flat(paths[1..])
  }

  /** One bar per tick: the walk on these bars is the tick-level walk. */
  function TickBars(xs: seq<real>): (bars: seq<Bar>)
    ensures |bars| == |xs|
  {
    if xs == [] then [] else [Bar(0, xs[0], xs[0], xs[0], xs[0])] + TickBars(xs[1..])
  }

  function Gain(side: Side, entry: real, x: real): real {
    if side.Long? then x - entry else entry - x
  }

  /** Leg A straight on ticks. */
  function TickLegA(xs: seq<real>, side: Side, entry: real, R: real): real
    requires xs != [] && R > 0.0
  {
    var x := Gain(side, entry, xs[0]);
    if x <= -R then -1.0
    else if x >= R then 1.0
    else if |xs| == 1 then x / R
    else TickLegA(xs[1..], side, entry, R)
  }

  lemma {:induction false} TickLegAIsLegA(xs: seq<real>, side: Side, entry: real, R: real)
    requires xs != [] && R > 0.0
    ensures LegA(SeenAll(side, entry, TickBars(xs)), R) == TickLegA(xs, side, entry, R)
  {
    if |xs| > 1 {
      TickLegAIsLegA(xs[1..], side, entry, R);
      assert TickBars(xs)[1..] == TickBars(xs[1..]);
      assert SeenAll(side, entry, TickBars(xs))[1..] == SeenAll(side, entry, TickBars(xs[1..]));
    }
  }

  /** Leg B straight on ticks. */
  function TickLegB(xs: seq<real>, side: Side, entry: real, R: real): real
    requires xs != [] && R > 0.0
  {
    var x := Gain(side, entry, xs[0]);
    if x <= -R then -1.0
    else if x >= LEG_B_TGT_R * R then LEG_B_TGT_R
    else if |xs| == 1 then x / R
    else if x >= R then TickRunner(xs[1..], side, entry, R)
    else TickLegB(xs[1..], side, entry, R)
  }

  function TickRunner(xs: seq<real>, side: Side, entry: real, R: real): real
    requires xs != [] && R > 0.0
  {
    var x := Gain(side, entry, xs[0]);
    if x <= 0.0 then 0.0
    else if x >= LEG_B_TGT_R * R then LEG_B_TGT_R
    else if |xs| == 1 then x / R
    else TickRunner(xs[1..], side, entry, R)
  }

  lemma TickTail(xs: seq<real>, side: Side, entry: real)
    requires xs != []
    ensures TickBars(xs)[1..] == TickBars(xs[1..])
    ensures SeenAll(side, entry, TickBars(xs))[1..] == SeenAll(side, entry, TickBars(xs[1..]))
  {
  }

  lemma {:induction false} TickRunnerIsRunner(xs: seq<real>, side: Side, entry: real, R: real)
    requires xs != [] && R > 0.0
    ensures Runner(SeenAll(side, entry, TickBars(xs)), R) == TickRunner(xs, side, entry, R)
  {
    if |xs| > 1 {
      TickRunnerIsRunner(xs[1..], side, entry, R);
      TickTail(xs, side, entry);
    }
  }

  lemma {:induction false} TickLegBIsLegB(xs: seq<real>, side: Side, entry: real, R: real)
    requires xs != [] && R > 0.0
    ensures LegB(SeenAll(side, entry, TickBars(xs)), R) == TickLegB(xs, side, entry, R)
  {
    if |xs| > 1 {
      TickLegBIsLegB(xs[1..], side, entry, R);
      TickRunnerIsRunner(xs[1..], side, entry, R);
      TickTail(xs, side, entry);
    }
  }

  /** Ticks that decide nothing are skipped. */
  lemma {:induction false} Undecided(p: seq<real>, rest: seq<real>, side: Side, entry: real, R: real)
    requires p != [] && R > 0.0
    requires forall x | x in p :: -R < Gain(side, entry, x) < R
    ensures TickLegA(p + rest, side, entry, R) ==
      if rest == [] then Gain(side, entry, p[|p| - 1]) / R else TickLegA(rest, side, entry, R)
  {
    assert p[0] in p;
    assert (p + rest)[1..] == p[1..] + rest;
    if |p| > 1 {
      Undecided(p[1..], rest, side, entry, R);
    } else {
      assert p[1..] + rest == rest;
    }
  }

  lemma {:induction false} TargetFirst(p: seq<real>, rest: seq<real>, side: Side, entry: real, R: real, y: real)
    requires R > 0.0 && y in p && Gain(side, entry, y) >= R
    requires forall x | x in p :: -R < Gain(side, entry, x)
    ensures TickLegA(p + rest, side, entry, R) == 1.0
  {
    assert p[0] in p;
    assert (p + rest)[1..] == p[1..] + rest;
    if Gain(side, entry, p[0]) < R {
      TargetFirst(p[1..], rest, side, entry, R, y);
    }
  }

  lemma {:induction false} StopFirst(p: seq<real>, rest: seq<real>, side: Side, entry: real, R: real, y: real)
    requires R > 0.0 && y in p && Gain(side, entry, y) <= -R
    requires forall x | x in p :: Gain(side, entry, x) < R
    ensures TickLegA(p + rest, side, entry, R) == -1.0
  {
    assert p[0] in p;
    assert (p + rest)[1..] == p[1..] + rest;
    if Gain(side, entry, p[0]) > -R {
      StopFirst(p[1..], rest, side, entry, R, y);
    }
  }

  lemma {:induction false} TickFloor(xs: seq<real>, side: Side, entry: real, R: real)
    requires xs != [] && R > 0.0
    ensures -1.0 <= TickLegA(xs, side, entry, R)
  {
    Ratio(-R, Gain(side, entry, xs[0]), R);
    if |xs| > 1 {
      TickFloor(xs[1..], side, entry, R);
    }
  }

  /** The bar that decides leg A reaches stop and target, and does not already open at the stop. */
  predicate Doubt(g: seq<Gains>, R: real) {
    g != [] &&
    if g[0].worst <= -R then g[0].best >= R && g[0].open > -R
    else g[0].best < R && Doubt(g[1..], R)
  }

  /** Leg A on the bars is at most leg A on the ticks, and equal unless the deciding bar is in doubt. */
  ghost predicate Dominated(g: seq<Gains>, xs: seq<real>, side: Side, entry: real, R: real)
    requires g != [] && R > 0.0
  {
    && xs != []
    && LegA(g, R) <= TickLegA(xs, side, entry, R)
    && (!Doubt(g, R) ==> LegA(g, R) == TickLegA(xs, side, entry, R))
  }

  /** From the entry on, bars never flatter ticks. */
  lemma {:induction false} BarsBelowTicks(seg: seq<Bar>, paths: seq<seq<real>>, side: Side, entry: real, R: real)
    requires seg != [] && R > 0.0 && TracesAll(seg, paths)
    ensures Dominated(SeenAll(side, entry, seg), Flat(paths), side, entry, R)
  {
    var p, rest := paths[0], Flat(paths[1..]);
    var g := SeenAll(side, entry, seg);
    var b := seg[0];
    SeenTail(side, entry, seg);
    assert Flat(paths) == p + rest;
    TickFloor(Flat(paths), side, entry, R);
    if g[0].worst <= -R {
      if g[0].best < R {
        StopFirst(p, rest, side, entry, R, if side.Long? then b.l else b.h);
      } else if g[0].open <= -R {
        assert p[0] == b.o;
      }
    } else if g[0].best >= R {
      TargetFirst(p, rest, side, entry, R, if side.Long? then b.h else b.l);
    } else {
      Undecided(p, rest, side, entry, R);
      if |seg| > 1 {
        BarsBelowTicks(seg[1..], paths[1..], side, entry, R);
      }
    }
  }

  /** The same for an entry bar of which only the ticks `q` after the entry count. */
  lemma PartialBar(g: seq<Gains>, q: seq<real>, rest: seq<real>, side: Side, entry: real, R: real, best: real)
    requires g != [] && R > 0.0 && best in q
    requires Gain(side, entry, best) == g[0].best && Gain(side, entry, q[|q| - 1]) == g[0].close
    requires forall x | x in q :: -R < Gain(side, entry, x) <= g[0].best
    requires g[0].worst > -R
    requires if |g| == 1 then rest == [] else Dominated(g[1..], rest, side, entry, R)
    ensures Dominated(g, q + rest, side, entry, R)
  {
    if g[0].best >= R {
      TargetFirst(q, rest, side, entry, R, best);
    } else {
      Undecided(q, rest, side, entry, R);
    }
  }

  // ---------------------------------------------------------------- the entry, bar by bar and tick by tick

  predicate Crosses(x: real, hi: real, lo: real) {
    x >= hi || x <= lo
  }

  /** The ticks from the first that leaves the mark range. */
  function Cut(xs: seq<real>, hi: real, lo: real): (q: seq<real>)
    ensures q != [] ==> Crosses(q[0], hi, lo)
  {
    if xs == [] || Crosses(xs[0], hi, lo) then xs else Cut(xs[1..], hi, lo)
  }

  lemma {:induction false} CutKeeps(xs: seq<real>, hi: real, lo: real)
    ensures var q := Cut(xs, hi, lo);
      && (q != [] ==> xs != [] && q[|q| - 1] == xs[|xs| - 1])
      && (forall x | x in q :: x in xs)
      && (forall x | x in xs && Crosses(x, hi, lo) :: x in q)
  {
    if xs != [] && !Crosses(xs[0], hi, lo) {
      CutKeeps(xs[1..], hi, lo);
      assert forall x | x in xs :: x == xs[0] || x in xs[1..];
    }
  }

  lemma {:induction false} CutIsFromBreak(xs: seq<real>, hi: real, lo: real)
    ensures FromBreak(TickBars(xs), hi, lo) == TickBars(Cut(xs, hi, lo))
  {
    if xs != [] && !Crosses(xs[0], hi, lo) {
      CutIsFromBreak(xs[1..], hi, lo);
      assert TickBars(xs)[1..] == TickBars(xs[1..]);
    }
  }

  lemma {:induction false} CutAppend(p: seq<real>, rest: seq<real>, hi: real, lo: real)
    ensures Cut(p + rest, hi, lo) == if Cut(p, hi, lo) == [] then Cut(rest, hi, lo) else Cut(p, hi, lo) + rest
  {
    if p == [] {
      assert p + rest == rest;
    } else {
      assert (p + rest)[1..] == p[1..] + rest;
      CutAppend(p[1..], rest, hi, lo);
    }
  }

  /** The tick-level walk, in terms of ticks. */
  lemma TickWalk(xs: seq<real>, hi: real, lo: real)
    requires hi - lo > 0.0 && xs != []
    ensures var w, q := Walk(TickBars(xs), hi, lo), Cut(xs, hi, lo);
      && (q == [] ==> w == NoTrigger)
      && (q != [] ==>
            var side := if q[0] >= hi then Long else Short;
            && w.Triggered? && w.side == side && w.legA == TickLegA(q, side, EntryOf(side, hi, lo), hi - lo)
            && w.legB == TickLegB(q, side, EntryOf(side, hi, lo), hi - lo))
  {
    var q := Cut(xs, hi, lo);
    CutIsFromBreak(xs, hi, lo);
    if q != [] {
      var side := if q[0] >= hi then Long else Short;
      assert TickBars(q)[0] == Bar(0, q[0], q[0], q[0], q[0]);
      TickLegAIsLegA(q, side, EntryOf(side, hi, lo), hi - lo);
      TickLegBIsLegB(q, side, EntryOf(side, hi, lo), hi - lo);
    }
  }

  predicate Straddles(b: Bar, hi: real, lo: real) {
    b.h >= hi && b.l <= lo
  }

  /** A straddling entry bar reaches the target of a side its open still allows to come first. */
  predicate EntryDoubt(b: Bar, hi: real, lo: real) {
    (b.o > lo && b.h >= hi + (hi - lo)) || (b.o < hi && b.l <= lo - (hi - lo))
  }

  /** The walk's leg A depends on the order of ticks inside the bar that decides it. */
  predicate InDoubt(seg: seq<Bar>, hi: real, lo: real) {
    var tail := FromBreak(seg, hi, lo);
    tail != [] &&
    if Straddles(tail[0], hi, lo) then EntryDoubt(tail[0], hi, lo)
    else
      var side := SideOf(tail[0], hi, lo);
      Doubt(SeenAll(side, EntryOf(side, hi, lo), tail), hi - lo)
  }

  /** An entry bar that straddles the range counts as stopped, which no path can undercut. */
  lemma StraddleBelowTicks(b: Bar, path: seq<real>, rest: seq<real>, hi: real, lo: real)
    requires hi - lo > 0.0 && Traces(b, path) && Straddles(b, hi, lo)
    ensures Cut(path, hi, lo) != []
    ensures var q := Cut(path, hi, lo);
      var side := if q[0] >= hi then Long else Short;
      var tick := TickLegA(q + rest, side, EntryOf(side, hi, lo), hi - lo);
      -1.0 <= tick && (!EntryDoubt(b, hi, lo) ==> tick == -1.0)
  {
    CutKeeps(path, hi, lo);
    var q := Cut(path, hi, lo);
    assert b.h in q && b.l in q;
    var side := if q[0] >= hi then Long else Short;
    TickFloor(q + rest, side, EntryOf(side, hi, lo), hi - lo);
    if !EntryDoubt(b, hi, lo) {
      FirstCross(path, hi, lo);
      StopFirst(q, rest, side, EntryOf(side, hi, lo), hi - lo, if side.Long? then b.l else b.h);
    }
  }

  /** If the path already opens outside the range, it is not cut. */
  lemma FirstCross(path: seq<real>, hi: real, lo: real)
    requires path != []
    ensures Crosses(path[0], hi, lo) ==> Cut(path, hi, lo) == path
  {
  }

  /** What a one-sided entry bar leaves to its ticks: no stop, and the bar's best tick still ahead. */
  lemma EntrySuffix(b: Bar, path: seq<real>, hi: real, lo: real)
    requires hi - lo > 0.0 && Traces(b, path) && Breaks(b, hi, lo) && !Straddles(b, hi, lo)
    ensures var side, q := SideOf(b, hi, lo), Cut(path, hi, lo);
      var entry := EntryOf(side, hi, lo);
      var seen := Seen(side, entry, b);
      && (if side.Long? then b.h else b.l) in q
      && (q[0] >= hi <==> side.Long?)
      && (forall x | x in q :: -(hi - lo) < Gain(side, entry, x) <= seen.best)
      && q[|q| - 1] == b.c && seen.worst > -(hi - lo)
  {
    CutKeeps(path, hi, lo);
    var q := Cut(path, hi, lo);
    assert b.h in path && b.l in path;
    assert (if SideOf(b, hi, lo).Long? then b.h else b.l) in q;
    assert q[0] in path;
  }

  /** A one-sided entry bar: the tick path enters on the same side. */
  lemma EntryBelowTicks(seg: seq<Bar>, paths: seq<seq<real>>, hi: real, lo: real)
    requires hi - lo > 0.0 && seg != [] && TracesAll(seg, paths)
    requires Breaks(seg[0], hi, lo) && !Straddles(seg[0], hi, lo)
    ensures var side, q := SideOf(seg[0], hi, lo), Cut(paths[0], hi, lo);
      && q != [] && (q[0] >= hi <==> side.Long?)
      && Dominated(SeenAll(side, EntryOf(side, hi, lo), seg), q + Flat(paths[1..]), side,
                   EntryOf(side, hi, lo), hi - lo)
  {
    var b, R, side := seg[0], hi - lo, SideOf(seg[0], hi, lo);
    var entry, q, rest := EntryOf(side, hi, lo), Cut(paths[0], hi, lo), Flat(paths[1..]);
    var g := SeenAll(side, entry, seg);
    assert |seg| == 1 ==> paths[1..] == [] && rest == [];
    hide Cut, SeenAll, Flat, TickLegA, Dominated;
    EntrySuffix(b, paths[0], hi, lo);
    if |seg| > 1 {
      BarsBelowTicks(seg[1..], paths[1..], side, entry, R);
    }
    SeenTail(side, entry, seg);
    hide TracesAll, Traces;
    PartialBar(g, q, rest, side, entry, R, if side.Long? then b.h else b.l);
  }

  /**
    The bar-level walk never flatters leg A: on every tick path inside the bars the tick-level walk
    does at least as well, exactly as well unless the deciding bar is in doubt, and triggers alike.
   */
  lemma {:induction false} NeverFlattersLegA(seg: seq<Bar>, paths: seq<seq<real>>, hi: real, lo: real)
    requires hi - lo > 0.0 && seg != [] && TracesAll(seg, paths)
    ensures Flat(paths) != []
    ensures var w, t := Walk(seg, hi, lo), Walk(TickBars(Flat(paths)), hi, lo);
      && (w.NoTrigger? <==> t.NoTrigger?)
      && (w.Triggered? ==> t.Triggered? && w.legA <= t.legA && (!InDoubt(seg, hi, lo) ==> w.legA == t.legA))
  {
    var b, p, rest := seg[0], paths[0], Flat(paths[1..]);
    assert Flat(paths) == p + rest;
    TickWalk(p + rest, hi, lo);
    CutAppend(p, rest, hi, lo);
    if !Breaks(b, hi, lo) {
      NoCross(p, hi, lo);
      SkipBar(seg, hi, lo);
      if |seg| > 1 {
        NeverFlattersLegA(seg[1..], paths[1..], hi, lo);
        TickWalk(rest, hi, lo);
      } else {
        assert paths[1..] == [];
      }
    } else if Straddles(b, hi, lo) {
      StraddleBelowTicks(b, p, rest, hi, lo);
    } else {
      EntryBelowTicks(seg, paths, hi, lo);
    }
  }

  lemma {:induction false} NoCross(path: seq<real>, hi: real, lo: real)
    requires forall x | x in path :: !Crosses(x, hi, lo)
    ensures Cut(path, hi, lo) == []
  {
    if path != [] {
      assert path[0] in path;
      NoCross(path[1..], hi, lo);
    }
  }

  lemma SkipBar(seg: seq<Bar>, hi: real, lo: real)
    requires seg != [] && hi - lo > 0.0 && !Breaks(seg[0], hi, lo)
    ensures |seg| == 1 ==> Walk(seg, hi, lo) == NoTrigger && !InDoubt(seg, hi, lo)
    ensures |seg| > 1 ==>
      Walk(seg, hi, lo) == Walk(seg[1..], hi, lo) && InDoubt(seg, hi, lo) == InDoubt(seg[1..], hi, lo)
  {
  }

  // ---------------------------------------------------------------- exactly when order matters

  /** A path that takes the best tick of the side before the worst. */
  function BestFirst(side: Side, b: Bar): seq<real> {
    if side.Long? then [b.o, b.h, b.l, b.c] else [b.o, b.l, b.h, b.c]
  }

  function BestFirstAll(side: Side, seg: seq<Bar>): seq<seq<real>> {
    if seg == [] then [] else [BestFirst(side, seg[0])] + BestFirstAll(side, seg[1..])
  }

  lemma {:induction false} BestFirstTraces(side: Side, seg: seq<Bar>)
    requires ValidBars(seg)
    ensures TracesAll(seg, BestFirstAll(side, seg))
  {
    if seg != [] {
      BestFirstTraces(side, seg[1..]);
      assert BestFirstAll(side, seg)[1..] == BestFirstAll(side, seg[1..]);
      assert ValidBar(seg[0]);
    }
  }

  /** On best-first paths a walk in doubt fills leg A after all. */
  lemma {:induction false} BestFirstFills(seg: seq<Bar>, side: Side, entry: real, R: real)
    requires R > 0.0 && ValidBars(seg) && Doubt(SeenAll(side, entry, seg), R)
    ensures seg != [] && LegA(SeenAll(side, entry, seg), R) == -1.0
    ensures Flat(BestFirstAll(side, seg)) != []
    ensures TickLegA(Flat(BestFirstAll(side, seg)), side, entry, R) == 1.0
  {
    var g := SeenAll(side, entry, seg);
    SeenTail(side, entry, seg);
    var p, rest := BestFirst(side, seg[0]), Flat(BestFirstAll(side, seg[1..]));
    assert BestFirstAll(side, seg)[1..] == BestFirstAll(side, seg[1..]);
    assert Flat(BestFirstAll(side, seg)) == p + rest;
    assert ValidBar(seg[0]);
    if g[0].worst <= -R {
      TwoTicks(p + rest, side, entry, R);
    } else {
      BestFirstFills(seg[1..], side, entry, R);
      Undecided(p, rest, side, entry, R);
    }
  }

  lemma TwoTicks(xs: seq<real>, side: Side, entry: real, R: real)
    requires R > 0.0 && |xs| > 1
    requires Gain(side, entry, xs[0]) > -R && Gain(side, entry, xs[1]) >= R
    ensures TickLegA(xs, side, entry, R) == 1.0
  {
  }

  /** The side whose best-first order shows the doubt. */
  function DoubtSide(seg: seq<Bar>, hi: real, lo: real): Side {
    var tail := FromBreak(seg, hi, lo);
    if tail == [] then Long
    else if !Straddles(tail[0], hi, lo) then SideOf(tail[0], hi, lo)
    else if tail[0].o > lo && tail[0].h >= hi + (hi - lo) then Long
    else Short
  }

  lemma StraddleFills(b: Bar, rest: seq<real>, side: Side, hi: real, lo: real)
    requires hi - lo > 0.0 && ValidBar(b) && Straddles(b, hi, lo)
    requires if side.Long? then b.o > lo && b.h >= hi + (hi - lo) else b.o < hi && b.l <= lo - (hi - lo)
    ensures var q := Cut(BestFirst(side, b), hi, lo);
      && q != [] && (q[0] >= hi <==> side.Long?)
      && TickLegA(q + rest, side, EntryOf(side, hi, lo), hi - lo) == 1.0
  {
  }

  lemma EntryFills(seg: seq<Bar>, hi: real, lo: real)
    requires hi - lo > 0.0 && ValidBars(seg) && seg != []
    requires Breaks(seg[0], hi, lo) && !Straddles(seg[0], hi, lo) && InDoubt(seg, hi, lo)
    ensures var side := SideOf(seg[0], hi, lo);
      var entry, q := EntryOf(side, hi, lo), Cut(BestFirst(side, seg[0]), hi, lo);
      && LegA(SeenAll(side, entry, seg), hi - lo) == -1.0
      && q != [] && (q[0] >= hi <==> side.Long?)
      && TickLegA(q + Flat(BestFirstAll(side, seg[1..])), side, entry, hi - lo) == 1.0
  {
    var side, b := SideOf(seg[0], hi, lo), seg[0];
    var entry, rest := EntryOf(side, hi, lo), Flat(BestFirstAll(side, seg[1..]));
    var q := Cut(BestFirst(side, b), hi, lo);
    SeenTail(side, entry, seg);
    assert ValidBar(b);
    BestFirstFills(seg[1..], side, entry, hi - lo);
    BestFirstTraces(side, [b]);
    assert Traces(b, BestFirst(side, b));
    EntrySuffix(b, BestFirst(side, b), hi, lo);
    Undecided(q, rest, side, entry, hi - lo);
  }

  /** The ticks `xs` fill leg A where the bars have it stopped. */
  ghost predicate TicksDoBetter(seg: seq<Bar>, xs: seq<real>, hi: real, lo: real) {
    var w, t := Walk(seg, hi, lo), Walk(TickBars(xs), hi, lo);
    xs != [] && w.Triggered? && t.Triggered? && w.legA == -1.0 && t.legA == 1.0
  }

  lemma DoubtAtEntry(seg: seq<Bar>, rest: seq<real>, hi: real, lo: real)
    requires hi - lo > 0.0 && ValidBars(seg) && InDoubt(seg, hi, lo) && Breaks(seg[0], hi, lo)
    requires rest == Flat(BestFirstAll(DoubtSide(seg, hi, lo), seg[1..]))
    ensures TicksDoBetter(seg, BestFirst(DoubtSide(seg, hi, lo), seg[0]) + rest, hi, lo)
  {
    var side, b := DoubtSide(seg, hi, lo), seg[0];
    var p := BestFirst(side, b);
    TickWalk(p + rest, hi, lo);
    CutAppend(p, rest, hi, lo);
    assert ValidBar(b);
    var at := SideOf(b, hi, lo);
    SeenTail(at, EntryOf(at, hi, lo), seg);
    if Straddles(b, hi, lo) {
      StraddleFills(b, rest, side, hi, lo);
    } else {
      EntryFills(seg, hi, lo);
    }
  }

  /** Whenever the walk is in doubt, some tick path inside the very same bars does strictly better. */
  lemma {:induction false} DoubtIsReal(seg: seq<Bar>, hi: real, lo: real)
    requires hi - lo > 0.0 && ValidBars(seg) && InDoubt(seg, hi, lo)
    ensures TracesAll(seg, BestFirstAll(DoubtSide(seg, hi, lo), seg))
    ensures TicksDoBetter(seg, Flat(BestFirstAll(DoubtSide(seg, hi, lo), seg)), hi, lo)
  {
    var side := DoubtSide(seg, hi, lo);
    var b, p, rest := seg[0], BestFirst(side, seg[0]), Flat(BestFirstAll(side, seg[1..]));
    BestFirstTraces(side, seg);
    assert BestFirstAll(side, seg)[1..] == BestFirstAll(side, seg[1..]);
    assert Flat(BestFirstAll(side, seg)) == p + rest;
    if Breaks(b, hi, lo) {
      DoubtAtEntry(seg, rest, hi, lo);
    } else {
      assert ValidBar(b);
      assert forall x | x in p :: x == b.o || x == b.h || x == b.l || x == b.c;
      SkipBar(seg, hi, lo);
      assert DoubtSide(seg[1..], hi, lo) == side && ValidBars(seg[1..]);
      DoubtIsReal(seg[1..], hi, lo);
      SkipTicks(p, rest, hi, lo);
    }
  }

  lemma SkipTicks(p: seq<real>, rest: seq<real>, hi: real, lo: real)
    requires hi - lo > 0.0 && p != [] && rest != []
    requires forall x | x in p :: !Crosses(x, hi, lo)
    requires Walk(TickBars(rest), hi, lo).Triggered?
    ensures var t := Walk(TickBars(p + rest), hi, lo);
      t.Triggered? && t.legA == Walk(TickBars(rest), hi, lo).legA && t.legB == Walk(TickBars(rest), hi, lo).legB
  {
    NoCross(p, hi, lo);
    CutAppend(p, rest, hi, lo);
    TickWalk(p + rest, hi, lo);
    TickWalk(rest, hi, lo);
  }

  /** On the ticks of `paths`, leg A ends as it does on the bars. */
  ghost predicate SameLegA(seg: seq<Bar>, paths: seq<seq<real>>, hi: real, lo: real) {
    var w, t := Walk(seg, hi, lo), Walk(TickBars(Flat(paths)), hi, lo);
    w.Triggered? && t.Triggered? && w.legA == t.legA
  }

  /** So leg A is independent of the order of ticks inside the bars exactly when the walk is not in doubt. */
  lemma LegAExactIffNoDoubt(seg: seq<Bar>, hi: real, lo: real)
    requires hi - lo > 0.0 && seg != [] && ValidBars(seg) && Walk(seg, hi, lo).Triggered?
    ensures (forall paths | TracesAll(seg, paths) :: SameLegA(seg, paths, hi, lo)) <==> !InDoubt(seg, hi, lo)
  {
    hide TracesAll, InDoubt, Walk, BestFirstAll, DoubtSide;
    if InDoubt(seg, hi, lo) {
      DoubtIsReal(seg, hi, lo);
      assert !SameLegA(seg, BestFirstAll(DoubtSide(seg, hi, lo), seg), hi, lo);
    } else {
      forall paths | TracesAll(seg, paths) ensures SameLegA(seg, paths, hi, lo) {
        NeverFlattersLegA(seg, paths, hi, lo);
      }
    }
  }

  // ---------------------------------------------------------------- exactly when leg B is flattered

  /**
    The bar that fills leg A comes back to the entry, does not open beyond leg B's target, and leg B
    goes on to a profit: its break-even stop is not checked in that bar.
   */
  predicate Flatters(g: seq<Gains>, R: real)
    requires R > 0.0
  {
    && g != [] && g[0].worst > -R
    && if g[0].best >= R then g[0].worst <= 0.0 && g[0].open < LEG_B_TGT_R * R && LegB(g, R) > 0.0
       else Flatters(g[1..], R)
  }

  lemma {:induction false} TickRunnerFloor(xs: seq<real>, side: Side, entry: real, R: real)
    requires xs != [] && R > 0.0
    ensures TickRunner(xs, side, entry, R) >= 0.0
  {
    Ratio(0.0, Gain(side, entry, xs[0]), R);
    if |xs| > 1 {
      TickRunnerFloor(xs[1..], side, entry, R);
    }
  }

  lemma {:induction false} TickLegBFloor(xs: seq<real>, side: Side, entry: real, R: real)
    requires xs != [] && R > 0.0
    ensures TickLegB(xs, side, entry, R) >= -1.0
  {
    Ratio(-R, Gain(side, entry, xs[0]), R);
    if |xs| > 1 {
      TickLegBFloor(xs[1..], side, entry, R);
      TickRunnerFloor(xs[1..], side, entry, R);
    }
  }

  lemma {:induction false} UndecidedB(p: seq<real>, rest: seq<real>, side: Side, entry: real, R: real)
    requires p != [] && R > 0.0
    requires forall x | x in p :: -R < Gain(side, entry, x) < R
    ensures TickLegB(p + rest, side, entry, R) ==
      if rest == [] then Gain(side, entry, p[|p| - 1]) / R else TickLegB(rest, side, entry, R)
  {
    assert p[0] in p;
    assert (p + rest)[1..] == p[1..] + rest;
    if |p| > 1 {
      UndecidedB(p[1..], rest, side, entry, R);
    } else {
      assert p[1..] + rest == rest;
    }
  }

  lemma {:induction false} RunnerGoesOn(p: seq<real>, rest: seq<real>, side: Side, entry: real, R: real)
    requires p != [] && R > 0.0
    requires forall x | x in p :: 0.0 < Gain(side, entry, x) < LEG_B_TGT_R * R
    ensures TickRunner(p + rest, side, entry, R) ==
      if rest == [] then Gain(side, entry, p[|p| - 1]) / R else TickRunner(rest, side, entry, R)
  {
    assert p[0] in p;
    assert (p + rest)[1..] == p[1..] + rest;
    if |p| > 1 {
      RunnerGoesOn(p[1..], rest, side, entry, R);
    } else {
      assert p[1..] + rest == rest;
    }
  }

  lemma {:induction false} RunnerArrives(p: seq<real>, rest: seq<real>, side: Side, entry: real, R: real, y: real)
    requires R > 0.0 && y in p && Gain(side, entry, y) >= LEG_B_TGT_R * R
    requires forall x | x in p :: 0.0 < Gain(side, entry, x)
    ensures TickRunner(p + rest, side, entry, R) == LEG_B_TGT_R
  {
    assert p[0] in p;
    assert (p + rest)[1..] == p[1..] + rest;
    if Gain(side, entry, p[0]) < LEG_B_TGT_R * R {
      RunnerArrives(p[1..], rest, side, entry, R, y);
    }
  }

  /** The break-even runner on bars is conservative. */
  lemma {:induction false} RunnerBelowTicks(seg: seq<Bar>, paths: seq<seq<real>>, side: Side, entry: real, R: real)
    requires seg != [] && R > 0.0 && TracesAll(seg, paths)
    ensures Flat(paths) != [] && Runner(SeenAll(side, entry, seg), R) <= TickRunner(Flat(paths), side, entry, R)
  {
    var p, rest := paths[0], Flat(paths[1..]);
    var g := SeenAll(side, entry, seg);
    SeenTail(side, entry, seg);
    assert Flat(paths) == p + rest;
    TickRunnerFloor(Flat(paths), side, entry, R);
    if g[0].worst > 0.0 {
      if g[0].best >= LEG_B_TGT_R * R {
        RunnerArrives(p, rest, side, entry, R, if side.Long? then seg[0].h else seg[0].l);
      } else {
        RunnerGoesOn(p, rest, side, entry, R);
        if |seg| > 1 {
          RunnerBelowTicks(seg[1..], paths[1..], side, entry, R);
        }
      }
    }
  }

  lemma {:induction false} FilledFloor(p: seq<real>, rest: seq<real>, side: Side, entry: real, R: real, y: real)
    requires R > 0.0 && y in p && Gain(side, entry, y) >= R
    requires forall x | x in p :: -R < Gain(side, entry, x)
    ensures TickLegB(p + rest, side, entry, R) >= 0.0
  {
    assert p[0] in p;
    assert (p + rest)[1..] == p[1..] + rest;
    Ratio(0.0, Gain(side, entry, p[0]), R);
    if Gain(side, entry, p[0]) < R {
      FilledFloor(p[1..], rest, side, entry, R, y);
    } else if |p + rest| > 1 {
      TickRunnerFloor((p + rest)[1..], side, entry, R);
    }
  }

  lemma {:induction false} FilledArrives(p: seq<real>, rest: seq<real>, side: Side, entry: real, R: real, y: real)
    requires R > 0.0 && y in p && Gain(side, entry, y) >= LEG_B_TGT_R * R
    requires forall x | x in p :: 0.0 < Gain(side, entry, x)
    ensures TickLegB(p + rest, side, entry, R) == LEG_B_TGT_R
  {
    assert p[0] in p;
    assert (p + rest)[1..] == p[1..] + rest;
    if Gain(side, entry, p[0]) < R {
      FilledArrives(p[1..], rest, side, entry, R, y);
    } else if Gain(side, entry, p[0]) < LEG_B_TGT_R * R {
      RunnerArrives(p[1..], rest, side, entry, R, y);
    }
  }

  lemma {:induction false} FilledGoesOn(p: seq<real>, rest: seq<real>, side: Side, entry: real, R: real, y: real)
    requires R > 0.0 && y in p && Gain(side, entry, y) >= R
    requires forall x | x in p :: 0.0 < Gain(side, entry, x) < LEG_B_TGT_R * R
    ensures TickLegB(p + rest, side, entry, R) ==
      if rest == [] then Gain(side, entry, p[|p| - 1]) / R else TickRunner(rest, side, entry, R)
  {
    assert p[0] in p;
    assert (p + rest)[1..] == p[1..] + rest;
    if Gain(side, entry, p[0]) < R {
      FilledGoesOn(p[1..], rest, side, entry, R, y);
    } else if |p| > 1 {
      RunnerGoesOn(p[1..], rest, side, entry, R);
    } else {
      assert p[1..] + rest == rest;
    }
  }

  /** The ticks `p` of a bar, or of what an entry leaves of it, as far as they matter. */
  ghost predicate TicksOf(b: Gains, p: seq<real>, side: Side, entry: real, R: real, best: real) {
    && p != [] && best in p && Gain(side, entry, best) == b.best && Gain(side, entry, p[|p| - 1]) == b.close
    && (forall x | x in p :: b.worst <= Gain(side, entry, x) <= b.best)
    && (b.open >= LEG_B_TGT_R * R ==> Gain(side, entry, p[0]) == b.open)
  }

  lemma FillingBar(g: seq<Gains>, p: seq<real>, rest: seq<real>, side: Side, entry: real, R: real, best: real)
    requires g != [] && R > 0.0 && TicksOf(g[0], p, side, entry, R, best)
    requires g[0].worst > -R && g[0].best >= R && !Flatters(g, R)
    requires if |g| == 1 then rest == [] else rest != [] && Runner(g[1..], R) <= TickRunner(rest, side, entry, R)
    ensures LegB(g, R) <= TickLegB(p + rest, side, entry, R)
  {
    hide TickRunner, Runner, Gain;
    FilledFloor(p, rest, side, entry, R, best);
    if g[0].worst > 0.0 {
      if g[0].best >= LEG_B_TGT_R * R {
        FilledArrives(p, rest, side, entry, R, best);
      } else {
        FilledGoesOn(p, rest, side, entry, R, best);
      }
    } else if g[0].open >= LEG_B_TGT_R * R {
      OpensBeyond(p, rest, side, entry, R);
      LegBCeiling(g, R);
    }
  }

  lemma OpensBeyond(p: seq<real>, rest: seq<real>, side: Side, entry: real, R: real)
    requires R > 0.0 && p != [] && Gain(side, entry, p[0]) >= LEG_B_TGT_R * R
    ensures TickLegB(p + rest, side, entry, R) == LEG_B_TGT_R
  {
  }

  lemma LegBCeiling(g: seq<Gains>, R: real)
    requires g != [] && R > 0.0 && g[0].worst > -R && g[0].best >= LEG_B_TGT_R * R
    ensures LegB(g, R) == LEG_B_TGT_R
  {
  }

  lemma QuietBar(g: seq<Gains>, p: seq<real>, rest: seq<real>, side: Side, entry: real, R: real, best: real)
    requires g != [] && R > 0.0 && TicksOf(g[0], p, side, entry, R, best)
    requires g[0].worst > -R && g[0].best < R
    requires if |g| == 1 then rest == [] else rest != [] && LegB(g[1..], R) <= TickLegB(rest, side, entry, R)
    ensures LegB(g, R) <= TickLegB(p + rest, side, entry, R)
  {
    hide TickLegB, Gain;
    UndecidedB(p, rest, side, entry, R);
  }

  lemma BarTicks(b: Bar, p: seq<real>, side: Side, entry: real, R: real)
    requires R > 0.0 && Traces(b, p)
    ensures TicksOf(Seen(side, entry, b), p, side, entry, R, if side.Long? then b.h else b.l)
  {
  }

  /** From the entry on, leg B is not flattered unless the filling bar says so. */
  lemma {:induction false} LegBBelowTicks(seg: seq<Bar>, paths: seq<seq<real>>, side: Side, entry: real, R: real)
    requires seg != [] && R > 0.0 && TracesAll(seg, paths) && !Flatters(SeenAll(side, entry, seg), R)
    ensures Flat(paths) != [] && LegB(SeenAll(side, entry, seg), R) <= TickLegB(Flat(paths), side, entry, R)
  {
    var p, rest := paths[0], Flat(paths[1..]);
    var g, best := SeenAll(side, entry, seg), if side.Long? then seg[0].h else seg[0].l;
    SeenTail(side, entry, seg);
    assert Flat(paths) == p + rest;
    BarTicks(seg[0], p, side, entry, R);
    TickLegBFloor(Flat(paths), side, entry, R);
    if |seg| == 1 {
      assert paths[1..] == [];
    }
    if g[0].worst > -R {
      if g[0].best >= R {
        if |seg| > 1 {
          RunnerBelowTicks(seg[1..], paths[1..], side, entry, R);
        }
        hide TracesAll, Traces, Flat, SeenAll, TicksOf, LegB, TickLegB, Runner, TickRunner, Flatters;
        FillingBar(g, p, rest, side, entry, R, best);
      } else {
        if |seg| > 1 {
          LegBBelowTicks(seg[1..], paths[1..], side, entry, R);
        }
        hide TracesAll, Traces, Flat, SeenAll, TicksOf, LegB, TickLegB, Runner, TickRunner, Flatters;
        QuietBar(g, p, rest, side, entry, R, best);
      }
    }
  }

  lemma EntryTicks(b: Bar, path: seq<real>, hi: real, lo: real)
    requires hi - lo > 0.0 && Traces(b, path) && Breaks(b, hi, lo) && !Straddles(b, hi, lo)
    ensures var side, q := SideOf(b, hi, lo), Cut(path, hi, lo);
      && q != [] && (q[0] >= hi <==> side.Long?)
      && TicksOf(Seen(side, EntryOf(side, hi, lo), b), q, side, EntryOf(side, hi, lo), hi - lo,
                 if side.Long? then b.h else b.l)
  {
    EntrySuffix(b, path, hi, lo);
    CutKeeps(path, hi, lo);
    FirstCross(path, hi, lo);
  }

  /** The walk's leg B can come out above that of a tick path inside the bars. */
  predicate CanFlatter(seg: seq<Bar>, hi: real, lo: real)
    requires hi - lo > 0.0
  {
    var tail := FromBreak(seg, hi, lo);
    tail != [] &&
    var side := SideOf(tail[0], hi, lo);
    Flatters(SeenAll(side, EntryOf(side, hi, lo), tail), hi - lo)
  }

  lemma SkipBarB(seg: seq<Bar>, hi: real, lo: real)
    requires seg != [] && hi - lo > 0.0 && !Breaks(seg[0], hi, lo)
    ensures CanFlatter(seg, hi, lo) == CanFlatter(seg[1..], hi, lo)
    ensures |seg| > 1 ==> Walk(seg, hi, lo) == Walk(seg[1..], hi, lo)
    ensures |seg| == 1 ==> !CanFlatter(seg, hi, lo)
  {
  }

  lemma StraddleLegB(seg: seq<Bar>, hi: real, lo: real)
    requires seg != [] && hi - lo > 0.0 && Straddles(seg[0], hi, lo)
    ensures Walk(seg, hi, lo).Triggered? && Walk(seg, hi, lo).legB == -1.0 && !CanFlatter(seg, hi, lo)
  {
    var side := SideOf(seg[0], hi, lo);
    SeenTail(side, EntryOf(side, hi, lo), seg);
  }

  lemma EntryLegB(seg: seq<Bar>, paths: seq<seq<real>>, hi: real, lo: real)
    requires hi - lo > 0.0 && seg != [] && TracesAll(seg, paths)
    requires Breaks(seg[0], hi, lo) && !Straddles(seg[0], hi, lo) && !CanFlatter(seg, hi, lo)
    ensures var side, q := SideOf(seg[0], hi, lo), Cut(paths[0], hi, lo);
      && q != [] && (q[0] >= hi <==> side.Long?)
      && LegB(SeenAll(side, EntryOf(side, hi, lo), seg), hi - lo)
         <= TickLegB(q + Flat(paths[1..]), side, EntryOf(side, hi, lo), hi - lo)
  {
    var b, R, side := seg[0], hi - lo, SideOf(seg[0], hi, lo);
    var entry, q, rest := EntryOf(side, hi, lo), Cut(paths[0], hi, lo), Flat(paths[1..]);
    var g, best := SeenAll(side, entry, seg), if side.Long? then b.h else b.l;
    EntryTicks(b, paths[0], hi, lo);
    SeenTail(side, entry, seg);
    assert g[0].worst > -R;
    if |seg| == 1 {
      assert paths[1..] == [];
    }
    if g[0].best >= R {
      if |seg| > 1 {
        RunnerBelowTicks(seg[1..], paths[1..], side, entry, R);
      }
      hide Cut, TracesAll, Traces, Flat, SeenAll, TicksOf, LegB, TickLegB, Runner, TickRunner, Flatters;
      FillingBar(g, q, rest, side, entry, R, best);
    } else {
      if |seg| > 1 {
        LegBBelowTicks(seg[1..], paths[1..], side, entry, R);
      }
      hide Cut, TracesAll, Traces, Flat, SeenAll, TicksOf, LegB, TickLegB, Runner, TickRunner, Flatters;
      QuietBar(g, q, rest, side, entry, R, best);
    }
  }

  /** Outside that case leg B, too, is never flattered: every tick path inside the bars does at least as well. */
  lemma {:induction false} NeverFlattersLegB(seg: seq<Bar>, paths: seq<seq<real>>, hi: real, lo: real)
    requires hi - lo > 0.0 && seg != [] && TracesAll(seg, paths) && !CanFlatter(seg, hi, lo)
    ensures Flat(paths) != []
    ensures var w, t := Walk(seg, hi, lo), Walk(TickBars(Flat(paths)), hi, lo);
      w.Triggered? ==> t.Triggered? && w.legB <= t.legB
  {
    var b, p, rest := seg[0], paths[0], Flat(paths[1..]);
    assert Flat(paths) == p + rest;
    TickWalk(p + rest, hi, lo);
    CutAppend(p, rest, hi, lo);
    if !Breaks(b, hi, lo) {
      NoCross(p, hi, lo);
      if |seg| > 1 {
        SkipBarB(seg, hi, lo);
        NeverFlattersLegB(seg[1..], paths[1..], hi, lo);
        TickWalk(rest, hi, lo);
      } else {
        SkipBar(seg, hi, lo);
      }
    } else if Straddles(b, hi, lo) {
      StraddleBelowTicks(b, p, rest, hi, lo);
      StraddleLegB(seg, hi, lo);
      var q := Cut(p, hi, lo) + rest;
      var side := if q[0] >= hi then Long else Short;
      TickLegBFloor(q, side, EntryOf(side, hi, lo), hi - lo);
    } else {
      EntryLegB(seg, paths, hi, lo);
    }
  }

  /** A path that fills leg A, comes back to the worst tick, and only then goes on. */
  function DipFirst(side: Side, b: Bar, entry: real, R: real): seq<real> {
    var target := if side.Long? then entry + R else entry - R;
    var back := if side.Long? then [b.l, b.h, b.c] else [b.h, b.l, b.c];
    (if Gain(side, entry, b.o) >= R then [b.o] else [b.o, target]) + back
  }

  /** The bar fills leg A and dips to the entry, and its open leaves the order of the two free. */
  predicate Dips(b: Gains, R: real) {
    -R < b.worst <= 0.0 && b.best >= R && b.open < LEG_B_TGT_R * R
  }

  lemma DipTraces(side: Side, b: Bar, entry: real, R: real)
    requires R > 0.0 && ValidBar(b) && Dips(Seen(side, entry, b), R)
    ensures Traces(b, DipFirst(side, b, entry, R))
  {
    var p := DipFirst(side, b, entry, R);
    assert p[|p| - 1] == b.c && p[|p| - 2] == (if side.Long? then b.h else b.l) &&
      p[|p| - 3] == (if side.Long? then b.l else b.h);
  }

  lemma StopsFlat(xs: seq<real>, side: Side, entry: real, R: real)
    requires R > 0.0 && |xs| > 1
    requires R <= Gain(side, entry, xs[0]) < LEG_B_TGT_R * R && Gain(side, entry, xs[1]) <= 0.0
    ensures TickLegB(xs, side, entry, R) == 0.0
  {
  }

  lemma DipStops(side: Side, b: Bar, entry: real, R: real, rest: seq<real>)
    requires R > 0.0 && ValidBar(b) && Dips(Seen(side, entry, b), R)
    ensures TickLegB(DipFirst(side, b, entry, R) + rest, side, entry, R) == 0.0
  {
    var xs := DipFirst(side, b, entry, R) + rest;
    if Gain(side, entry, b.o) >= R {
      StopsFlat(xs, side, entry, R);
    } else {
      StopsFlat(xs[1..], side, entry, R);
    }
  }

  /** The same for what an entry inside the bar leaves of the path. */
  lemma DipStopsAfterEntry(b: Bar, hi: real, lo: real, rest: seq<real>)
    requires hi - lo > 0.0 && ValidBar(b) && Breaks(b, hi, lo) && !Straddles(b, hi, lo)
    requires var side := SideOf(b, hi, lo); Dips(Seen(side, EntryOf(side, hi, lo), b), hi - lo)
    ensures var side := SideOf(b, hi, lo); var entry := EntryOf(side, hi, lo);
      var q := Cut(DipFirst(side, b, entry, hi - lo), hi, lo);
      q != [] && TickLegB(q + rest, side, entry, hi - lo) == 0.0
  {
    var side, R := SideOf(b, hi, lo), hi - lo;
    var entry := EntryOf(side, hi, lo);
    var p := DipFirst(side, b, entry, R);
    if Crosses(b.o, hi, lo) {
      FirstCross(p, hi, lo);
      DipStops(side, b, entry, R, rest);
    } else {
      assert Cut(p, hi, lo) == p[1..] by {
        FirstCross(p[1..], hi, lo);
      }
      StopsFlat(p[1..] + rest, side, entry, R);
    }
  }

  /** Paths for the bars from the entry on that dip in the bar that fills leg A. */
  function DipPaths(side: Side, entry: real, R: real, seg: seq<Bar>): seq<seq<real>> {
    if seg == [] then []
    else if Seen(side, entry, seg[0]).best >= R then [DipFirst(side, seg[0], entry, R)] + BestFirstAll(side, seg[1..])
    else [BestFirst(side, seg[0])] + DipPaths(side, entry, R, seg[1..])
  }

  lemma FirstDips(seg: seq<Bar>, side: Side, entry: real, R: real)
    requires seg != [] && R > 0.0 && Flatters(SeenAll(side, entry, seg), R) && Seen(side, entry, seg[0]).best >= R
    ensures Dips(Seen(side, entry, seg[0]), R) && LegB(SeenAll(side, entry, seg), R) > 0.0
  {
    SeenTail(side, entry, seg);
  }

  lemma LaterDips(seg: seq<Bar>, side: Side, entry: real, R: real)
    requires seg != [] && R > 0.0 && Flatters(SeenAll(side, entry, seg), R) && Seen(side, entry, seg[0]).best < R
    ensures |seg| > 1 && Flatters(SeenAll(side, entry, seg[1..]), R) && Seen(side, entry, seg[0]).worst > -R
    ensures LegB(SeenAll(side, entry, seg), R) == LegB(SeenAll(side, entry, seg[1..]), R)
  {
    SeenTail(side, entry, seg);
  }

  lemma {:induction false} DipPathsTrace(seg: seq<Bar>, side: Side, entry: real, R: real)
    requires R > 0.0 && ValidBars(seg) && seg != [] && Flatters(SeenAll(side, entry, seg), R)
    ensures TracesAll(seg, DipPaths(side, entry, R, seg))
  {
    hide Flatters, SeenAll, DipFirst, BestFirst, Dips;
    var paths := DipPaths(side, entry, R, seg);
    assert ValidBar(seg[0]);
    if Seen(side, entry, seg[0]).best >= R {
      FirstDips(seg, side, entry, R);
      DipTraces(side, seg[0], entry, R);
      BestFirstTraces(side, seg[1..]);
      assert paths[1..] == BestFirstAll(side, seg[1..]);
    } else {
      LaterDips(seg, side, entry, R);
      DipPathsTrace(seg[1..], side, entry, R);
      BestFirstTraces(side, [seg[0]]);
      assert Traces(seg[0], BestFirst(side, seg[0]));
      assert paths[1..] == DipPaths(side, entry, R, seg[1..]);
    }
  }

  /** On these paths leg B ends flat where the bars report a profit. */
  lemma {:induction false} DipPathsFlatten(seg: seq<Bar>, side: Side, entry: real, R: real)
    requires R > 0.0 && ValidBars(seg) && seg != [] && Flatters(SeenAll(side, entry, seg), R)
    ensures LegB(SeenAll(side, entry, seg), R) > 0.0
    ensures Flat(DipPaths(side, entry, R, seg)) != [] &&
      TickLegB(Flat(DipPaths(side, entry, R, seg)), side, entry, R) == 0.0
  {
    hide Flatters, SeenAll, TickLegB, Dips, LegB;
    var paths := DipPaths(side, entry, R, seg);
    assert ValidBar(seg[0]);
    if Seen(side, entry, seg[0]).best >= R {
      FirstDips(seg, side, entry, R);
      assert Flat(paths) == DipFirst(side, seg[0], entry, R) + Flat(BestFirstAll(side, seg[1..]));
      DipStops(side, seg[0], entry, R, Flat(BestFirstAll(side, seg[1..])));
    } else {
      LaterDips(seg, side, entry, R);
      DipPathsFlatten(seg[1..], side, entry, R);
      assert Flat(paths) == BestFirst(side, seg[0]) + Flat(DipPaths(side, entry, R, seg[1..]));
      UndecidedB(BestFirst(side, seg[0]), Flat(DipPaths(side, entry, R, seg[1..])), side, entry, R);
    }
  }

  function FlatterPaths(seg: seq<Bar>, hi: real, lo: real): seq<seq<real>> {
    if seg == [] then []
    else if Breaks(seg[0], hi, lo) then
      var side := SideOf(seg[0], hi, lo);
      DipPaths(side, EntryOf(side, hi, lo), hi - lo, seg)
    else [BestFirst(Long, seg[0])] + FlatterPaths(seg[1..], hi, lo)
  }

  /** The ticks `xs` leave leg B flat where the bars have it in profit. */
  ghost predicate TicksEndFlat(seg: seq<Bar>, xs: seq<real>, hi: real, lo: real) {
    var w, t := Walk(seg, hi, lo), Walk(TickBars(xs), hi, lo);
    xs != [] && w.Triggered? && t.Triggered? && w.legB > 0.0 && t.legB == 0.0
  }

  lemma EntryEndsFlat(seg: seq<Bar>, side: Side, entry: real, hi: real, lo: real, paths: seq<seq<real>>)
    requires hi - lo > 0.0 && ValidBars(seg) && seg != [] && Breaks(seg[0], hi, lo) && !Straddles(seg[0], hi, lo)
    requires side == SideOf(seg[0], hi, lo) && entry == EntryOf(side, hi, lo)
    requires Flatters(SeenAll(side, entry, seg), hi - lo) && paths == DipPaths(side, entry, hi - lo, seg)
    ensures paths != [] && TracesAll(seg, paths) && Flat(paths) == paths[0] + Flat(paths[1..])
    ensures var q := Cut(paths[0], hi, lo);
      && q != [] && (q[0] >= hi <==> side.Long?) && TickLegB(q + Flat(paths[1..]), side, entry, hi - lo) == 0.0
  {
    hide Flatters, SeenAll, Dips, LegB, DipFirst, BestFirst;
    var b, R := seg[0], hi - lo;
    var rest := Flat(paths[1..]);
    assert ValidBar(b);
    DipPathsTrace(seg, side, entry, R);
    EntryTicks(b, paths[0], hi, lo);
    var q := Cut(paths[0], hi, lo);
    if Seen(side, entry, b).best >= R {
      FirstDips(seg, side, entry, R);
      DipStopsAfterEntry(b, hi, lo, rest);
    } else {
      LaterDips(seg, side, entry, R);
      DipPathsFlatten(seg[1..], side, entry, R);
      assert paths[1..] == DipPaths(side, entry, R, seg[1..]);
      hide TracesAll, Traces, Cut, Flat, TickLegB, DipPaths;
      UndecidedB(q, rest, side, entry, R);
    }
  }

  lemma EntryFlattens(seg: seq<Bar>, hi: real, lo: real)
    requires hi - lo > 0.0 && ValidBars(seg) && seg != [] && Breaks(seg[0], hi, lo) && CanFlatter(seg, hi, lo)
    ensures var paths := FlatterPaths(seg, hi, lo);
      TracesAll(seg, paths) && TicksEndFlat(seg, Flat(paths), hi, lo)
  {
    var b, R, side := seg[0], hi - lo, SideOf(seg[0], hi, lo);
    var entry := EntryOf(side, hi, lo);
    var paths := DipPaths(side, entry, R, seg);
    if Straddles(b, hi, lo) {
      StraddleLegB(seg, hi, lo);
    }
    hide TracesAll, Flatters, SeenAll, LegB, LegA, TickLegA, TickLegB, Cut, Flat, DipPaths, TickBars, Straddles;
    EntryWalk(seg, hi, lo);
    hide Walk, FromBreak;
    EntryEndsFlat(seg, side, entry, hi, lo, paths);
    DipPathsFlatten(seg, side, entry, R);
    EntryTickWalk(paths, hi, lo);
  }

  lemma EntryWalk(seg: seq<Bar>, hi: real, lo: real)
    requires seg != [] && hi - lo > 0.0 && Breaks(seg[0], hi, lo)
    ensures var side := SideOf(seg[0], hi, lo); var g := SeenAll(side, EntryOf(side, hi, lo), seg);
      Walk(seg, hi, lo) == Triggered(side, LegA(g, hi - lo), LegB(g, hi - lo)) &&
        CanFlatter(seg, hi, lo) == Flatters(g, hi - lo)
  {
  }

  /** The tick-level walk of a path whose first bar triggers. */
  lemma EntryTickWalk(paths: seq<seq<real>>, hi: real, lo: real)
    requires hi - lo > 0.0 && paths != [] && Flat(paths) == paths[0] + Flat(paths[1..]) && Cut(paths[0], hi, lo) != []
    ensures Flat(paths) != []
    ensures var q, t := Cut(paths[0], hi, lo), Walk(TickBars(Flat(paths)), hi, lo);
      var side := if q[0] >= hi then Long else Short;
      t.Triggered? && t.legB == TickLegB(q + Flat(paths[1..]), side, EntryOf(side, hi, lo), hi - lo)
  {
    hide Flat, Walk, TickBars, TickLegB;
    var q := Cut(paths[0], hi, lo);
    assert paths[0] != [];
    CutAppend(paths[0], Flat(paths[1..]), hi, lo);
    hide Cut;
    TickWalk(Flat(paths), hi, lo);
    assert (q + Flat(paths[1..]))[0] == q[0];
  }

  /** Whenever leg B can be flattered, some tick path inside the very same bars ends it flat. */
  lemma {:induction false} FlatteryIsReal(seg: seq<Bar>, hi: real, lo: real)
    requires hi - lo > 0.0 && ValidBars(seg) && seg != [] && CanFlatter(seg, hi, lo)
    ensures TracesAll(seg, FlatterPaths(seg, hi, lo))
    ensures TicksEndFlat(seg, Flat(FlatterPaths(seg, hi, lo)), hi, lo)
  {
    var b := seg[0];
    if Breaks(b, hi, lo) {
      EntryFlattens(seg, hi, lo);
    } else {
      var p, paths := BestFirst(Long, b), FlatterPaths(seg[1..], hi, lo);
      assert ValidBar(b);
      SkipBarB(seg, hi, lo);
      FlatteryIsReal(seg[1..], hi, lo);
      BestFirstTraces(Long, [b]);
      assert Traces(b, p);
      assert FlatterPaths(seg, hi, lo)[1..] == paths && Flat(FlatterPaths(seg, hi, lo)) == p + Flat(paths);
      assert forall x | x in p :: x == b.o || x == b.h || x == b.l || x == b.c;
      SkipTicks(p, Flat(paths), hi, lo);
    }
  }

  /** On the ticks of `paths`, leg B does at least as well as on the bars. */
  ghost predicate LegBHolds(seg: seq<Bar>, paths: seq<seq<real>>, hi: real, lo: real) {
    var w, t := Walk(seg, hi, lo), Walk(TickBars(Flat(paths)), hi, lo);
    w.Triggered? && t.Triggered? && w.legB <= t.legB
  }

  /**
    Leg B is conservative for every order of ticks inside the bars exactly when the bar that fills
    leg A does not come back to the entry, or opens beyond leg B's target, or leg B ends without profit.
   */
  lemma LegBConservativeIff(seg: seq<Bar>, hi: real, lo: real)
    requires hi - lo > 0.0 && seg != [] && ValidBars(seg) && Walk(seg, hi, lo).Triggered?
    ensures (forall paths | TracesAll(seg, paths) :: LegBHolds(seg, paths, hi, lo)) <==> !CanFlatter(seg, hi, lo)
  {
    hide TracesAll, CanFlatter, Walk, FlatterPaths;
    if CanFlatter(seg, hi, lo) {
      FlatteryIsReal(seg, hi, lo);
      assert !LegBHolds(seg, FlatterPaths(seg, hi, lo), hi, lo);
    } else {
      forall paths | TracesAll(seg, paths) ensures LegBHolds(seg, paths, hi, lo) {
        NeverFlattersLegB(seg, paths, hi, lo);
      }
    }
  }

  // ---------------------------------------------------------------- bounds on the blended result

  ghost predicate Ordered(g: seq<Gains>) {
    forall i :: 0 <= i < |g| ==> g[i].worst <= g[i].close <= g[i].best
  }

  lemma {:induction false} RunnerBounds(g: seq<Gains>, R: real)
    requires g != [] && R > 0.0 && Ordered(g)
    ensures 0.0 <= Runner(g, R) <= LEG_B_TGT_R
  {
    Ratio(0.0, g[0].close, R);
    Ratio(g[0].close, LEG_B_TGT_R * R, R);
    if |g| > 1 { RunnerBounds(g[1..], R); }
  }

  /** Both legs together: either both stopped, both marked short of the target, or leg A filled. */
  lemma {:induction false} LegBounds(g: seq<Gains>, R: real)
    requires g != [] && R > 0.0 && Ordered(g)
    ensures LegA(g, R) == 1.0 || (LegA(g, R) == LegB(g, R) && -1.0 <= LegA(g, R) < 1.0)
    ensures LegA(g, R) == 1.0 ==> -1.0 < LegB(g, R) <= LEG_B_TGT_R
  {
    Ratio(-R, g[0].close, R);
    Ratio(g[0].close, -R, R);
    Ratio(g[0].close, R, R);
    Ratio(R, g[0].close, R);
    Ratio(g[0].close, LEG_B_TGT_R * R, R);
    if |g| > 1 {
      LegBounds(g[1..], R);
      RunnerBounds(g[1..], R);
    }
  }

  /** Blended R lies in [-1, 1.8]; once leg A fills it is above +0.2 whatever leg B does. */
  lemma BlendedBounds(seg: seq<Bar>, hi: real, lo: real)
    requires ValidBars(seg) && Walk(seg, hi, lo).Triggered?
    ensures var w := Walk(seg, hi, lo);
      && -1.0 <= Blended(w) <= 1.8
      && (w.legA == LEG_A_TGT_R ==> Blended(w) > 0.2)
      && (Blended(w) <= 0.0 ==> w.legA < LEG_A_TGT_R)
  {
    var tail := FromBreak(seg, hi, lo);
    TailValid(seg, hi, lo);
    var side := SideOf(tail[0], hi, lo);
    var g := SeenAll(side, EntryOf(side, hi, lo), tail);
    SeenOrdered(tail, side, EntryOf(side, hi, lo));
    LegBounds(g, hi - lo);
  }

  lemma {:induction false} TailValid(seg: seq<Bar>, hi: real, lo: real)
    requires ValidBars(seg)
    ensures ValidBars(FromBreak(seg, hi, lo))
  {
    if seg != [] && !Breaks(seg[0], hi, lo) { TailValid(seg[1..], hi, lo); }
  }

  lemma {:induction false} SeenOrdered(bars: seq<Bar>, side: Side, entry: real)
    requires ValidBars(bars)
    ensures Ordered(SeenAll(side, entry, bars))
  {
    if bars != [] {
      assert ValidBar(bars[0]);
      SeenOrdered(bars[1..], side, entry);
      var g := SeenAll(side, entry, bars);
      SeenTail(side, entry, bars);
      forall i | 0 <= i < |g| ensures g[i].worst <= g[i].close <= g[i].best {
        if i > 0 { assert g[i] == g[1..][i - 1]; }
      }
    }
  }

  /**
    Leg B is not conservative: the bar that fills leg A is not checked against the breakeven stop, so
    a path that comes back to the entry before it runs to +3R ends flat while the bars report +3R.
   */
  lemma LegBCanBeFlattered()
    ensures var b := Bar(0, 1.0, 4.0, 0.5, 4.0);
      var paths := [[1.0, 2.0, 0.5, 4.0]];
      && ValidBar(b) && TracesAll([b], paths)
      && Walk([b], 1.0, 0.0) == Triggered(Long, 1.0, 3.0)
      && Walk(TickBars(Flat(paths)), 1.0, 0.0) == Triggered(Long, 1.0, 0.0)
  {
    var b := Bar(0, 1.0, 4.0, 0.5, 4.0);
    var path := [1.0, 2.0, 0.5, 4.0];
    assert path[3] == 4.0 && path[2] == 0.5;
    assert Flat([path]) == path;
    SeenTail(Long, 1.0, [b]);
    var t0, t1, t2 := TickBars(path), TickBars(path[1..]), TickBars(path[1..][1..]);
    assert t0[1..] == t1 && t1[1..] == t2;
    var g0, g1, g2 := SeenAll(Long, 1.0, t0), SeenAll(Long, 1.0, t1), SeenAll(Long, 1.0, t2);
    SeenTail(Long, 1.0, t0);
    SeenTail(Long, 1.0, t1);
    SeenTail(Long, 1.0, t2);
    assert g0[1..] == g1 && g1[1..] == g2;
    assert g0[0] == Gains(0.0, 0.0, 0.0, 0.0) && g1[0] == Gains(1.0, 1.0, 1.0, 1.0) &&
      g2[0] == Gains(-0.5, -0.5, -0.5, -0.5);
    assert Runner(g2, 1.0) == 0.0;
    assert LegA(g1, 1.0) == 1.0 && LegB(g1, 1.0) == 0.0;
    assert LegA(g0, 1.0) == 1.0 && LegB(g0, 1.0) == 0.0;
    assert FromBreak(t0, 1.0, 0.0) == t0;
  }
}
