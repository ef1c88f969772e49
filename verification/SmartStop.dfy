/**
  The alert stop of a manual leg (backend/app/scalper.py:583-609, applied at 994-999).

  Prices and profits are integer paise; a candidate is rounded half to even, as `round` does, but on
  the exact quotient.
 */
module SmartStop {
  import opened Wrappers

  datatype Direction = Buy | Sell {
    function Sign(): int { if Buy? then 1 else -1 }
  }

  /** `beArm`, `trailArm` and `trailGive` as configured; zero means the default. */
  datatype Config = Config(manage: bool, beArm: int, trailArm: int, trailGive: int) {
    function BeArm(): int { if beArm == 0 then 40000 else beArm }
    function TrailArm(): int { if trailArm == 0 then 90000 else trailArm }
    function TrailGive(): int { if trailGive == 0 then 40000 else trailGive }
  }

  datatype Leg = Leg(direction: Direction, entry: int, qty: int)

  // ---------------------------------------------------------------- rounding

  /** n / d to the nearest integer, halves to even. */
  function Rounded(n: int, d: int): int
    requires d > 0
  {
    var q, r := n / d, n % d;
    if 2 * r < d || (2 * r == d && q % 2 == 0) then q else q + 1
  }

  function Quotient(n: int, d: int): int
    requires d != 0
  {
    if d > 0 then Rounded(n, d) else Rounded(-n, -d)
  }

  lemma FloorMono(m: int, n: int, d: int)
    requires d > 0 && m <= n
    ensures m / d < n / d || (m / d == n / d && m % d <= n % d)
  {
    var a, b, r, t := m / d, n / d, m % d, n % d;
    assert m == d * a + r && n == d * b + t;
    if a > b {
      Scales(d, b, a);
    }
  }

  lemma {:induction false} Scales(d: int, b: int, a: int)
    requires d > 0 && b < a
    ensures d * a >= d * b + d
    decreases a - b
  {
    assert d * a == d * (a - 1) + d;
    if b < a - 1 {
      Scales(d, b, a - 1);
    }
  }

  lemma RoundedMono(m: int, n: int, d: int)
    requires d > 0 && m <= n
    ensures Rounded(m, d) <= Rounded(n, d)
  {
    FloorMono(m, n, d);
  }

  // ---------------------------------------------------------------- one mark

  /** The stop that locks what is left of the profit after giving some back. */
  function Trail(leg: Leg, cfg: Config, pnl: int): int
    requires leg.qty != 0
  {
    Quotient(leg.entry * leg.qty + leg.direction.Sign() * (pnl - cfg.TrailGive()), leg.qty)
  }

  function Tighter(dir: Direction, stop: Option<int>, cand: int): int {
    if stop.None? then cand
    else if dir.Buy? then (if stop.value < cand then cand else stop.value)
    else if cand < stop.value then cand
    else stop.value
  }

  /** `_smart_stop`: the new stop, or None to leave it alone. */
  function SmartStop(leg: Leg, cfg: Config, stop: Option<int>, pnl: Option<int>): Option<int> {
    if !cfg.manage || pnl.None? || leg.entry == 0 || leg.qty == 0 then None
    else
      var be := if pnl.value >= cfg.BeArm() then Some(Tighter(leg.direction, stop, leg.entry)) else stop;
      var tr := if pnl.value >= cfg.TrailArm() then Some(Tighter(leg.direction, be, Trail(leg, cfg, pnl.value)))
        else be;
      if tr.Some? && tr != stop
         && (stop.None? || (leg.direction.Buy? && tr.value > stop.value) ||
              (leg.direction.Sell? && tr.value < stop.value))
      then tr else None
  }

  function Marked(leg: Leg, cfg: Config, stop: Option<int>, pnl: Option<int>): Option<int> {
    var moved := SmartStop(leg, cfg, stop, pnl);
    if moved.Some? then moved else stop
  }

  function After(leg: Leg, cfg: Config, stop: Option<int>, marks: seq<Option<int>>): Option<int> {
    if marks == [] then stop else Marked(leg, cfg, After(leg, cfg, stop, marks[..|marks| - 1]), marks[|marks| - 1])
  }

  /** An answer is given exactly when the stop moves. */
  lemma AnsweredIffMoved(leg: Leg, cfg: Config, stop: Option<int>, pnl: Option<int>)
    ensures SmartStop(leg, cfg, stop, pnl).Some? <==> Marked(leg, cfg, stop, pnl) != stop
  {
    hide Trail, Quotient;
  }

  // ---------------------------------------------------------------- never loosens

  predicate NoLooser(dir: Direction, now: Option<int>, was: Option<int>) {
    was.None? || (now.Some? && dir.Sign() * now.value >= dir.Sign() * was.value)
  }

  /** No mark ever loosens the stop or drops it. */
  lemma {:induction false} NeverLoosens(leg: Leg, cfg: Config, stop: Option<int>, marks: seq<Option<int>>)
    ensures NoLooser(leg.direction, After(leg, cfg, stop, marks), stop)
  {
    if marks != [] {
      NeverLoosens(leg, cfg, stop, marks[..|marks| - 1]);
      hide Trail;
    }
  }

  // ---------------------------------------------------------------- the closed form

  function Peak(marks: seq<Option<int>>): Option<int> {
    if marks == [] then None
    else
      var before, last := Peak(marks[..|marks| - 1]), marks[|marks| - 1];
      if last.None? then before
      else if before.None? || before.value < last.value then last
      else before
  }

  /** The stop for a peak profit, from the initial stop alone. */
  function ForPeak(leg: Leg, cfg: Config, stop: Option<int>, peak: Option<int>): Option<int> {
    if !cfg.manage || peak.None? || leg.entry == 0 || leg.qty == 0 then stop
    else
      var be := if peak.value >= cfg.BeArm() then Some(Tighter(leg.direction, stop, leg.entry)) else stop;
      if peak.value >= cfg.TrailArm() then Some(Tighter(leg.direction, be, Trail(leg, cfg, peak.value))) else be
  }

  lemma TrailMono(leg: Leg, cfg: Config, pnl: int, higher: int)
    requires leg.qty > 0 && pnl <= higher
    ensures leg.direction.Sign() * Trail(leg, cfg, higher) >= leg.direction.Sign() * Trail(leg, cfg, pnl)
  {
    var base := leg.entry * leg.qty;
    if leg.direction.Buy? {
      RoundedMono(base + (pnl - cfg.TrailGive()), base + (higher - cfg.TrailGive()), leg.qty);
    } else {
      RoundedMono(base - (higher - cfg.TrailGive()), base - (pnl - cfg.TrailGive()), leg.qty);
    }
  }

  lemma MarkFollowsPeak(leg: Leg, cfg: Config, stop: Option<int>, peak: Option<int>, pnl: Option<int>)
    requires leg.qty > 0
    ensures Marked(leg, cfg, ForPeak(leg, cfg, stop, peak), pnl) ==
      ForPeak(leg, cfg, stop, if pnl.None? then peak else if peak.None? || peak.value < pnl.value then pnl else peak)
  {
    if peak.Some? && pnl.Some? {
      if peak.value < pnl.value {
        TrailMono(leg, cfg, peak.value, pnl.value);
      } else {
        TrailMono(leg, cfg, pnl.value, peak.value);
      }
    }
    hide Trail;
  }

  /** The stop depends on the initial stop and the peak profit alone, not on the path. */
  lemma {:induction false} StopFollowsPeak(leg: Leg, cfg: Config, stop: Option<int>, marks: seq<Option<int>>)
    requires leg.qty > 0
    ensures After(leg, cfg, stop, marks) == ForPeak(leg, cfg, stop, Peak(marks))
  {
    if marks != [] {
      hide ForPeak, Marked;
      StopFollowsPeak(leg, cfg, stop, marks[..|marks| - 1]);
      MarkFollowsPeak(leg, cfg, stop, Peak(marks[..|marks| - 1]), marks[|marks| - 1]);
    } else {
      assert ForPeak(leg, cfg, stop, None) == stop;
    }
  }

  /** Any two runs of marks with the same peak leave the same stop. */
  lemma PathDoesNotMatter(leg: Leg, cfg: Config, stop: Option<int>, a: seq<Option<int>>, b: seq<Option<int>>)
    requires leg.qty > 0 && Peak(a) == Peak(b)
    ensures After(leg, cfg, stop, a) == After(leg, cfg, stop, b)
  {
    StopFollowsPeak(leg, cfg, stop, a);
    StopFollowsPeak(leg, cfg, stop, b);
  }

  /** The peak is missing iff every mark is, and otherwise one of the marks that no mark exceeds. */
  lemma {:induction false} PeakIsHighest(marks: seq<Option<int>>)
    ensures Peak(marks).None? ==> forall m | m in marks :: m.None?
    ensures Peak(marks).Some? ==>
      Peak(marks) in marks && forall m | m in marks && m.Some? :: m.value <= Peak(marks).value
  {
    if marks != [] {
      var n := |marks| - 1;
      PeakIsHighest(marks[..n]);
      assert marks == marks[..n] + [marks[n]];
    }
  }

  // ---------------------------------------------------------------- what the stop protects

  /** The nearest integer, the even one of two. */
  lemma RoundedIsNearest(n: int, d: int)
    requires d > 0
    ensures -d <= 2 * (d * Rounded(n, d) - n) <= d
    ensures 2 * (d * Rounded(n, d) - n) == d || 2 * (d * Rounded(n, d) - n) == -d ==> Rounded(n, d) % 2 == 0
  {
    var q, r := n / d, n % d;
    assert n == d * q + r;
    if Rounded(n, d) == q {
      assert 2 * (d * q - n) == -2 * r;
    } else {
      assert d * (q + 1) == d * q + d;
      assert 2 * (d * (q + 1) - n) == 2 * d - 2 * r;
    }
  }

  /** The same for a negative divisor. */
  lemma QuotientIsNearest(n: int, d: int)
    requires d != 0
    ensures var off, half := 2 * (d * Quotient(n, d) - n), if d > 0 then d else -d;
      -half <= off <= half && (off == half || off == -half ==> Quotient(n, d) % 2 == 0)
  {
    if d > 0 {
      RoundedIsNearest(n, d);
    } else {
      RoundedIsNearest(-n, -d);
      assert (-d) * Quotient(n, d) == -(d * Quotient(n, d));
    }
  }

  lemma SignedProduct(sign: int, price: int, entry: int, qty: int)
    requires sign == 1 || sign == -1
    ensures sign * (price - entry) * qty == sign * (qty * price - entry * qty)
  {
  }

  /**
    After a peak that armed the trail, leaving at the stop keeps the peak less what is given back, up to
    half a paisa a unit; after one that armed break-even, it never loses.
   */
  lemma StopProtects(leg: Leg, cfg: Config, stop: Option<int>, marks: seq<Option<int>>)
    requires leg.qty > 0 && leg.entry != 0 && cfg.manage && Peak(marks).Some?
    ensures var s, sign, peak := After(leg, cfg, stop, marks), leg.direction.Sign(), Peak(marks).value;
      && (peak >= cfg.BeArm() ==> s.Some? && sign * s.value >= sign * leg.entry)
      && (peak >= cfg.TrailArm() ==>
            && s.Some? && sign * s.value >= sign * Trail(leg, cfg, peak)
            && 2 * (sign * (Trail(leg, cfg, peak) - leg.entry) * leg.qty) >= 2 * (peak - cfg.TrailGive()) - leg.qty)
  {
    var sign, peak := leg.direction.Sign(), Peak(marks).value;
    StopFollowsPeak(leg, cfg, stop, marks);
    RoundedIsNearest(leg.entry * leg.qty + sign * (peak - cfg.TrailGive()), leg.qty);
    SignedProduct(sign, Trail(leg, cfg, peak), leg.entry, leg.qty);
    hide Rounded, After, Peak;
  }

  lemma SidesScale(a: int, b: int, qty: int)
    requires a >= b && qty > 0
    ensures a * qty >= b * qty
  {
  }

  /** So any mark on the way that arms the trail leaves its profit less the give-back locked. */
  lemma EveryMarkIsProtected(leg: Leg, cfg: Config, stop: Option<int>, marks: seq<Option<int>>, mark: int)
    requires leg.qty > 0 && leg.entry != 0 && cfg.manage && Some(mark) in marks && mark >= cfg.TrailArm()
    ensures var s, sign := After(leg, cfg, stop, marks), leg.direction.Sign();
      s.Some? && 2 * (sign * (s.value - leg.entry) * leg.qty) >= 2 * (mark - cfg.TrailGive()) - leg.qty
  {
    hide After, Trail;
    PeakIsHighest(marks);
    assert Some(mark).Some?;
    StopProtects(leg, cfg, stop, marks);
    var s, sign, peak := After(leg, cfg, stop, marks), leg.direction.Sign(), Peak(marks).value;
    SidesScale(sign * (s.value - leg.entry), sign * (Trail(leg, cfg, peak) - leg.entry), leg.qty);
  }

  /** `price` is the price at which a leg keeps `locked` of its profit, to the nearest paisa, halves to even. */
  ghost predicate Locks(leg: Leg, price: int, locked: int) {
    var off := leg.qty * price - (leg.entry * leg.qty + if leg.direction == Buy then locked else -locked);
    -leg.qty <= 2 * off <= leg.qty && (2 * off == leg.qty || 2 * off == -leg.qty ==> price % 2 == 0)
  }

  lemma TrailLocks(leg: Leg, cfg: Config, pnl: int)
    requires leg.qty > 0
    ensures Locks(leg, Trail(leg, cfg, pnl), pnl - if cfg.trailGive == 0 then 40000 else cfg.trailGive)
  {
    RoundedIsNearest(leg.entry * leg.qty + leg.direction.Sign() * (pnl - cfg.TrailGive()), leg.qty);
    hide Rounded;
  }

  /** The tighter of two prices for the leg; a missing one does not count. */
  ghost predicate TightestOf(dir: Direction, now: int, a: Option<int>, b: int) {
    && (a == Some(now) || b == now)
    && (dir == Buy ==> b <= now && (a.Some? ==> a.value <= now))
    && (dir == Sell ==> b >= now && (a.Some? ==> a.value >= now))
  }

  lemma TighterIsTightest(dir: Direction, a: Option<int>, b: int)
    ensures TightestOf(dir, Tighter(dir, a, b), a, b)
  {
  }

  /**
    With the peak in paise and 400, 900 and 400 rupees by default: below both thresholds the stop is the
    initial one; from the first on it is the tightest of that and the entry; from the second on the
    tightest of those and the price that locks the peak less the give-back.
   */
  ghost predicate StopAtPeak(leg: Leg, cfg: Config, stop: Option<int>, peak: Option<int>, now: Option<int>,
          be: Option<int>, locked: int) {
    var beArm := if cfg.beArm == 0 then 40000 else cfg.beArm;
    var trailArm := if cfg.trailArm == 0 then 90000 else cfg.trailArm;
    var give := if cfg.trailGive == 0 then 40000 else cfg.trailGive;
    && (if peak.Some? && peak.value >= beArm then be.Some? && TightestOf(leg.direction, be.value, stop, leg.entry)
        else be == stop)
    && (if peak.Some? && peak.value >= trailArm then
          Locks(leg, locked, peak.value - give) && now.Some? && TightestOf(leg.direction, now.value, be, locked)
        else now == be)
  }

  /** After any marks of a managed leg the stop is exactly that. */
  lemma StopIsExactly(leg: Leg, cfg: Config, stop: Option<int>, marks: seq<Option<int>>)
    requires leg.qty > 0 && leg.entry != 0 && cfg.manage
    ensures exists be, locked :: StopAtPeak(leg, cfg, stop, Peak(marks), After(leg, cfg, stop, marks), be, locked)
  {
    StopFollowsPeak(leg, cfg, stop, marks);
    var peak := Peak(marks);
    var be := if peak.Some? && peak.value >= cfg.BeArm() then Some(Tighter(leg.direction, stop, leg.entry)) else stop;
    TighterIsTightest(leg.direction, stop, leg.entry);
    var locked := if peak.Some? then Trail(leg, cfg, peak.value) else 0;
    if peak.Some? {
      TrailLocks(leg, cfg, peak.value);
      TighterIsTightest(leg.direction, be, locked);
    }
    assert After(leg, cfg, stop, marks) == ForPeak(leg, cfg, stop, peak);
    hide After, Peak, Trail, Tighter, Locks, TightestOf;
    assert StopAtPeak(leg, cfg, stop, peak, After(leg, cfg, stop, marks), be, locked);
  }

  /** The stop of a leg that is not managed, or has no entry or quantity, is left alone. */
  lemma {:induction false} UnmanagedIsLeft(leg: Leg, cfg: Config, stop: Option<int>, marks: seq<Option<int>>)
    requires !cfg.manage || leg.entry == 0 || leg.qty == 0
    ensures After(leg, cfg, stop, marks) == stop
  {
    if marks != [] {
      UnmanagedIsLeft(leg, cfg, stop, marks[..|marks| - 1]);
    }
  }
}
