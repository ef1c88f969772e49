/**
  The live-fallback throttle and its use by a chain request (backend/app/market_hub.py:56-67, 350-419).

  Times are exact reals.  A call's clock reading is an input and may be older than the one of a call
  that took the lock before it.  What captures and providers answer are inputs.
 */
module RestThrottle {
  import opened Wrappers

  datatype Slice = Chain | Bars
  datatype Key = Key(symbol: string, slice: Slice)

  datatype Limits = Limits(chainTtl: real, barsTtl: real, gap: real) {
    function Ttl(key: Key): real { if key.slice.Chain? then chainTtl else barsTtl }
  }

  datatype State = State(lastCall: map<Key, real>, lastAny: real)

  function LastOf(s: State, key: Key): real {
    if key in s.lastCall then s.lastCall[key] else 0.0
  }

  predicate Allowed(s: State, key: Key, now: real, l: Limits) {
    now - LastOf(s, key) >= l.Ttl(key) && now - s.lastAny >= l.gap
  }

  function Throttled(s: State, key: Key, now: real, l: Limits): State {
    if Allowed(s, key, now, l) then State(s.lastCall[key := now], now) else s
  }

  // ---------------------------------------------------------------- runs

  datatype Call = Call(key: Key, now: real)

  function After(s: State, calls: seq<Call>, l: Limits): State {
    if calls == [] then s
    else
      var n := |calls| - 1;
      Throttled(After(s, calls[..n], l), calls[n].key, calls[n].now, l)
  }

  /** The calls that were granted. */
  function Grants(s: State, calls: seq<Call>, l: Limits): seq<Call> {
    if calls == [] then []
    else
      var n := |calls| - 1;
      Grants(s, calls[..n], l) + if Allowed(After(s, calls[..n], l), calls[n].key, calls[n].now, l) then [calls[n]]
        else []
  }

  function TimesOf(grants: seq<Call>): seq<real> {
    if grants == [] then [] else TimesOf(grants[..|grants| - 1]) + [grants[|grants| - 1].now]
  }

  function TimesFor(grants: seq<Call>, key: Key): seq<real> {
    if grants == [] then []
    else TimesFor(grants[..|grants| - 1], key) + if grants[|grants| - 1].key == key then [grants[|grants| - 1].now]
      else []
  }

  ghost predicate Spaced(times: seq<real>, gap: real) {
    forall i | 0 <= i < |times| - 1 :: times[i + 1] - times[i] >= gap
  }

  predicate LastIs(times: seq<real>, t: real) {
    times == [] || times[|times| - 1] == t
  }

  lemma SpacedGrows(times: seq<real>, gap: real, t: real)
    requires Spaced(times, gap) && (times != [] ==> t - times[|times| - 1] >= gap)
    ensures Spaced(times + [t], gap)
  {
  }

  lemma TimesGrow(grants: seq<Call>, c: Call, key: Key)
    ensures TimesOf(grants + [c]) == TimesOf(grants) + [c.now]
    ensures TimesFor(grants + [c], key) == TimesFor(grants, key) + if c.key == key then [c.now] else []
  {
  }

  /** Consecutive grants are a gap apart, and those of one key its time-to-live, whatever the clock says. */
  lemma {:induction false} GrantsAreSpaced(s: State, calls: seq<Call>, l: Limits, key: Key)
    ensures var g, r := Grants(s, calls, l), After(s, calls, l);
      && Spaced(TimesOf(g), l.gap) && LastIs(TimesOf(g), r.lastAny)
      && Spaced(TimesFor(g, key), l.Ttl(key)) && LastIs(TimesFor(g, key), LastOf(r, key))
  {
    if calls != [] {
      hide Spaced, TimesOf, TimesFor;
      var n := |calls| - 1;
      var g, c := Grants(s, calls[..n], l), calls[n];
      GrantsAreSpaced(s, calls[..n], l, key);
      if Allowed(After(s, calls[..n], l), c.key, c.now, l) {
        TimesGrow(g, c, key);
        SpacedGrows(TimesOf(g), l.gap, c.now);
        if c.key == key {
          SpacedGrows(TimesFor(g, key), l.Ttl(key), c.now);
        } else {
          assert TimesFor(g, key) + [] == TimesFor(g, key);
        }
      } else {
        assert g + [] == g;
      }
    }
  }

  /** A fresh process has seen no call; the source counts from time zero. */
  const FRESH := State(map[], 0.0)

  /** At least d has passed since the last of the times, or since zero. */
  predicate Elapsed(times: seq<real>, now: real, d: real) {
    now - (if times == [] then 0.0 else times[|times| - 1]) >= d
  }

  lemma {:induction false} NoGrantYet(calls: seq<Call>, l: Limits, key: Key)
    ensures TimesOf(Grants(FRESH, calls, l)) == [] ==> After(FRESH, calls, l).lastAny == 0.0
    ensures TimesFor(Grants(FRESH, calls, l), key) == [] ==> LastOf(After(FRESH, calls, l), key) == 0.0
  {
    if calls != [] {
      hide TimesOf, TimesFor;
      var n := |calls| - 1;
      var g := Grants(FRESH, calls[..n], l);
      NoGrantYet(calls[..n], l, key);
      TimesGrow(g, calls[n], key);
      assert g + [] == g;
    }
  }

  /**
    From a fresh process on, after any calls: a request is granted exactly when its own slice's
    time-to-live has passed since the last grant of its key, and the gap since the last grant at all.
   */
  lemma GrantedIff(calls: seq<Call>, c: Call, l: Limits)
    ensures var g := Grants(FRESH, calls, l);
      var ttl := if c.key.slice == Chain then l.chainTtl else l.barsTtl;
      Grants(FRESH, calls + [c], l) ==
        if Elapsed(TimesFor(g, c.key), c.now, ttl) && Elapsed(TimesOf(g), c.now, l.gap) then g + [c] else g
  {
    hide TimesOf, TimesFor;
    assert (calls + [c])[..|calls|] == calls;
    assert Grants(FRESH, calls, l) + [] == Grants(FRESH, calls, l);
    GrantsAreSpaced(FRESH, calls, l, c.key);
    NoGrantYet(calls, l, c.key);
  }

  // ---------------------------------------------------------------- how many fit in a window

  function Within(times: seq<real>, from: real, to: real): nat {
    if times == [] then 0
    else Within(times[..|times| - 1], from, to) + if from <= times[|times| - 1] <= to then 1 else 0
  }

  function Steps(n: nat, gap: real): real {
    if n == 0 then 0.0 else Steps(n - 1, gap) + gap
  }

  /** What is counted are the indices whose time lies in the window, both ends included. */
  lemma {:induction false} WithinCounts(times: seq<real>, from: real, to: real)
    ensures Within(times, from, to) == |set i | 0 <= i < |times| && from <= times[i] <= to|
  {
    var inside := set i | 0 <= i < |times| && from <= times[i] <= to;
    if times != [] {
      var n := |times| - 1;
      WithinCounts(times[..n], from, to);
      var before := set i | 0 <= i < n && from <= times[..n][i] <= to;
      assert inside == before + if from <= times[n] <= to then {n} else {};
    }
  }

  lemma {:induction false} LastIsGreatest(times: seq<real>, gap: real, i: nat)
    requires Spaced(times, gap) && gap >= 0.0 && i < |times|
    ensures times[i] <= times[|times| - 1]
    decreases |times| - i
  {
    if i < |times| - 1 {
      assert times[i + 1] - times[i] >= gap;
      LastIsGreatest(times, gap, i + 1);
    }
  }

  lemma {:induction false} WithinShrinks(times: seq<real>, from: real, to: real, less: real)
    requires less <= to && forall i | 0 <= i < |times| :: times[i] <= less
    ensures Within(times, from, to) == Within(times, from, less)
  {
    if times != [] {
      WithinShrinks(times[..|times| - 1], from, to, less);
    }
  }

  lemma {:induction false} WindowHolds(times: seq<real>, gap: real, from: real, to: real)
    requires Spaced(times, gap) && gap >= 0.0 && Within(times, from, to) > 0
    ensures Steps(Within(times, from, to) - 1, gap) <= to - from
  {
    var n := |times| - 1;
    var front, t := times[..n], times[n];
    assert Spaced(front, gap);
    if from <= t <= to {
      if Within(front, from, to) > 0 {
        forall i | 0 <= i < |front|
          ensures front[i] <= t - gap
        {
          LastIsGreatest(front, gap, i);
          assert times[n] - times[n - 1] >= gap;
        }
        WithinShrinks(front, from, to, t - gap);
        WindowHolds(front, gap, from, t - gap);
      }
    } else {
      WindowHolds(front, gap, from, to);
    }
  }

  lemma {:induction false} StepsProduct(n: nat, gap: real)
    ensures Steps(n, gap) == n as real * gap
  {
    if n > 0 {
      StepsProduct(n - 1, gap);
      assert n as real * gap == (n - 1) as real * gap + gap;
    }
  }

  lemma FitsInWindow(n: nat, gap: real, width: real)
    requires n > 0 && gap > 0.0 && Steps(n - 1, gap) <= width
    ensures n <= (width / gap).Floor + 1
  {
    StepsProduct(n - 1, gap);
    QuotientBounds((n - 1) as real, gap, width);
    assert (n - 1) as real <= width / gap;
  }

  lemma QuotientBounds(a: real, b: real, c: real)
    requires b > 0.0 && a * b <= c
    ensures a <= c / b
  {
  }

  /**
    Over any run, a window of width W holds at most floor(W / gap) + 1 grants in all and at most
    floor(W / ttl) + 1 for one key.
   */
  lemma RateBound(s: State, calls: seq<Call>, l: Limits, key: Key, from: real, width: real)
    requires width >= 0.0
    ensures l.gap > 0.0 ==> Within(TimesOf(Grants(s, calls, l)), from, from + width) <= (width / l.gap).Floor + 1
    ensures l.Ttl(key) > 0.0 ==>
      Within(TimesFor(Grants(s, calls, l), key), from, from + width) <= (width / l.Ttl(key)).Floor + 1
  {
    GrantsAreSpaced(s, calls, l, key);
    hide Grants, After, TimesOf, TimesFor, Within, Spaced, Steps;
    var g := Grants(s, calls, l);
    if l.gap > 0.0 {
      WindowBound(TimesOf(g), l.gap, from, width);
    }
    if l.Ttl(key) > 0.0 {
      WindowBound(TimesFor(g, key), l.Ttl(key), from, width);
    }
  }

  lemma WindowBound(times: seq<real>, gap: real, from: real, width: real)
    requires Spaced(times, gap) && gap > 0.0 && width >= 0.0
    ensures Within(times, from, from + width) <= (width / gap).Floor + 1
  {
    hide Within, Spaced, Steps;
    var n := Within(times, from, from + width);
    if n > 0 {
      WindowHolds(times, gap, from, from + width);
      FitsInWindow(n, gap, width);
    } else {
      QuotientBounds(0.0, gap, width);
    }
  }

  // ---------------------------------------------------------------- one chain request

  datatype Capture = NoCapture | EmptyCapture | CapturedChain

  /**
    What one provider would answer (an unsupported mode is no chain); `unresolved`: its expiry alias
    cannot be resolved from evidence.
   */
  datatype Probe = Probe(unresolved: bool, capture: Capture, liveChain: bool)

  /** `captureOnly`: an as-of request, or no live fallback asked for. */
  datatype Request = Request(symbol: string, captureOnly: bool, alias: bool, autoRoll: bool)

  function CaptureOf(p: Probe, r: Request): Capture {
    if r.autoRoll then NoCapture else p.capture
  }

  predicate Skipped(p: Probe, r: Request) {
    r.captureOnly && r.alias && p.unresolved
  }

  predicate WantsLive(p: Probe, r: Request) {
    !Skipped(p, r) && CaptureOf(p, r).NoCapture? && !r.captureOnly
  }

  /** The provider gives a chain: from its capture, or live if the throttle lets the request through. */
  predicate Serves(p: Probe, r: Request, granted: bool) {
    !Skipped(p, r) && (CaptureOf(p, r).CapturedChain? || (WantsLive(p, r) && granted && p.liveChain))
  }

  /** Without a live fallback a provider serves from its capture alone, if its alias can be resolved. */
  lemma CaptureServes(p: Probe, r: Request, granted: bool)
    requires r.captureOnly
    ensures !WantsLive(p, r)
    ensures Serves(p, r, granted) <==> !r.autoRoll && p.capture == CapturedChain && (r.alias ==> !p.unresolved)
  {
  }

  /** With one, a provider serves from its capture, or live where it has none or it would be rolled. */
  lemma LiveServes(p: Probe, r: Request, granted: bool)
    requires !r.captureOnly
    ensures WantsLive(p, r) <==> r.autoRoll || p.capture == NoCapture
    ensures Serves(p, r, granted) <==>
      if r.autoRoll || p.capture == NoCapture then granted && p.liveChain else p.capture == CapturedChain
  {
  }

  /** How many of the first n providers only a live call could serve. */
  function Wanting(probes: seq<Probe>, r: Request, n: nat): nat
    requires n <= |probes|
  {
    if n == 0 then 0 else Wanting(probes, r, n - 1) + if WantsLive(probes[n - 1], r) then 1 else 0
  }

  lemma {:induction false} WantingCounts(probes: seq<Probe>, r: Request, n: nat)
    requires n <= |probes|
    ensures Wanting(probes, r, n) == |set k: nat | k < n && WantsLive(probes[k], r)|
  {
    if n > 0 {
      WantingCounts(probes, r, n - 1);
      assert (set k: nat | k < n && WantsLive(probes[k], r)) ==
        (set k: nat | k < n - 1 && WantsLive(probes[k], r)) + if WantsLive(probes[n - 1], r) then {n - 1} else {};
    }
  }

  class MarketHub {
    const limits: Limits
    var lastCall: map<Key, real>
    var lastAny: real

    constructor (limits: Limits)
      ensures this.limits == limits && Now() == State(map[], 0.0)
    {
      this.limits := limits;
      lastCall, lastAny := map[], 0.0;
    }

    function Now(): State
      reads this
    {
      State(lastCall, lastAny)
    }

    method Throttle(key: Key, now: real) returns (ok: bool)
      modifies this
      ensures ok == Allowed(old(Now()), key, now, limits) && Now() == Throttled(old(Now()), key, now, limits)
      ensures ok <==>
        && now - (if key in old(lastCall) then old(lastCall)[key] else 0.0) >=
             (if key.slice == Chain then limits.chainTtl else limits.barsTtl)
        && now - old(lastAny) >= limits.gap
      ensures lastCall == (if ok then old(lastCall)[key := now] else old(lastCall))
      ensures lastAny == if ok then now else old(lastAny)
    {
      var ttl := if key.slice.Chain? then limits.chainTtl else limits.barsTtl;
      if now - (if key in lastCall then lastCall[key] else 0.0) < ttl {
        return false;
      }
      if now - lastAny < limits.gap {
        return false;
      }
      lastCall := lastCall[key := now];
      lastAny := now;
      return true;
    }

    /**
      The first provider that serves; the throttle is asked at most once, and only if a provider up to
      there has no capture.  One grant may cover a live call to every provider.
     */
    method GetChain(r: Request, probes: seq<Probe>, now: real) returns (served: Option<nat>, fetches: nat)
      modifies this
      ensures var key, granted := Key(r.symbol, Chain), Allowed(old(Now()), Key(r.symbol, Chain), now, limits);
        && (served.Some? ==> served.value < |probes| && Serves(probes[served.value], r, granted))
        && (forall k | 0 <= k < |probes| && (served.Some? ==> k < served.value) :: !Serves(probes[k], r, granted))
        && Now() == (if exists k | 0 <= k < |probes| && (served.Some? ==> k <= served.value) :: WantsLive(probes[k], r)
                     then Throttled(old(Now()), key, now, limits) else old(Now()))
        && fetches == if granted then Wanting(probes, r, if served.Some? then served.value + 1 else |probes|) else 0
    {
      var restAllowed: Option<bool> := None;
      fetches := 0;
      var i := 0;
      var key := Key(r.symbol, Chain);
      while i < |probes|
        invariant 0 <= i <= |probes|
        invariant fetches == if Allowed(old(Now()), key, now, limits) then Wanting(probes, r, i) else 0
        invariant forall k | 0 <= k < i :: !Serves(probes[k], r, Allowed(old(Now()), key, now, limits))
        invariant restAllowed.Some? <==> exists k | 0 <= k < i :: WantsLive(probes[k], r)
        invariant restAllowed.None? ==> Now() == old(Now())
        invariant restAllowed.Some? ==> restAllowed.value == Allowed(old(Now()), key, now, limits)
        invariant restAllowed.Some? ==> Now() == Throttled(old(Now()), key, now, limits)
      {
        var p := probes[i];
        var chain := false;
        if !(r.captureOnly && r.alias && p.unresolved) {
          if CaptureOf(p, r) != NoCapture {
            chain := CaptureOf(p, r) == CapturedChain;
          } else if !r.captureOnly {
            if restAllowed.None? {
              var ok := Throttle(key, now);
              restAllowed := Some(ok);
            }
            if restAllowed.value {
              fetches := fetches + 1;
              chain := p.liveChain;
            }
          }
        }
        if chain {
          return Some(i), fetches;
        }
        i := i + 1;
      }
      return None, fetches;
    }
  }
}
