/**
  The recent-signal registry of the Telegram dispatcher (backend/app/telegram_dispatcher.py).

  A call carries the clock's reading and what the send would answer; directions are taken after
  normalisation.  The structural-break lookup and the message text are outside the model.
 */
module SignalDispatcher {
  datatype Underlying = Underlying(n: nat)
  datatype Engine = Engine(n: nat)
  /** What normalisation leaves: any label it does not know, in upper case, stays itself; none is UNKNOWN. */
  datatype Direction = Bullish | Bearish | Other(name: string)

  datatype Windows = Windows(agreement: real, repeat: real) {
    function Longest(): real { if agreement < repeat then repeat else agreement }
  }

  datatype Entry = Entry(ts: real, direction: Direction, engine: Engine)

  /** How the send ends: accepted, refused, or by raising. */
  datatype Answer = Ok | NotOk | Raises
  datatype Call = Call(now: real, underlying: Underlying, direction: Direction, engine: Engine, answer: Answer) {
    function Mark(): Entry { Entry(now, direction, engine) }
  }

  datatype Agreement = NoneSeen | Confirmed(other: Engine) | Conflict(other: Engine)
  datatype Outcome = Suppressed | Sent(agreement: Agreement) | Failed(agreement: Agreement) | Raised

  // ---------------------------------------------------------------- one decision, from a list of entries

  predicate RepeatOf(e: Entry, c: Call, w: Windows) {
    e.engine == c.engine && e.direction == c.direction && c.now - e.ts <= w.repeat
  }

  predicate OtherOf(e: Entry, c: Call, w: Windows) {
    e.engine != c.engine && c.now - e.ts <= w.agreement
  }

  predicate Repeated(es: seq<Entry>, c: Call, w: Windows) {
    es != [] && (RepeatOf(es[0], c, w) || Repeated(es[1..], c, w))
  }

  function AgreementOf(es: seq<Entry>, c: Call, w: Windows): Agreement {
    if es == [] then NoneSeen
    else if !OtherOf(es[0], c, w) then AgreementOf(es[1..], c, w)
    else if es[0].direction == c.direction then Confirmed(es[0].engine)
    else Conflict(es[0].engine)
  }

  function Decide(es: seq<Entry>, c: Call, w: Windows): Outcome {
    if Repeated(es, c, w) then Suppressed
    else
      match c.answer
      case Ok => Sent(AgreementOf(es, c, w))
      case NotOk => Failed(AgreementOf(es, c, w))
      case Raises => Raised
  }

  /** Only a send that returned, whatever it answered, leaves an entry. */
  predicate Leaves(o: Outcome) {
    o.Sent? || o.Failed?
  }

  // ---------------------------------------------------------------- the pruned registry

  type Recent = map<Underlying, seq<Entry>>

  function Kept(es: seq<Entry>, now: real, w: Windows): seq<Entry> {
    if es == [] then []
    else (if now - es[0].ts <= w.Longest() then [es[0]] else []) + Kept(es[1..], now, w)
  }

  function RecentOf(recent: Recent, u: Underlying): seq<Entry> {
    if u in recent then recent[u] else []
  }

  function Dispatched(recent: Recent, c: Call, w: Windows): (Recent, Outcome) {
    var kept := Kept(RecentOf(recent, c.underlying), c.now, w);
    var o := Decide(kept, c, w);
    (recent[c.underlying := if Leaves(o) then kept + [c.Mark()] else kept], o)
  }

  function Outcomes(recent: Recent, calls: seq<Call>, w: Windows): seq<Outcome>
    decreases |calls|
  {
    if calls == [] then []
    else
      var (r, o) := Dispatched(recent, calls[0], w);
      [o] + Outcomes(r, calls[1..], w)
  }

  // ---------------------------------------------------------------- the same with all history kept

  /** Every entry ever left, oldest first, with its underlying. */
  type Past = seq<(Underlying, Entry)>

  function PastOf(past: Past, u: Underlying): seq<Entry> {
    if past == [] then []
    else (if past[0].0 == u then [past[0].1] else []) + PastOf(past[1..], u)
  }

  function Remember(past: Past, c: Call, o: Outcome): Past {
    if Leaves(o) then past + [(c.underlying, c.Mark())] else past
  }

  function FullOutcomes(past: Past, calls: seq<Call>, w: Windows): (os: seq<Outcome>)
    ensures |os| == |calls|
    decreases |calls|
  {
    if calls == [] then []
    else
      var o := Decide(PastOf(past, calls[0].underlying), calls[0], w);
      [o] + FullOutcomes(Remember(past, calls[0], o), calls[1..], w)
  }

  // ---------------------------------------------------------------- pruning changes no decision

  lemma {:induction false} KeptRepeated(es: seq<Entry>, c: Call, w: Windows)
    ensures Repeated(Kept(es, c.now, w), c, w) == Repeated(es, c, w)
  {
    if es != [] {
      KeptRepeated(es[1..], c, w);
      var rest := Kept(es[1..], c.now, w);
      if c.now - es[0].ts <= w.Longest() {
        assert Kept(es, c.now, w)[1..] == rest;
      } else {
        assert Kept(es, c.now, w) == rest;
      }
    }
  }

  lemma {:induction false} KeptAgreement(es: seq<Entry>, c: Call, w: Windows)
    ensures AgreementOf(Kept(es, c.now, w), c, w) == AgreementOf(es, c, w)
  {
    if es != [] {
      KeptAgreement(es[1..], c, w);
      var rest := Kept(es[1..], c.now, w);
      if c.now - es[0].ts <= w.Longest() {
        assert Kept(es, c.now, w)[1..] == rest;
      } else {
        assert Kept(es, c.now, w) == rest;
      }
    }
  }

  /** What is out of the window at one time is out of it at the other. */
  ghost predicate StaysOut(ts: real, t: real, later: real, w: Windows) {
    t - ts > w.Longest() ==> later - ts > w.Longest()
  }

  ghost predicate AllStayOut(es: seq<Entry>, t: real, later: real, w: Windows) {
    forall e | e in es :: StaysOut(e.ts, t, later, w)
  }

  lemma {:induction false} KeptTwice(es: seq<Entry>, t: real, later: real, w: Windows)
    requires AllStayOut(es, t, later, w)
    ensures Kept(Kept(es, t, w), later, w) == Kept(es, later, w)
  {
    if es != [] {
      assert es[0] in es && forall e | e in es[1..] :: e in es;
      assert StaysOut(es[0].ts, t, later, w);
      KeptTwice(es[1..], t, later, w);
      var rest := Kept(es[1..], t, w);
      if t - es[0].ts <= w.Longest() {
        assert Kept(es, t, w)[1..] == rest;
      } else {
        assert Kept(es, t, w) == rest;
      }
    }
  }

  lemma {:induction false} KeptAppend(es: seq<Entry>, e: Entry, t: real, w: Windows)
    ensures Kept(es + [e], t, w) == Kept(es, t, w) + Kept([e], t, w)
  {
    if es == [] {
      assert es + [e] == [e];
    } else {
      assert (es + [e])[1..] == es[1..] + [e];
      KeptAppend(es[1..], e, t, w);
    }
  }

  lemma {:induction false} PastAppend(past: Past, u: Underlying, e: Entry, v: Underlying)
    ensures PastOf(past + [(u, e)], v) == PastOf(past, v) + (if u == v then [e] else [])
  {
    if past == [] {
      assert past + [(u, e)] == [(u, e)];
    } else {
      assert (past + [(u, e)])[1..] == past[1..] + [(u, e)];
      PastAppend(past[1..], u, e, v);
    }
  }

  ghost predicate SameFrom(recent: Recent, past: Past, u: Underlying, t: real, w: Windows) {
    Kept(RecentOf(recent, u), t, w) == Kept(PastOf(past, u), t, w)
  }

  lemma KeptDecide(es: seq<Entry>, c: Call, w: Windows)
    ensures Decide(Kept(es, c.now, w), c, w) == Decide(es, c, w)
  {
    KeptRepeated(es, c, w);
    KeptAgreement(es, c, w);
  }

  /** At the times of the calls to come, the registry and the full history look the same after pruning. */
  ghost predicate Faithful(recent: Recent, past: Past, calls: seq<Call>, w: Windows) {
    forall k | 0 <= k < |calls| :: SameFrom(recent, past, calls[k].underlying, calls[k].now, w)
  }

  /** Once a call to the underlying finds the time out of the window, every later one does. */
  ghost predicate GoneForGood(ts: real, u: Underlying, calls: seq<Call>, w: Windows) {
    forall j, k | 0 <= j < k < |calls| && calls[j].underlying == u && calls[k].underlying == u ::
      StaysOut(ts, calls[j].now, calls[k].now, w)
  }

  ghost predicate PastGone(past: Past, calls: seq<Call>, w: Windows) {
    forall u, e | e in PastOf(past, u) :: GoneForGood(e.ts, u, calls, w)
  }

  /** No call's time comes back into the window after a later call to its underlying found it out. */
  ghost predicate Steady(calls: seq<Call>, w: Windows) {
    calls == [] || (GoneForGood(calls[0].now, calls[0].underlying, calls[1..], w) && Steady(calls[1..], w))
  }

  lemma GoneTail(ts: real, u: Underlying, calls: seq<Call>, w: Windows)
    requires calls != [] && GoneForGood(ts, u, calls, w)
    ensures GoneForGood(ts, u, calls[1..], w)
    ensures forall k | 0 <= k < |calls| - 1 && calls[0].underlying == u && calls[1..][k].underlying == u ::
      StaysOut(ts, calls[0].now, calls[1..][k].now, w)
  {
    hide StaysOut;
    forall j, k | 0 <= j < k < |calls| - 1 && calls[1..][j].underlying == u && calls[1..][k].underlying == u
      ensures StaysOut(ts, calls[1..][j].now, calls[1..][k].now, w)
    {
      assert calls[1..][j] == calls[j + 1] && calls[1..][k] == calls[k + 1];
    }
  }

  lemma PastStaysGone(past: Past, calls: seq<Call>, o: Outcome, w: Windows)
    requires calls != [] && PastGone(past, calls, w) && Steady(calls, w)
    ensures PastGone(Remember(past, calls[0], o), calls[1..], w)
  {
    hide GoneForGood, PastOf;
    var c := calls[0];
    forall u, e | e in PastOf(Remember(past, c, o), u)
      ensures GoneForGood(e.ts, u, calls[1..], w)
    {
      if Leaves(o) {
        PastAppend(past, c.underlying, c.Mark(), u);
      }
      if e in PastOf(past, u) {
        GoneTail(e.ts, u, calls, w);
      }
    }
  }

  lemma SameAfter(recent: Recent, past: Past, calls: seq<Call>, w: Windows, k: nat)
    requires calls != [] && k < |calls| - 1 && Faithful(recent, past, calls, w) && PastGone(past, calls, w)
    ensures var c := calls[0]; var (r, o) := Dispatched(recent, c, w);
      SameFrom(r, Remember(past, c, o), calls[1..][k].underlying, calls[1..][k].now, w)
  {
    hide Kept, PastOf, Repeated, AgreementOf, GoneForGood, StaysOut;
    var c, u, later := calls[0], calls[k + 1].underlying, calls[k + 1].now;
    var es := RecentOf(recent, c.underlying);
    var kept := Kept(es, c.now, w);
    var (r, o) := Dispatched(recent, c, w);
    assert SameFrom(recent, past, calls[0].underlying, calls[0].now, w);
    assert SameFrom(recent, past, calls[k + 1].underlying, calls[k + 1].now, w);
    if Leaves(o) {
      PastAppend(past, c.underlying, c.Mark(), u);
    }
    if u == c.underlying {
      forall e | e in PastOf(past, u)
        ensures StaysOut(e.ts, c.now, later, w)
      {
        GoneTail(e.ts, u, calls, w);
        assert calls[1..][k].underlying == u;
      }
      KeptTwice(PastOf(past, u), c.now, later, w);
      KeptAppend(kept, c.Mark(), later, w);
      KeptAppend(PastOf(past, u), c.Mark(), later, w);
    } else {
      assert PastOf(past, u) + [] == PastOf(past, u);
    }
  }

  lemma DispatchFaithful(recent: Recent, past: Past, calls: seq<Call>, w: Windows)
    requires calls != [] && Faithful(recent, past, calls, w) && PastGone(past, calls, w)
    ensures Dispatched(recent, calls[0], w).1 == Decide(PastOf(past, calls[0].underlying), calls[0], w)
    ensures var (r, o) := Dispatched(recent, calls[0], w); Faithful(r, Remember(past, calls[0], o), calls[1..], w)
  {
    hide SameFrom, Decide, PastGone, Remember;
    forall k: nat | k < |calls| - 1
      ensures var (r, o) := Dispatched(recent, calls[0], w);
        SameFrom(r, Remember(past, calls[0], o), calls[1..][k].underlying, calls[1..][k].now, w)
    {
      SameAfter(recent, past, calls, w, k);
    }
    FirstFaithful(recent, past, calls, w);
  }

  lemma FirstFaithful(recent: Recent, past: Past, calls: seq<Call>, w: Windows)
    requires calls != [] && Faithful(recent, past, calls, w)
    ensures Dispatched(recent, calls[0], w).1 == Decide(PastOf(past, calls[0].underlying), calls[0], w)
  {
    hide Decide, Kept, PastOf;
    var c := calls[0];
    assert SameFrom(recent, past, calls[0].underlying, calls[0].now, w);
    KeptDecide(RecentOf(recent, c.underlying), c, w);
    KeptDecide(PastOf(past, c.underlying), c, w);
  }

  /** With steady readings, in particular with a clock that never goes back, pruning loses nothing. */
  lemma {:induction false} PruningLosesNothing(recent: Recent, past: Past, calls: seq<Call>, w: Windows)
    requires Faithful(recent, past, calls, w) && PastGone(past, calls, w) && Steady(calls, w)
    ensures Outcomes(recent, calls, w) == FullOutcomes(past, calls, w)
    decreases |calls|
  {
    hide Faithful, PastGone, Dispatched, Decide, PastOf, Remember;
    if calls != [] {
      var c := calls[0];
      var (r, o) := Dispatched(recent, c, w);
      DispatchFaithful(recent, past, calls, w);
      PastStaysGone(past, calls, o, w);
      PruningLosesNothing(r, Remember(past, c, o), calls[1..], w);
    }
  }

  predicate InOrder(calls: seq<Call>) {
    calls == [] || ((forall k | 1 <= k < |calls| :: calls[0].now <= calls[k].now) && InOrder(calls[1..]))
  }

  lemma {:induction false} InOrderIsSteady(calls: seq<Call>, w: Windows)
    requires InOrder(calls)
    ensures Steady(calls, w)
  {
    if calls != [] {
      InOrderIsSteady(calls[1..], w);
      InOrderLater(calls[1..]);
    }
  }

  lemma {:induction false} InOrderLater(calls: seq<Call>)
    requires InOrder(calls)
    ensures forall j, k | 0 <= j < k < |calls| :: calls[j].now <= calls[k].now
  {
    if calls != [] {
      InOrderLater(calls[1..]);
      forall j, k | 0 <= j < k < |calls|
        ensures calls[j].now <= calls[k].now
      {
        if j > 0 {
          assert calls[1..][j - 1] == calls[j] && calls[1..][k - 1] == calls[k];
        }
      }
    }
  }

  // ---------------------------------------------------------------- decisions by call history alone

  /** The entries left by the first j calls. */
  function Log(past: Past, calls: seq<Call>, outs: seq<Outcome>, j: nat): Past
    requires j <= |calls| == |outs|
  {
    if j == 0 then past else Remember(Log(past, calls, outs, j - 1), calls[j - 1], outs[j - 1])
  }

  lemma {:induction false} LogUnfolds(past: Past, calls: seq<Call>, outs: seq<Outcome>, j: nat)
    requires 0 < j <= |calls| == |outs|
    ensures Log(past, calls, outs, j) == Log(Remember(past, calls[0], outs[0]), calls[1..], outs[1..], j - 1)
  {
    if j > 1 {
      LogUnfolds(past, calls, outs, j - 1);
    }
  }

  lemma {:induction false} FullAt(past: Past, calls: seq<Call>, w: Windows, j: nat)
    requires j < |calls|
    ensures FullOutcomes(past, calls, w)[j] ==
      Decide(PastOf(Log(past, calls, FullOutcomes(past, calls, w), j), calls[j].underlying), calls[j], w)
    decreases j
  {
    hide Decide, PastOf;
    var outs := FullOutcomes(past, calls, w);
    if j > 0 {
      hide Log;
      LogUnfolds(past, calls, outs, j);
      FullAt(Remember(past, calls[0], outs[0]), calls[1..], w, j - 1);
      assert outs[1..] == FullOutcomes(Remember(past, calls[0], outs[0]), calls[1..], w);
    }
  }

  lemma {:induction false} RepeatedAppend(es: seq<Entry>, e: Entry, c: Call, w: Windows)
    ensures Repeated(es + [e], c, w) <==> Repeated(es, c, w) || RepeatOf(e, c, w)
  {
    if es == [] {
      assert es + [e] == [e];
    } else {
      assert (es + [e])[1..] == es[1..] + [e];
      RepeatedAppend(es[1..], e, c, w);
    }
  }

  lemma {:induction false} AgreementAppend(es: seq<Entry>, e: Entry, c: Call, w: Windows)
    ensures AgreementOf(es + [e], c, w) ==
      if AgreementOf(es, c, w) != NoneSeen then AgreementOf(es, c, w) else AgreementOf([e], c, w)
  {
    if es == [] {
      assert es + [e] == [e];
    } else {
      assert (es + [e])[1..] == es[1..] + [e];
      AgreementAppend(es[1..], e, c, w);
    }
  }

  /** Call i left an entry that makes call c a repeat. */
  ghost predicate Blocks(calls: seq<Call>, outs: seq<Outcome>, i: int, c: Call, w: Windows) {
    && 0 <= i < |calls| == |outs| && (outs[i].Sent? || outs[i].Failed?)
    && calls[i].underlying == c.underlying && calls[i].engine == c.engine && calls[i].direction == c.direction
    && c.now - calls[i].now <= w.repeat
  }

  /** Call i left an entry of another engine that call c agrees or conflicts with. */
  ghost predicate Speaks(calls: seq<Call>, outs: seq<Outcome>, i: int, c: Call, w: Windows) {
    && 0 <= i < |calls| == |outs| && (outs[i].Sent? || outs[i].Failed?)
    && calls[i].underlying == c.underlying && calls[i].engine != c.engine && c.now - calls[i].now <= w.agreement
  }

  lemma {:induction false} RepeatedIff(calls: seq<Call>, outs: seq<Outcome>, j: nat, c: Call, w: Windows)
    requires j <= |calls| == |outs|
    ensures Repeated(PastOf(Log([], calls, outs, j), c.underlying), c, w) <==>
      exists i | 0 <= i < j :: Blocks(calls, outs, i, c, w)
  {
    if j > 0 {
      hide Repeated, PastOf, RepeatOf;
      RepeatedIff(calls, outs, j - 1, c, w);
      var before := Log([], calls, outs, j - 1);
      var mark := calls[j - 1].Mark();
      PastAppend(before, calls[j - 1].underlying, mark, c.underlying);
      RepeatedAppend(PastOf(before, c.underlying), mark, c, w);
      assert PastOf(before, c.underlying) + [] == PastOf(before, c.underlying);
      assert (exists i | 0 <= i < j :: Blocks(calls, outs, i, c, w)) <==>
        (exists i | 0 <= i < j - 1 :: Blocks(calls, outs, i, c, w)) || Blocks(calls, outs, j - 1, c, w);
    }
  }

  function Says(e: Entry, c: Call): Agreement {
    if e.direction == c.direction then Confirmed(e.engine) else Conflict(e.engine)
  }

  lemma OneVoice(e: Entry, c: Call, w: Windows)
    ensures AgreementOf([e], c, w) == if OtherOf(e, c, w) then Says(e, c) else NoneSeen
  {
  }

  lemma {:induction false} AgreementIsOldest(calls: seq<Call>, outs: seq<Outcome>, j: nat, c: Call, w: Windows, i: nat)
    requires j <= |calls| == |outs| && i <= j
    requires forall k | 0 <= k < i :: !Speaks(calls, outs, k, c, w)
    requires i == j || Speaks(calls, outs, i, c, w)
    ensures AgreementOf(PastOf(Log([], calls, outs, j), c.underlying), c, w) ==
      if i == j then NoneSeen else Says(calls[i].Mark(), c)
  {
    if j > 0 {
      hide AgreementOf, PastOf, OtherOf;
      AgreementIsOldest(calls, outs, j - 1, c, w, if i == j then j - 1 else i);
      assert i == j ==> !Speaks(calls, outs, j - 1, c, w);
      var before := Log([], calls, outs, j - 1);
      var mark := calls[j - 1].Mark();
      PastAppend(before, calls[j - 1].underlying, mark, c.underlying);
      AgreementAppend(PastOf(before, c.underlying), mark, c, w);
      assert PastOf(before, c.underlying) + [] == PastOf(before, c.underlying);
      OneVoice(mark, c, w);
    }
  }

  /**
    The dispatcher by its history of calls: a call is suppressed exactly when an earlier call that left
    an entry has its key within the repeat window, so suppressed calls and raising sends extend nothing;
    otherwise it is answered with what the oldest other engine in the agreement window said.
   */
  lemma DispatchByHistory(calls: seq<Call>, w: Windows, j: nat)
    requires j < |calls| && Steady(calls, w)
    ensures |Outcomes(map[], calls, w)| == |calls|
    ensures Outcomes(map[], calls, w)[j].Suppressed? <==>
      exists i | 0 <= i < j :: Blocks(calls, Outcomes(map[], calls, w), i, calls[j], w)
    ensures forall i: nat | i <= j && Leaves(Outcomes(map[], calls, w)[j])
        && (forall k | 0 <= k < i :: !Speaks(calls, Outcomes(map[], calls, w), k, calls[j], w))
        && (i == j || Speaks(calls, Outcomes(map[], calls, w), i, calls[j], w)) ::
      Outcomes(map[], calls, w)[j].agreement == if i == j then NoneSeen else Says(calls[i].Mark(), calls[j])
    ensures !Outcomes(map[], calls, w)[j].Suppressed? ==>
      && (Outcomes(map[], calls, w)[j].Sent? <==> calls[j].answer == Ok)
      && (Outcomes(map[], calls, w)[j].Failed? <==> calls[j].answer == NotOk)
      && (Outcomes(map[], calls, w)[j].Raised? <==> calls[j].answer == Raises)
  {
    hide Outcomes, FullOutcomes, Speaks, Blocks, Log, PastOf, Repeated, AgreementOf, Steady, Says;
    EmptyFaithful(calls, w);
    PruningLosesNothing(map[], [], calls, w);
    var outs := FullOutcomes([], calls, w);
    FullAt([], calls, w, j);
    RepeatedIff(calls, outs, j, calls[j], w);
    forall i: nat | i <= j && Leaves(outs[j]) && (forall k | 0 <= k < i :: !Speaks(calls, outs, k, calls[j], w))
        && (i == j || Speaks(calls, outs, i, calls[j], w))
      ensures outs[j].agreement == if i == j then NoneSeen else Says(calls[i].Mark(), calls[j])
    {
      AgreementIsOldest(calls, outs, j, calls[j], w, i);
    }
  }

  lemma EmptyFaithful(calls: seq<Call>, w: Windows)
    ensures Faithful(map[], [], calls, w) && PastGone([], calls, w)
  {
  }

  /** A dispatch that is not suppressed is more than the repeat window after any that left an entry of its key. */
  lemma RepeatsAreApart(calls: seq<Call>, w: Windows, i: nat, j: nat)
    requires i < j < |calls| && Steady(calls, w) && |Outcomes(map[], calls, w)| == |calls|
    requires Leaves(Outcomes(map[], calls, w)[i]) && !Outcomes(map[], calls, w)[j].Suppressed?
    requires calls[i].underlying == calls[j].underlying && calls[i].engine == calls[j].engine &&
      calls[i].direction == calls[j].direction
    ensures calls[j].now - calls[i].now > w.repeat
  {
    hide Outcomes, Steady;
    DispatchByHistory(calls, w, j);
    assert !Blocks(calls, Outcomes(map[], calls, w), i, calls[j], w);
  }

  // ---------------------------------------------------------------- when the clock goes back

  /** Call j finds call i's time out of the window, and call k finds it back in. */
  ghost predicate ComesBack(calls: seq<Call>, w: Windows, i: int, j: int, k: int) {
    && 0 <= i < j < k < |calls| && calls[i].underlying == calls[j].underlying == calls[k].underlying
    && !StaysOut(calls[i].now, calls[j].now, calls[k].now, w)
  }

  lemma ComesBackTail(calls: seq<Call>, w: Windows, i: int, j: int, k: int)
    requires calls != []
    ensures ComesBack(calls[1..], w, i, j, k) <==> 0 <= i && ComesBack(calls, w, i + 1, j + 1, k + 1)
  {
  }

  lemma FirstComesBack(calls: seq<Call>, w: Windows)
    requires calls != []
    ensures GoneForGood(calls[0].now, calls[0].underlying, calls[1..], w) <==>
      forall j, k :: !ComesBack(calls, w, 0, j, k)
  {
    var ts, u := calls[0].now, calls[0].underlying;
    hide StaysOut;
    if GoneForGood(ts, u, calls[1..], w) {
      forall j, k
        ensures !ComesBack(calls, w, 0, j, k)
      {
        if 0 < j < k < |calls| && calls[j].underlying == u && calls[k].underlying == u {
          assert calls[1..][j - 1] == calls[j] && calls[1..][k - 1] == calls[k];
          assert StaysOut(ts, calls[1..][j - 1].now, calls[1..][k - 1].now, w);
        }
      }
    } else {
      var j, k :| 0 <= j < k < |calls| - 1 && calls[1..][j].underlying == u && calls[1..][k].underlying == u
                  && !StaysOut(ts, calls[1..][j].now, calls[1..][k].now, w);
      assert ComesBack(calls, w, 0, j + 1, k + 1);
    }
  }

  lemma {:induction false} SteadyIff(calls: seq<Call>, w: Windows)
    ensures Steady(calls, w) <==> forall i, j, k :: !ComesBack(calls, w, i, j, k)
  {
    if calls != [] {
      SteadyIff(calls[1..], w);
      FirstComesBack(calls, w);
      hide GoneForGood, StaysOut;
      forall i, j, k
        ensures ComesBack(calls[1..], w, i, j, k) <==> 0 <= i && ComesBack(calls, w, i + 1, j + 1, k + 1)
      {
        ComesBackTail(calls, w, i, j, k);
      }
      forall i, j, k | ComesBack(calls, w, i, j, k)
        ensures i == 0 || ComesBack(calls[1..], w, i - 1, j - 1, k - 1)
      {
        ComesBackTail(calls, w, i - 1, j - 1, k - 1);
      }
    }
  }

  /** The registry after the first m calls. */
  function RecentAfter(recent: Recent, calls: seq<Call>, w: Windows, m: nat): Recent
    requires m <= |calls|
  {
    if m == 0 then recent else Dispatched(RecentAfter(recent, calls, w, m - 1), calls[m - 1], w).0
  }

  lemma {:induction false} RecentUnfolds(recent: Recent, calls: seq<Call>, w: Windows, m: nat)
    requires 0 < m <= |calls|
    ensures RecentAfter(recent, calls, w, m) == RecentAfter(Dispatched(recent, calls[0], w).0, calls[1..], w, m - 1)
  {
    hide Dispatched;
    if m > 1 {
      RecentUnfolds(recent, calls, w, m - 1);
    }
  }

  lemma {:induction false} OutcomeAt(recent: Recent, calls: seq<Call>, w: Windows, m: nat)
    requires m < |calls|
    ensures m < |Outcomes(recent, calls, w)|
    ensures Outcomes(recent, calls, w)[m] == Dispatched(RecentAfter(recent, calls, w, m), calls[m], w).1
    decreases m
  {
    hide Dispatched;
    if m > 0 {
      OutcomeAt(Dispatched(recent, calls[0], w).0, calls[1..], w, m - 1);
      RecentUnfolds(recent, calls, w, m);
    }
  }

  const SYMBOL := Underlying(0)

  /** Call i leaves an entry, call k looks for it, and every other send raises. */
  function WitnessCall(t: real, m: int, w: Windows, i: int, k: int): Call {
    var finder := if w.agreement < w.repeat then Engine(0) else Engine(1);
    if m == i then Call(t, SYMBOL, Bullish, Engine(0), Ok)
    else if m == k then Call(t, SYMBOL, Bullish, finder, Ok)
    else Call(t, SYMBOL, Bullish, Engine(1), Raises)
  }

  function Witness(times: seq<real>, w: Windows, i: int, k: int): (calls: seq<Call>)
    ensures |calls| == |times|
  {
    seq(|times|, m requires 0 <= m < |times| => WitnessCall(times[m], m, w, i, k))
  }

  ghost predicate Returns(times: seq<real>, w: Windows, i: int, j: int, k: int) {
    0 <= i < j < k < |times| && !StaysOut(times[i], times[j], times[k], w)
  }

  lemma DecideOne(e: Entry, c: Call, w: Windows)
    ensures Decide([e], c, w) ==
      if RepeatOf(e, c, w) then Suppressed
      else
        var a := if OtherOf(e, c, w) then Says(e, c) else NoneSeen;
        match c.answer case Ok => Sent(a) case NotOk => Failed(a) case Raises => Raised
    ensures Kept([e], c.now, w) == [e] || Kept([e], c.now, w) == []
  {
    assert [e][1..] == [];
    OneVoice(e, c, w);
    assert Repeated([e], c, w) == RepeatOf(e, c, w);
    assert Kept([e], c.now, w) == [e] || Kept([e], c.now, w) == [];
    hide Repeated, AgreementOf, Kept, RepeatOf, OtherOf, Says;
  }

  lemma DecideNone(c: Call, w: Windows)
    ensures Decide([], c, w) ==
      match c.answer case Ok => Sent(NoneSeen) case NotOk => Failed(NoneSeen) case Raises => Raised
    ensures Kept([], c.now, w) == []
  {
  }

  lemma {:induction false} WitnessRecent(times: seq<real>, w: Windows, i: int, j: int, k: int, m: nat)
    requires Returns(times, w, i, j, k) && m <= k
    ensures var es := RecentOf(RecentAfter(map[], Witness(times, w, i, k), w, m), SYMBOL);
      if i < m <= j then es == [] || es == [WitnessCall(times[i], i, w, i, k).Mark()] else es == []
  {
    hide Decide, Witness, WitnessCall;
    if m > 0 {
      WitnessRecent(times, w, i, j, k, m - 1);
      WitnessStep(times, w, i, j, k, m - 1, RecentAfter(map[], Witness(times, w, i, k), w, m - 1));
    }
  }

  lemma WitnessStep(times: seq<real>, w: Windows, i: int, j: int, k: int, m: nat, recent: Recent)
    requires Returns(times, w, i, j, k) && m < k
    requires var es := RecentOf(recent, SYMBOL);
      if i < m <= j then es == [] || es == [WitnessCall(times[i], i, w, i, k).Mark()] else es == []
    ensures var es := RecentOf(Dispatched(recent, Witness(times, w, i, k)[m], w).0, SYMBOL);
      if i < m + 1 <= j then es == [] || es == [WitnessCall(times[i], i, w, i, k).Mark()] else es == []
  {
    var e := WitnessCall(times[i], i, w, i, k).Mark();
    var c := WitnessCall(times[m], m, w, i, k);
    var kept := Kept(RecentOf(recent, SYMBOL), c.now, w);
    DecideOne(e, c, w);
    DecideNone(c, w);
    assert m > i ==> Decide(kept, c, w) == Raised;
    assert m == j ==> Kept([e], c.now, w) == [] by {
      assert [e][1..] == [];
    }
    hide Decide, Kept;
    assert [] + [e] == [e];
  }

  lemma {:induction false} WitnessLog(times: seq<real>, w: Windows, i: int, k: int, m: nat)
    requires 0 <= i < k < |times| && m <= k
    ensures var calls := Witness(times, w, i, k);
      Log([], calls, FullOutcomes([], calls, w), m) ==
        if m <= i then [] else [(SYMBOL, WitnessCall(times[i], i, w, i, k).Mark())]
  {
    if m > 0 {
      var calls := Witness(times, w, i, k);
      hide FullOutcomes;
      WitnessLog(times, w, i, k, m - 1);
      FullAt([], calls, w, m - 1);
      var e := WitnessCall(times[i], i, w, i, k).Mark();
      assert PastOf([(SYMBOL, e)], SYMBOL) == [e] && PastOf([], SYMBOL) == [];
      DecideOne(e, calls[m - 1], w);
      DecideNone(calls[m - 1], w);
      assert calls[m - 1] == WitnessCall(times[m - 1], m - 1, w, i, k);
      hide Decide, PastOf, Witness;
      assert [] + [(SYMBOL, e)] == [(SYMBOL, e)];
    }
  }

  /** Readings that come back into the window: on these calls the pruned dispatcher decides call k differently. */
  lemma ReturningReadingsDiffer(times: seq<real>, w: Windows, i: int, j: int, k: int)
    requires Returns(times, w, i, j, k)
    ensures var calls := Witness(times, w, i, k);
      && k < |Outcomes(map[], calls, w)| && Outcomes(map[], calls, w)[k] == Sent(NoneSeen)
      && FullOutcomes([], calls, w)[k] == if w.agreement < w.repeat then Suppressed else Sent(Confirmed(Engine(0)))
  {
    var calls := Witness(times, w, i, k);
    var e := WitnessCall(times[i], i, w, i, k).Mark();
    OutcomeAt(map[], calls, w, k);
    WitnessRecent(times, w, i, j, k, k);
    FullAt([], calls, w, k);
    WitnessLog(times, w, i, k, k);
    assert PastOf([(SYMBOL, e)], SYMBOL) == [e];
    DecideOne(e, calls[k], w);
  }

  ghost predicate ReadAt(calls: seq<Call>, times: seq<real>) {
    |calls| == |times| && forall m | 0 <= m < |times| :: calls[m].now == times[m] && calls[m].underlying == SYMBOL
  }

  /**
    For given clock readings of calls to one underlying: pruning loses nothing, whatever the engines,
    directions and answers, exactly when no reading comes back into the window of an earlier one.
   */
  lemma PruningLosesNothingIff(times: seq<real>, w: Windows)
    ensures (forall calls | ReadAt(calls, times) :: Outcomes(map[], calls, w) == FullOutcomes([], calls, w))
            <==> forall i, j, k :: !Returns(times, w, i, j, k)
  {
    hide Outcomes, FullOutcomes, Steady, StaysOut, Witness;
    if i, j, k :| Returns(times, w, i, j, k) {
      ReturningReadingsDiffer(times, w, i, j, k);
      WitnessReadAt(times, w, i, k);
    } else {
      forall calls | ReadAt(calls, times)
        ensures Outcomes(map[], calls, w) == FullOutcomes([], calls, w)
      {
        forall i, j, k
          ensures !ComesBack(calls, w, i, j, k)
        {
          assert !Returns(times, w, i, j, k);
        }
        SteadyIff(calls, w);
        EmptyFaithful(calls, w);
        PruningLosesNothing(map[], [], calls, w);
      }
    }
  }

  lemma WitnessReadAt(times: seq<real>, w: Windows, i: int, k: int)
    ensures ReadAt(Witness(times, w, i, k), times)
  {
  }

  /** With the standard windows, a clock step back loses the agreement of a signal still in the window. */
  lemma ClockGoingBackMisses()
    ensures var w, times := Windows(900.0, 600.0), [0.0, 2000.0, 100.0];
      var calls := Witness(times, w, 0, 2);
      && 2 < |Outcomes(map[], calls, w)| && Outcomes(map[], calls, w)[2] == Sent(NoneSeen)
      && FullOutcomes([], calls, w)[2] == Sent(Confirmed(Engine(0)))
  {
    hide Outcomes, FullOutcomes, Witness;
    ReturningReadingsDiffer([0.0, 2000.0, 100.0], Windows(900.0, 600.0), 0, 1, 2);
  }

  /** A send that raised blocks nothing: the next call of its key goes out at once. */
  lemma RaisedSendDoesNotBlock(a: Call, b: Call, w: Windows)
    requires a.answer == Raises && b.underlying == a.underlying && b.engine == a.engine && b.direction == a.direction
    ensures FullOutcomes([], [a, b], w)[1] == Decide([], b, w) && Decide([], b, w) != Suppressed
  {
    assert [a, b][1..] == [b];
  }

  // ---------------------------------------------------------------- the dispatcher

  datatype Record = Record(call: Call, outcome: Outcome)

  class TelegramDispatcher {
    const windows: Windows
    var recent: Recent
    var history: seq<Record>

    constructor (windows: Windows)
      ensures this.windows == windows && recent == map[] && history == []
    {
      this.windows := windows;
      recent, history := map[], [];
    }

    method Prune(u: Underlying, now: real) returns (kept: seq<Entry>)
      modifies `recent
      ensures kept == Kept(RecentOf(old(recent), u), now, windows) && recent == old(recent)[u := kept]
    {
      var es := RecentOf(recent, u);
      kept := [];
      var i := 0;
      while i < |es|
        invariant 0 <= i <= |es| && recent == old(recent)
        invariant Kept(es, now, windows) == kept + Kept(es[i..], now, windows)
      {
        assert es[i..][0] == es[i] && es[i..][1..] == es[i + 1..];
        if now - es[i].ts <= windows.Longest() {
          kept := kept + [es[i]];
        }
        i := i + 1;
      }
      assert es[i..] == [];
      recent := recent[u := kept];
    }

    method Dispatch(c: Call) returns (outcome: Outcome)
      modifies this
      ensures (recent, outcome) == Dispatched(old(recent), c, windows)
      ensures history == if outcome.Raised? then old(history) else old(history) + [Record(c, outcome)]
    {
      hide Kept;
      var entries := Prune(c.underlying, c.now);
      var i := 0;
      while i < |entries|
        invariant 0 <= i <= |entries|
        invariant Repeated(entries, c, windows) == Repeated(entries[i..], c, windows)
      {
        assert entries[i..][0] == entries[i] && entries[i..][1..] == entries[i + 1..];
        if RepeatOf(entries[i], c, windows) {
          history := history + [Record(c, Suppressed)];
          return Suppressed;
        }
        i := i + 1;
      }
      assert entries[i..] == [];
      var agreement := NoneSeen;
      i := 0;
      while i < |entries|
        invariant 0 <= i <= |entries| && agreement == NoneSeen
        invariant AgreementOf(entries, c, windows) == AgreementOf(entries[i..], c, windows)
      {
        assert entries[i..][0] == entries[i] && entries[i..][1..] == entries[i + 1..];
        if OtherOf(entries[i], c, windows) {
          agreement := if entries[i].direction == c.direction then Confirmed(entries[i].engine)
            else Conflict(entries[i].engine);
          break;
        }
        i := i + 1;
      }
      assert agreement == AgreementOf(entries, c, windows) by {
        if agreement == NoneSeen {
          assert entries[i..] == [];
        }
      }
      if c.answer == Raises {
        return Raised;
      }
      recent := recent[c.underlying := entries + [c.Mark()]];
      assert recent == old(recent)[c.underlying := entries + [c.Mark()]];
      outcome := if c.answer == Ok then Sent(agreement) else Failed(agreement);
      history := history + [Record(c, outcome)];
    }
  }
}
