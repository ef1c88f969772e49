/**
  Reconciliation of the local mirrors with the broker's position book
  (backend/app/scalper.py, _sync_broker_positions).

  Only MANUAL rows are modelled; a row's index is its id.  A snapshot lists the open positions and
  the round-turned ones.  An entry whose price or quantity the broker left empty makes the row
  insertion raise, which abandons the rest of the pass.
 */
module BrokerMirror {
  import opened Wrappers

  datatype Token = Blank | Token(n: nat)
  datatype Reason = AutoSynced | Tracked | Realised(pnl: int)
  datatype Exit = BrokerRealised | BrokerFlat
  datatype Status = Open | Closed(day: int, exit: Exit)

  /** `booked`: the row was inserted already closed, to record a realised result. */
  datatype Trade = Trade(token: Token, reason: Reason, status: Status, booked: bool)

  datatype RoundTurn = RoundTurn(token: Token, pnl: int, usable: bool)
  datatype Position = Position(token: Token, usable: bool)
  datatype Snapshot = Snapshot(day: int, positions: seq<Position>, closed: seq<RoundTurn>)

  type Counts = map<Token, nat>
  datatype State = State(trades: seq<Trade>, miss: Counts, conf: Counts)

  function Live(snap: Snapshot): set<Token> {
    set p | p in snap.positions :: p.token
  }

  function Turned(snap: Snapshot): set<Token> {
    set p | p in snap.closed :: p.token
  }

  /** `int(cfg.get("broker_flat_confirm") or 3)` */
  function Need(confirm: int): int {
    if confirm == 0 then 3 else confirm
  }

  predicate IsOpen(trades: seq<Trade>, tok: Token) {
    exists i :: 0 <= i < |trades| && trades[i].status.Open? && trades[i].token == tok
  }

  // ---------------------------------------------------------------- phase 1: round-turned positions

  /** What the pass looks up before it starts: the rows as they were. */
  predicate HasClosedToday(trades: seq<Trade>, tok: Token, day: int) {
    exists i :: 0 <= i < |trades| && trades[i].token == tok && trades[i].status.Closed? && trades[i].status.day == day
  }

  predicate HasRealised(trades: seq<Trade>, tok: Token, pnl: int) {
    exists i :: 0 <= i < |trades| && trades[i].token == tok && trades[i].status.Closed? &&
      trades[i].reason == Realised(pnl)
  }

  /** The mirror of a token: the dict keeps the last of the ids it sees, newest first. */
  function MirrorOf(trades: seq<Trade>, tok: Token, n: nat): (r: Option<nat>)
    requires n <= |trades|
    ensures r.Some? ==> r.value < n && trades[r.value].status.Open? && trades[r.value].token == tok
    ensures r.None? ==> forall i | 0 <= i < n :: !(trades[i].status.Open? && trades[i].token == tok)
  {
    if n == 0 then None
    else
      var older := MirrorOf(trades, tok, n - 1);
      if older.Some? then older
      else if trades[n - 1].status.Open? && trades[n - 1].token == tok then Some(n - 1)
      else None
  }

  function CountOf(c: Counts, tok: Token): nat {
    if tok in c then c[tok] else 0
  }

  /** close_trade leaves a row that is not open as it is. */
  function CloseRow(t: Trade, day: int, exit: Exit): Trade {
    if t.status.Open? then t.(status := Closed(day, exit)) else t
  }

  function CloseRealised(s: State, id: nat, day: int, pnl: int, tok: Token): State
    requires id < |s.trades|
  {
    State(s.trades[id := CloseRow(s.trades[id], day, BrokerRealised).(reason := Realised(pnl))],
          s.miss - {tok}, s.conf - {tok})
  }

  /** One entry of the closed list. `start`: the rows at the start of the pass; `booked`: tokens booked in it. */
  function TurnStep(s: State, start: seq<Trade>, booked: set<Token>, p: RoundTurn, day: int,
          need: int): (r: (State, set<Token>, bool))
    requires |start| <= |s.trades|
    ensures |s.trades| <= |r.0.trades|
  {
    var tok := p.token;
    var mirror := MirrorOf(start, tok, |start|);
    if mirror.Some? then
      var seen := CountOf(s.conf, tok) + 1;
      if seen < need then (s.(conf := s.conf[tok := seen]), booked, true)
      else (CloseRealised(s, mirror.value, day, p.pnl, tok), booked, true)
    else if tok.Blank? || HasRealised(start, tok, p.pnl) || HasClosedToday(start, tok, day) || tok in booked then
      (s, booked, true)
    else if !p.usable then (s, booked + {tok}, false)
    else
      var row := Trade(tok, Realised(p.pnl), Closed(day, BrokerRealised), true);
      (s.(trades := s.trades + [row]), booked + {tok}, true)
  }

  /** The closed list, entry by entry, until one raises. */
  function TurnAll(s: State, start: seq<Trade>, booked: set<Token>, closed: seq<RoundTurn>, day: int,
          need: int): (r: (State, bool))
    requires |start| <= |s.trades|
    ensures |s.trades| <= |r.0.trades|
    decreases |closed|
  {
    if closed == [] then (s, true)
    else
      var (s1, b1, ok) := TurnStep(s, start, booked, closed[0], day, need);
      if ok then TurnAll(s1, start, b1, closed[1..], day, need) else (s1, false)
  }

  // ---------------------------------------------------------------- phase 2: vanished positions

  /** One row that was open when the pass started. */
  function FlatStep(s: State, start: seq<Trade>, id: nat, snap: Snapshot, need: int): (r: State)
    requires id < |start| <= |s.trades|
    ensures |r.trades| == |s.trades|
  {
    var tok := start[id].token;
    if start[id].reason != AutoSynced || tok in Live(snap) || tok in Turned(snap) then
      s.(miss := s.miss - {tok})
    else
      var n := CountOf(s.miss, tok) + 1;
      if n < need then s.(miss := s.miss[tok := n])
      else s.(trades := s.trades[id := CloseRow(s.trades[id], snap.day, BrokerFlat)], miss := s.miss - {tok})
  }

  /** All rows that were open when the pass started, newest first, from id n - 1 down. */
  function FlatAll(s: State, start: seq<Trade>, n: nat, snap: Snapshot, need: int): (r: State)
    requires n <= |start| <= |s.trades|
    ensures |r.trades| == |s.trades|
    decreases n
  {
    if n == 0 then s
    else if start[n - 1].status.Open? then FlatAll(FlatStep(s, start, n - 1, snap, need), start, n - 1, snap, need)
    else FlatAll(s, start, n - 1, snap, need)
  }

  // ---------------------------------------------------------------- phase 3: new positions

  /** One entry of the position list. `known`: tokens open at the start or handled since. */
  function OpenStep(s: State, known: set<Token>, p: Position): (State, set<Token>, bool) {
    var tok := p.token;
    if tok.Blank? || tok in known then (s, known, true)
    else if IsOpen(s.trades, tok) then (s, known + {tok}, true)
    else if !p.usable then (s, known, false)
    else (s.(trades := s.trades + [Trade(tok, AutoSynced, Open, false)]), known + {tok}, true)
  }

  function OpenAll(s: State, known: set<Token>, positions: seq<Position>): (State, bool)
    decreases |positions|
  {
    if positions == [] then (s, true)
    else
      var (s1, k1, ok) := OpenStep(s, known, positions[0]);
      if ok then OpenAll(s1, k1, positions[1..]) else (s1, false)
  }

  // ---------------------------------------------------------------- one pass

  function OpenTokens(trades: seq<Trade>): set<Token> {
    set i | 0 <= i < |trades| && trades[i].status.Open? :: trades[i].token
  }

  function Confirming(conf: Counts, snap: Snapshot): Counts {
    map t | t in conf && t in Turned(snap) :: conf[t]
  }

  /** A pass over a successful snapshot; false if it raised on the way. */
  function Sync(s: State, snap: Snapshot, need: int): (State, bool) {
    var start := s.trades;
    var (s1, ok) := TurnAll(s.(conf := Confirming(s.conf, snap)), start, {}, snap.closed, snap.day, need);
    if !ok then (s1, false)
    else
      var s2 := FlatAll(s1, start, |start|, snap, need);
      OpenAll(s2, OpenTokens(start), snap.positions)
  }

  // ---------------------------------------------------------------- what a history of passes shows

  /** A pass over a successful snapshot; the threshold may change between passes. */
  datatype Pass = Pass(snap: Snapshot, confirm: int)

  /** A snapshot and how many entries of its closed list were handled: all of them unless one raised. */
  datatype Seen = Seen(snap: Snapshot, handled: nat)

  /** The pass got past phase 1. */
  predicate Finished(e: Seen) {
    e.handled >= |e.snap.closed|
  }

  function HandledPart(e: Seen): seq<RoundTurn> {
    if Finished(e) then e.snap.closed else e.snap.closed[..e.handled]
  }

  function Times(closed: seq<RoundTurn>, tok: Token): nat {
    if closed == [] then 0 else Times(closed[1..], tok) + if closed[0].token == tok then 1 else 0
  }

  predicate Absent(snap: Snapshot, tok: Token) {
    tok !in Live(snap) && tok !in Turned(snap)
  }

  /** Consecutive latest snapshots in which the token is in neither list. */
  function Absences(h: seq<Seen>, tok: Token): nat {
    if h == [] || !Absent(h[|h| - 1].snap, tok) then 0 else Absences(h[..|h| - 1], tok) + 1
  }

  /** The same, blind to the passes that raised in phase 1. */
  function Missed(h: seq<Seen>, tok: Token): nat {
    if h == [] then 0
    else if !Finished(h[|h| - 1]) then Missed(h[..|h| - 1], tok)
    else if Absent(h[|h| - 1].snap, tok) then Missed(h[..|h| - 1], tok) + 1
    else 0
  }

  /** Entries for the token in the consecutive latest snapshots that list it as round-turned. */
  function Sightings(h: seq<Seen>, tok: Token): nat {
    if h == [] || tok !in Turned(h[|h| - 1].snap) then 0
    else Sightings(h[..|h| - 1], tok) + Times(h[|h| - 1].snap.closed, tok)
  }

  /** The same, of the entries that were handled. */
  function Confirmed(h: seq<Seen>, tok: Token): nat {
    if h == [] || tok !in Turned(h[|h| - 1].snap) then 0
    else Confirmed(h[..|h| - 1], tok) + Times(HandledPart(h[|h| - 1]), tok)
  }

  /** Consecutive latest snapshots that list the token as round-turned. */
  function TurnedStreak(h: seq<Seen>, tok: Token): nat {
    if h == [] || tok !in Turned(h[|h| - 1].snap) then 0 else TurnedStreak(h[..|h| - 1], tok) + 1
  }

  /** No snapshot lists the token both as open and as round-turned. */
  predicate Apart(h: seq<Seen>, tok: Token) {
    h == [] || (Apart(h[..|h| - 1], tok) && !(tok in Live(h[|h| - 1].snap) && tok in Turned(h[|h| - 1].snap)))
  }

  predicate OnceEach(h: seq<Seen>, tok: Token) {
    h == [] || (OnceEach(h[..|h| - 1], tok) && Times(h[|h| - 1].snap.closed, tok) <= 1)
  }

  lemma HistoryGrows(h: seq<Seen>, e: Seen, tok: Token)
    ensures Absences(h + [e], tok) == if Absent(e.snap, tok) then Absences(h, tok) + 1 else 0
    ensures Missed(h + [e], tok) ==
      if !Finished(e) then Missed(h, tok) else if Absent(e.snap, tok) then Missed(h, tok) + 1 else 0
    ensures Sightings(h + [e], tok) ==
      if tok in Turned(e.snap) then Sightings(h, tok) + Times(e.snap.closed, tok) else 0
    ensures Confirmed(h + [e], tok) ==
      if tok in Turned(e.snap) then Confirmed(h, tok) + Times(HandledPart(e), tok) else 0
    ensures Apart(h + [e], tok) <==> Apart(h, tok) && !(tok in Live(e.snap) && tok in Turned(e.snap))
  {
    assert (h + [e])[..|h|] == h;
  }

  lemma {:induction false} TimesCounts(closed: seq<RoundTurn>, tok: Token)
    ensures Times(closed, tok) > 0 <==> exists p | p in closed :: p.token == tok
  {
    if closed != [] {
      TimesCounts(closed[1..], tok);
      assert closed == [closed[0]] + closed[1..];
      if closed[0].token == tok {
        assert closed[0] in closed;
      }
    }
  }

  lemma {:induction false} TimesOfPrefix(closed: seq<RoundTurn>, n: nat, tok: Token)
    requires n <= |closed|
    ensures Times(closed[..n], tok) <= Times(closed, tok)
  {
    if n > 0 {
      assert closed[..n][1..] == closed[1..][..n - 1];
      TimesOfPrefix(closed[1..], n - 1, tok);
    }
  }

  lemma {:induction false} ConfirmedAreSightings(h: seq<Seen>, tok: Token)
    ensures Confirmed(h, tok) <= Sightings(h, tok)
  {
    if h != [] {
      var e := h[|h| - 1];
      ConfirmedAreSightings(h[..|h| - 1], tok);
      if !Finished(e) {
        TimesOfPrefix(e.snap.closed, e.handled, tok);
      }
    }
  }

  lemma {:induction false} SightingsAreSnapshots(h: seq<Seen>, tok: Token)
    requires OnceEach(h, tok)
    ensures Sightings(h, tok) == TurnedStreak(h, tok)
  {
    if h != [] {
      SightingsAreSnapshots(h[..|h| - 1], tok);
      TimesCounts(h[|h| - 1].snap.closed, tok);
    }
  }

  // ---------------------------------------------------------------- the invariant

  ghost predicate Rivals(trades: seq<Trade>, i: int, j: int) {
    0 <= i < j < |trades| && trades[i].status.Open? && trades[j].status.Open? && trades[i].token == trades[j].token
  }

  ghost predicate OneMirror(trades: seq<Trade>) {
    forall i, j :: !Rivals(trades, i, j)
  }

  ghost predicate DoubleBooking(trades: seq<Trade>, i: int, j: int) {
    && 0 <= i < j < |trades| && trades[j].booked && trades[i].token == trades[j].token
    && (trades[i].status.Open? || trades[j].status.Open? || trades[i].status.day == trades[j].status.day)
  }

  /** Any row older than a booked one of the same token was closed on another day. */
  ghost predicate BookedOnce(trades: seq<Trade>) {
    forall i, j :: !DoubleBooking(trades, i, j)
  }

  /** The counters of an open row say what the history says. */
  ghost predicate RowCounted(s: State, h: seq<Seen>, i: int) {
    0 <= i < |s.trades| && s.trades[i].status.Open? ==>
      var tok := s.trades[i].token;
      && CountOf(s.miss, tok) == (if s.trades[i].reason == AutoSynced then Missed(h, tok) else 0)
      && (Apart(h, tok) ==> CountOf(s.conf, tok) == Confirmed(h, tok))
  }

  ghost predicate TokenCounted(s: State, h: seq<Seen>, tok: Token) {
    (CountOf(s.miss, tok) > 0 ==> IsOpen(s.trades, tok)) && CountOf(s.conf, tok) <= Confirmed(h, tok)
  }

  ghost predicate Counted(s: State, h: seq<Seen>) {
    (forall i :: RowCounted(s, h, i)) && (forall tok :: TokenCounted(s, h, tok))
  }

  ghost predicate Inv(s: State, h: seq<Seen>) {
    OneMirror(s.trades) && BookedOnce(s.trades) && Counted(s, h)
  }

  // ---------------------------------------------------------------- phase 1, one row or token at a time

  ghost predicate Mirrored(start: seq<Trade>, id: int) {
    0 <= id < |start| && start[id].status.Open? && MirrorOf(start, start[id].token, |start|) == Some(id)
  }

  lemma OpenRowIsMirror(start: seq<Trade>, id: nat)
    requires OneMirror(start) && id < |start| && start[id].status.Open?
    ensures Mirrored(start, id)
  {
    var m := MirrorOf(start, start[id].token, |start|);
    if m.Some? && m.value != id {
      assert Rivals(start, if m.value < id then m.value else id, if m.value < id then id else m.value);
    }
  }

  /** A row the closed list may have closed: `c` confirmations before it, `k` entries in it. */
  ghost predicate TurnedRow(s: State, id: nat, was: Trade, c: nat, m: nat, k: nat, day: int, need: int) {
    && id < |s.trades|
    && if k == 0 || c + k < need then
         s.trades[id] == was && CountOf(s.conf, was.token) == c + k && CountOf(s.miss, was.token) == m
       else ClosedBy(s, id, was, day)
  }

  ghost predicate ClosedBy(s: State, id: nat, was: Trade, day: int) {
    && id < |s.trades|
    && s.trades[id].status == Closed(day, BrokerRealised) && s.trades[id].token == was.token &&
       s.trades[id].booked == was.booked
    && CountOf(s.miss, was.token) == 0
  }

  lemma TurnStepClosed(s: State, start: seq<Trade>, booked: set<Token>, p: RoundTurn, day: int, need: int, id: nat)
    requires |start| <= |s.trades| && id < |start| && Mirrored(start, id) && ClosedBy(s, id, start[id], day)
    ensures ClosedBy(TurnStep(s, start, booked, p, day, need).0, id, start[id], day)
  {
  }

  lemma {:induction false} TurnAllClosed(s: State, start: seq<Trade>, booked: set<Token>, closed: seq<RoundTurn>,
          day: int, need: int, id: nat)
    requires |start| <= |s.trades| && id < |start| && Mirrored(start, id) && ClosedBy(s, id, start[id], day)
    ensures ClosedBy(TurnAll(s, start, booked, closed, day, need).0, id, start[id], day)
    decreases |closed|
  {
    hide ClosedBy, TurnStep, Mirrored;
    if closed != [] {
      var (s1, b1, ok) := TurnStep(s, start, booked, closed[0], day, need);
      TurnStepClosed(s, start, booked, closed[0], day, need, id);
      if ok {
        TurnAllClosed(s1, start, b1, closed[1..], day, need, id);
      }
    }
  }

  lemma TurnStepRow(s: State, start: seq<Trade>, booked: set<Token>, p: RoundTurn, day: int, need: int, id: nat)
    requires |start| <= |s.trades| && Mirrored(start, id) && id < |start| && s.trades[id] == start[id]
    ensures TurnedRow(TurnStep(s, start, booked, p, day, need).0, id, start[id],
                      CountOf(s.conf, start[id].token), CountOf(s.miss, start[id].token),
                      if p.token == start[id].token then 1 else 0, day, need)
  {
  }

  /** The closed list closes an open row exactly when its entries complete the confirmations. */
  lemma {:induction false} TurnAllRow(s: State, start: seq<Trade>, booked: set<Token>, closed: seq<RoundTurn>,
          day: int, need: int, id: nat)
    requires |start| <= |s.trades| && Mirrored(start, id) && id < |start| && s.trades[id] == start[id]
    requires TurnAll(s, start, booked, closed, day, need).1
    ensures TurnedRow(TurnAll(s, start, booked, closed, day, need).0, id, start[id],
                      CountOf(s.conf, start[id].token), CountOf(s.miss, start[id].token),
                        Times(closed, start[id].token), day, need)
    decreases |closed|
  {
    hide TurnStep, Mirrored, CountOf, ClosedBy;
    if closed != [] {
      var (s1, b1, ok) := TurnStep(s, start, booked, closed[0], day, need);
      TurnStepRow(s, start, booked, closed[0], day, need, id);
      if closed[0].token != start[id].token || CountOf(s.conf, start[id].token) + 1 < need {
        TurnAllRow(s1, start, b1, closed[1..], day, need, id);
      } else {
        TurnAllClosed(s1, start, b1, closed[1..], day, need, id);
      }
    }
  }

  lemma {:induction false} TurnAllOther(s: State, start: seq<Trade>, booked: set<Token>, closed: seq<RoundTurn>,
          day: int, need: int, id: nat)
    requires |start| <= |s.trades| && id < |s.trades| && (id < |start| ==> start[id].status.Closed?)
    ensures TurnAll(s, start, booked, closed, day, need).0.trades[id] == s.trades[id]
    decreases |closed|
  {
    hide HasRealised, HasClosedToday, CountOf;
    if closed != [] {
      var (s1, b1, ok) := TurnStep(s, start, booked, closed[0], day, need);
      if ok {
        TurnAllOther(s1, start, b1, closed[1..], day, need, id);
      }
    }
  }

  /** Confirmations grow by at most one an entry, and nothing else of a token without a mirror changes. */
  lemma {:induction false} TurnAllCounts(s: State, start: seq<Trade>, booked: set<Token>, closed: seq<RoundTurn>,
          day: int, need: int, tok: Token)
    requires |start| <= |s.trades|
    ensures CountOf(TurnAll(s, start, booked, closed, day, need).0.conf, tok) <=
      CountOf(s.conf, tok) + Times(closed, tok)
    ensures MirrorOf(start, tok, |start|).None? ==>
      && CountOf(TurnAll(s, start, booked, closed, day, need).0.conf, tok) == CountOf(s.conf, tok)
      && CountOf(TurnAll(s, start, booked, closed, day, need).0.miss, tok) == CountOf(s.miss, tok)
    decreases |closed|
  {
    hide HasRealised, HasClosedToday, MirrorOf;
    if closed != [] {
      var (s1, b1, ok) := TurnStep(s, start, booked, closed[0], day, need);
      if ok {
        TurnAllCounts(s1, start, b1, closed[1..], day, need, tok);
      }
    }
  }

  ghost predicate NewlyBooked(t: Trade, start: seq<Trade>, booked: set<Token>, day: int) {
    && t.booked && t.status == Closed(day, BrokerRealised)
    && t.token !in booked && !HasClosedToday(start, t.token, day) && MirrorOf(start, t.token, |start|).None?
  }

  lemma {:induction false} TurnAllBooks(s: State, start: seq<Trade>, booked: set<Token>, closed: seq<RoundTurn>,
          day: int, need: int, j: nat)
    requires |start| <= |s.trades| <= j < |TurnAll(s, start, booked, closed, day, need).0.trades|
    ensures NewlyBooked(TurnAll(s, start, booked, closed, day, need).0.trades[j], start, booked, day)
    decreases |closed|
  {
    hide HasRealised, HasClosedToday, CountOf, MirrorOf;
    var (s1, b1, ok) := TurnStep(s, start, booked, closed[0], day, need);
    if |s1.trades| <= j {
      TurnAllBooks(s1, start, b1, closed[1..], day, need, j);
    } else if ok {
      TurnAllOther(s1, start, b1, closed[1..], day, need, j);
    }
  }

  lemma {:induction false} TurnAllBooksOnce(s: State, start: seq<Trade>, booked: set<Token>, closed: seq<RoundTurn>,
          day: int, need: int, i: nat, j: nat)
    requires |start| <= |s.trades| <= i < j < |TurnAll(s, start, booked, closed, day, need).0.trades|
    ensures var r := TurnAll(s, start, booked, closed, day, need).0.trades; r[i].token != r[j].token
    decreases |closed|
  {
    hide HasRealised, HasClosedToday, CountOf, MirrorOf;
    var (s1, b1, ok) := TurnStep(s, start, booked, closed[0], day, need);
    if |s1.trades| <= i {
      TurnAllBooksOnce(s1, start, b1, closed[1..], day, need, i, j);
    } else {
      TurnAllOther(s1, start, b1, closed[1..], day, need, i);
      TurnAllBooks(s1, start, b1, closed[1..], day, need, j);
    }
  }

  // ---------------------------------------------------------------- phase 2

  lemma {:induction false} FlatAllOther(s: State, start: seq<Trade>, n: nat, snap: Snapshot, need: int, id: nat)
    requires n <= |start| <= |s.trades| && id < |s.trades| && (id < n ==> start[id].status.Closed?)
    ensures FlatAll(s, start, n, snap, need).trades[id] == s.trades[id]
    decreases n
  {
    hide Live, Turned, CountOf;
    if n > 0 {
      var s1 := if start[n - 1].status.Open? then FlatStep(s, start, n - 1, snap, need) else s;
      FlatAllOther(s1, start, n - 1, snap, need, id);
    }
  }

  lemma {:induction false} FlatAllCounts(s: State, start: seq<Trade>, n: nat, snap: Snapshot, need: int, tok: Token)
    requires n <= |start| <= |s.trades|
    ensures FlatAll(s, start, n, snap, need).conf == s.conf
    ensures MirrorOf(start, tok, n).None? ==>
      CountOf(FlatAll(s, start, n, snap, need).miss, tok) == CountOf(s.miss, tok)
    decreases n
  {
    hide Live, Turned;
    if n > 0 {
      var s1 := if start[n - 1].status.Open? then FlatStep(s, start, n - 1, snap, need) else s;
      FlatAllCounts(s1, start, n - 1, snap, need, tok);
    }
  }

  /** What phase 2 makes of a row that was open when the pass started: `m` absences counted before. */
  ghost predicate FlatRow(s: State, id: nat, was: Trade, now: Trade, m: nat, snap: Snapshot, need: int) {
    && id < |s.trades|
    && if was.reason != AutoSynced || !Absent(snap, was.token) then
         s.trades[id] == now && CountOf(s.miss, was.token) == 0
       else if m + 1 < need then s.trades[id] == now && CountOf(s.miss, was.token) == m + 1
       else s.trades[id] == CloseRow(now, snap.day, BrokerFlat) && CountOf(s.miss, was.token) == 0
  }

  lemma FlatStepRow(s: State, start: seq<Trade>, snap: Snapshot, need: int, id: nat)
    requires id < |start| <= |s.trades|
    ensures FlatRow(FlatStep(s, start, id, snap, need), id, start[id], s.trades[id], CountOf(s.miss, start[id].token),
        snap, need)
  {
  }

  lemma {:induction false} FlatAllRow(s: State, start: seq<Trade>, n: nat, snap: Snapshot, need: int, id: nat)
    requires OneMirror(start) && id < n <= |start| <= |s.trades| && start[id].status.Open?
    ensures FlatRow(FlatAll(s, start, n, snap, need), id, start[id], s.trades[id], CountOf(s.miss, start[id].token),
        snap, need)
    decreases n
  {
    hide Live, Turned, Absent, CloseRow, OneMirror;
    var s1 := if start[n - 1].status.Open? then FlatStep(s, start, n - 1, snap, need) else s;
    if id == n - 1 {
      FlatStepRow(s, start, snap, need, id);
      FlatAllOther(s1, start, id, snap, need, id);
      NoneBelow(start, id);
      FlatAllCounts(s1, start, id, snap, need, start[id].token);
    } else {
      NotRivals(start, id, n - 1);
      assert s1.trades[id] == s.trades[id];
      assert CountOf(s1.miss, start[id].token) == CountOf(s.miss, start[id].token);
      FlatAllRow(s1, start, n - 1, snap, need, id);
    }
  }

  lemma NotRivals(trades: seq<Trade>, i: int, j: int)
    requires OneMirror(trades)
    ensures !Rivals(trades, i, j)
  {
  }

  lemma NoneBelow(start: seq<Trade>, id: nat)
    requires OneMirror(start) && id < |start| && start[id].status.Open?
    ensures MirrorOf(start, start[id].token, id).None?
  {
    forall i: nat | i < id
      ensures !(start[i].status.Open? && start[i].token == start[id].token)
    {
      assert !Rivals(start, i, id);
    }
  }

  // ---------------------------------------------------------------- phase 3

  lemma {:induction false} OpenAllKeeps(s: State, known: set<Token>, positions: seq<Position>)
    ensures var (r, _) := OpenAll(s, known, positions); r.miss == s.miss && r.conf == s.conf && s.trades <= r.trades
    decreases |positions|
  {
    hide IsOpen;
    if positions != [] {
      var (s1, k1, ok) := OpenStep(s, known, positions[0]);
      if ok {
        OpenAllKeeps(s1, k1, positions[1..]);
      }
    }
  }

  ghost predicate NewlyOpened(trades: seq<Trade>, j: nat, known: set<Token>, positions: seq<Position>) {
    && j < |trades| && trades[j] == Trade(trades[j].token, AutoSynced, Open, false)
    && trades[j].token !in known && exists p | p in positions :: p.token == trades[j].token
  }

  lemma {:induction false} OpenAllOpens(s: State, known: set<Token>, positions: seq<Position>, i: int, j: nat)
    requires i < j && |s.trades| <= j < |OpenAll(s, known, positions).0.trades|
    ensures NewlyOpened(OpenAll(s, known, positions).0.trades, j, known, positions)
    ensures !Rivals(OpenAll(s, known, positions).0.trades, i, j)
    decreases |positions|
  {
    var r := OpenAll(s, known, positions).0.trades;
    var (s1, k1, ok) := OpenStep(s, known, positions[0]);
    assert positions == [positions[0]] + positions[1..];
    assert positions[0] in positions;
    if ok {
      OpenAllKeeps(s1, k1, positions[1..]);
      assert s1.trades <= r;
      if |s1.trades| <= j {
        OpenAllOpens(s1, k1, positions[1..], i, j);
        assert forall p | p in positions[1..] :: p in positions;
      }
    }
  }

  // ---------------------------------------------------------------- how far phase 1 gets

  /** The entry makes the pass insert a row. */
  predicate Due(start: seq<Trade>, booked: set<Token>, p: RoundTurn, day: int) {
    && MirrorOf(start, p.token, |start|).None? && !p.token.Blank?
    && !HasRealised(start, p.token, p.pnl) && !HasClosedToday(start, p.token, day) && p.token !in booked
  }

  /** How many entries are handled before one raises. */
  function Handled(start: seq<Trade>, booked: set<Token>, closed: seq<RoundTurn>, day: int): (n: nat)
    ensures n <= |closed|
    decreases |closed|
  {
    if closed == [] then 0
    else if !Due(start, booked, closed[0], day) then 1 + Handled(start, booked, closed[1..], day)
    else if !closed[0].usable then 0
    else 1 + Handled(start, booked + {closed[0].token}, closed[1..], day)
  }

  /** A raise leaves the state that the entries before it made; it depends on neither counts nor threshold. */
  lemma {:induction false} HandledPrefix(s: State, start: seq<Trade>, booked: set<Token>, closed: seq<RoundTurn>,
          day: int, need: int)
    requires |start| <= |s.trades|
    ensures var n := Handled(start, booked, closed, day);
      && TurnAll(s, start, booked, closed[..n], day, need) == (TurnAll(s, start, booked, closed, day, need).0, true)
      && (TurnAll(s, start, booked, closed, day, need).1 <==> n == |closed|)
    decreases |closed|
  {
    hide HasRealised, HasClosedToday, CountOf, MirrorOf;
    if closed != [] {
      var n := Handled(start, booked, closed, day);
      var (s1, b1, ok) := TurnStep(s, start, booked, closed[0], day, need);
      if ok {
        HandledPrefix(s1, start, b1, closed[1..], day, need);
        assert closed[..n][1..] == closed[1..][..n - 1];
      }
    }
  }

  // ---------------------------------------------------------------- a whole pass

  function SeenBy(s: State, snap: Snapshot): Seen {
    Seen(snap, Handled(s.trades, {}, snap.closed, snap.day))
  }

  lemma PhasesOf(s: State, snap: Snapshot, need: int) returns (s1: State, s2: State)
    ensures |s.trades| <= |s1.trades| == |s2.trades|
    ensures (s1, true) ==
      TurnAll(s.(conf := Confirming(s.conf, snap)), s.trades, {}, HandledPart(SeenBy(s, snap)), snap.day, need)
    ensures s2 == if Finished(SeenBy(s, snap)) then FlatAll(s1, s.trades, |s.trades|, snap, need) else s1
    ensures Finished(SeenBy(s, snap)) ==> Sync(s, snap, need) == OpenAll(s2, OpenTokens(s.trades), snap.positions)
    ensures !Finished(SeenBy(s, snap)) ==> Sync(s, snap, need) == (s1, false)
    ensures var r := Sync(s, snap, need).0; r.miss == s2.miss && r.conf == s1.conf == s2.conf && s2.trades <= r.trades
  {
    hide OpenAll, TurnAll, FlatAll, OpenTokens, Confirming, Handled;
    var s0 := s.(conf := Confirming(s.conf, snap));
    HandledPrefix(s0, s.trades, {}, snap.closed, snap.day, need);
    assert snap.closed[..|snap.closed|] == snap.closed;
    s1 := TurnAll(s0, s.trades, {}, snap.closed, snap.day, need).0;
    s2 := if Finished(SeenBy(s, snap)) then FlatAll(s1, s.trades, |s.trades|, snap, need) else s1;
    OpenAllKeeps(s2, OpenTokens(s.trades), snap.positions);
    FlatAllCounts(s1, s.trades, |s.trades|, snap, need, Blank);
  }

  predicate Realises(c: nat, k: nat, need: int) {
    k > 0 && c + k >= need
  }

  predicate Flattens(was: Trade, m: nat, e: Seen, need: int) {
    Finished(e) && was.reason == AutoSynced && Absent(e.snap, was.token) && m + 1 >= need
  }

  /** A row that was open, after a pass, by the counts before it. */
  ghost predicate OpenRowAfter(r: State, id: nat, was: Trade, c: nat, m: nat, e: Seen, need: int) {
    && id < |r.trades|
    && var k := Times(HandledPart(e), was.token);
       if Realises(c, k, need) then ClosedBy(r, id, was, e.snap.day)
       else if Flattens(was, m, e, need) then
         r.trades[id] == was.(status := Closed(e.snap.day, BrokerFlat)) && CountOf(r.miss, was.token) == 0
       else
         && r.trades[id] == was && CountOf(r.conf, was.token) == c + k
         && CountOf(r.miss, was.token) ==
              if !Finished(e) then m else if was.reason == AutoSynced && Absent(e.snap, was.token) then m + 1 else 0
  }

  lemma TurnedIfListed(snap: Snapshot, tok: Token)
    ensures tok in Turned(snap) <==> Times(snap.closed, tok) > 0
  {
    TimesCounts(snap.closed, tok);
  }

  lemma HandledIsListed(e: Seen, tok: Token)
    ensures Times(HandledPart(e), tok) > 0 ==> tok in Turned(e.snap)
  {
    TurnedIfListed(e.snap, tok);
    if !Finished(e) {
      TimesOfPrefix(e.snap.closed, e.handled, tok);
    }
  }

  lemma SyncOpenRow(s: State, snap: Snapshot, need: int, id: nat)
    requires OneMirror(s.trades) && id < |s.trades| && s.trades[id].status.Open?
    ensures OpenRowAfter(Sync(s, snap, need).0, id, s.trades[id], CountOf(Confirming(s.conf, snap), s.trades[id].token),
                         CountOf(s.miss, s.trades[id].token), SeenBy(s, snap), need)
  {
    hide Sync, OpenAll, TurnAll, FlatAll, OpenTokens, Confirming, OneMirror, Live, Turned, Times, Mirrored, CountOf;
    hide Handled, HandledPart, Finished;
    var start := s.trades;
    var s1, s2 := PhasesOf(s, snap, need);
    OpenRowIsMirror(start, id);
    HandledIsListed(SeenBy(s, snap), start[id].token);
    TurnAllRow(s.(conf := Confirming(s.conf, snap)), start, {}, HandledPart(SeenBy(s, snap)), snap.day, need, id);
    FlatAllRow(s1, start, |start|, snap, need, id);
  }

  lemma OpenRows(s: State, snap: Snapshot, need: int)
    requires OneMirror(s.trades)
    ensures forall id | 0 <= id < |s.trades| && s.trades[id].status.Open? ::
      OpenRowAfter(Sync(s, snap, need).0, id, s.trades[id], CountOf(Confirming(s.conf, snap), s.trades[id].token),
                   CountOf(s.miss, s.trades[id].token), SeenBy(s, snap), need)
  {
    hide *;
    forall id | 0 <= id < |s.trades| && s.trades[id].status.Open?
      ensures OpenRowAfter(Sync(s, snap, need).0, id, s.trades[id],
          CountOf(Confirming(s.conf, snap), s.trades[id].token), CountOf(s.miss, s.trades[id].token),
          SeenBy(s, snap), need)
    {
      SyncOpenRow(s, snap, need, id);
    }
  }

  lemma SyncOtherRow(s: State, snap: Snapshot, need: int, id: nat)
    requires id < |s.trades| && s.trades[id].status.Closed?
    ensures id < |Sync(s, snap, need).0.trades| && Sync(s, snap, need).0.trades[id] == s.trades[id]
  {
    hide Sync, OpenAll, TurnAll, FlatAll, OpenTokens, Confirming, Handled;
    var s1, s2 := PhasesOf(s, snap, need);
    TurnAllOther(s.(conf := Confirming(s.conf, snap)), s.trades, {}, HandledPart(SeenBy(s, snap)), snap.day, need, id);
    FlatAllOther(s1, s.trades, |s.trades|, snap, need, id);
  }

  lemma SyncToken(s: State, snap: Snapshot, need: int, tok: Token)
    ensures var r := Sync(s, snap, need).0;
      && CountOf(r.conf, tok) <= CountOf(Confirming(s.conf, snap), tok) + Times(HandledPart(SeenBy(s, snap)), tok)
      && (MirrorOf(s.trades, tok, |s.trades|).None? ==>
           CountOf(r.conf, tok) == CountOf(Confirming(s.conf, snap), tok) &&
             CountOf(r.miss, tok) == CountOf(s.miss, tok))
  {
    hide Sync, OpenAll, TurnAll, FlatAll, OpenTokens, Confirming, MirrorOf, Times, CountOf, Handled;
    var s1, s2 := PhasesOf(s, snap, need);
    TurnAllCounts(s.(conf := Confirming(s.conf, snap)), s.trades, {}, HandledPart(SeenBy(s, snap)), snap.day, need,
        tok);
    FlatAllCounts(s1, s.trades, |s.trades|, snap, need, tok);
  }

  /** A row the pass added: a booked result, or a fresh mirror of a pass that got to phase 3. */
  ghost predicate NewRow(r: seq<Trade>, j: nat, start: seq<Trade>, e: Seen) {
    && j < |r|
    && (NewlyBooked(r[j], start, {}, e.snap.day) ||
         (Finished(e) && NewlyOpened(r, j, OpenTokens(start), e.snap.positions)))
  }

  lemma SyncNewRow(s: State, snap: Snapshot, need: int, i: int, j: nat)
    requires -1 <= i < j && |s.trades| <= j < |Sync(s, snap, need).0.trades|
    ensures var r := Sync(s, snap, need).0.trades; NewRow(r, j, s.trades, SeenBy(s, snap)) && !Rivals(r, i, j)
    ensures var r := Sync(s, snap, need).0.trades; |s.trades| <= i && r[j].booked ==>
      r[i].booked && r[i].token != r[j].token
  {
    hide Sync, OpenAll, TurnAll, FlatAll, OpenTokens, Confirming, HasClosedToday, MirrorOf, Handled, HandledPart;
    hide Finished;
    var s1, s2 := PhasesOf(s, snap, need);
    var s0, part := s.(conf := Confirming(s.conf, snap)), HandledPart(SeenBy(s, snap));
    if |s2.trades| <= j {
      OpenAllOpens(s2, OpenTokens(s.trades), snap.positions, i, j);
    } else {
      TurnAllBooks(s0, s.trades, {}, part, snap.day, need, j);
      FlatAllOther(s1, s.trades, |s.trades|, snap, need, j);
      if |s.trades| <= i {
        TurnAllBooks(s0, s.trades, {}, part, snap.day, need, i);
        TurnAllBooksOnce(s0, s.trades, {}, part, snap.day, need, i, j);
        FlatAllOther(s1, s.trades, |s.trades|, snap, need, i);
      }
    }
  }

  lemma ConfirmingCounts(conf: Counts, snap: Snapshot, tok: Token)
    ensures CountOf(Confirming(conf, snap), tok) == if tok in Turned(snap) then CountOf(conf, tok) else 0
  {
  }

  /** The row of an open mirror after a pass, by what the passes so far saw. */
  ghost predicate Fate(r: State, id: nat, was: Trade, h: seq<Seen>, need: int)
    requires h != []
  {
    var e, tok := h[|h| - 1], was.token;
    && id < |r.trades|
    && var now := r.trades[id];
    && (now == was || now.status == Closed(e.snap.day, BrokerRealised) || now.status == Closed(e.snap.day, BrokerFlat))
    && (now.status == Closed(e.snap.day, BrokerFlat) <==>
          was.reason == AutoSynced && Finished(e) && Absent(e.snap, tok) && Missed(h, tok) >= need)
    && (now.status == Closed(e.snap.day, BrokerRealised) ==> tok in Turned(e.snap) && Sightings(h, tok) >= need)
    && (Apart(h, tok) ==>
          (now.status == Closed(e.snap.day, BrokerRealised) <==>
              Times(HandledPart(e), tok) > 0 && Confirmed(h, tok) >= need))
  }

  /** What one pass does to an open row, and that its counters stay right if it stays open. */
  lemma SyncFate(s: State, h: seq<Seen>, snap: Snapshot, need: int, id: nat)
    requires Inv(s, h) && id < |s.trades| && s.trades[id].status.Open?
    ensures Fate(Sync(s, snap, need).0, id, s.trades[id], h + [SeenBy(s, snap)], need)
    ensures RowCounted(Sync(s, snap, need).0, h + [SeenBy(s, snap)], id)
  {
    hide Sync, Confirming, OneMirror, BookedOnce, Live, Turned, Times, Absences, Missed, Sightings, Confirmed;
    hide Apart, CountOf, Handled, HandledPart, Finished;
    var tok := s.trades[id].token;
    assert TokenCounted(s, h, tok);
    assert CountOf(s.conf, tok) <= Confirmed(h, tok);
    hide TokenCounted;
    assert Absent(snap, tok) ==> tok !in Turned(snap);
    hide Absent;
    SyncOpenRow(s, snap, need, id);
    ConfirmingCounts(s.conf, snap, tok);
    HandledIsListed(SeenBy(s, snap), tok);
    HistoryGrows(h, SeenBy(s, snap), tok);
    ConfirmedAreSightings(h + [SeenBy(s, snap)], tok);
    assert RowCounted(s, h, id);
  }

  lemma SyncTokenCounted(s: State, h: seq<Seen>, snap: Snapshot, need: int, tok: Token)
    requires Inv(s, h)
    ensures TokenCounted(Sync(s, snap, need).0, h + [SeenBy(s, snap)], tok)
  {
    hide Sync, Confirming, OneMirror, BookedOnce, Live, Turned, Times, Absences, Missed, Sightings, Confirmed;
    hide CountOf, RowCounted, Handled, HandledPart, Finished;
    var r := Sync(s, snap, need).0;
    SyncToken(s, snap, need, tok);
    ConfirmingCounts(s.conf, snap, tok);
    HandledIsListed(SeenBy(s, snap), tok);
    HistoryGrows(h, SeenBy(s, snap), tok);
    assert TokenCounted(s, h, tok);
    var m := MirrorOf(s.trades, tok, |s.trades|);
    if m.Some? {
      SyncOpenRow(s, snap, need, m.value);
    }
  }

  lemma UnknownToken(start: seq<Trade>, tok: Token)
    requires tok !in OpenTokens(start)
    ensures !IsOpen(start, tok) && MirrorOf(start, tok, |start|).None?
  {
  }

  lemma SyncNewRowCounted(s: State, h: seq<Seen>, snap: Snapshot, need: int, j: nat)
    requires Inv(s, h) && |s.trades| <= j < |Sync(s, snap, need).0.trades|
    requires NewRow(Sync(s, snap, need).0.trades, j, s.trades, SeenBy(s, snap))
    ensures RowCounted(Sync(s, snap, need).0, h + [SeenBy(s, snap)], j)
  {
    hide Sync, Confirming, OneMirror, BookedOnce, Turned, Times, Absences, Missed, Sightings, Confirmed, OpenTokens;
    hide MirrorOf, IsOpen, HasClosedToday, Apart, Handled, HandledPart, Finished;
    var r := Sync(s, snap, need).0;
    var tok := r.trades[j].token;
    if r.trades[j].status.Open? {
      UnknownToken(s.trades, tok);
      SyncToken(s, snap, need, tok);
      ConfirmingCounts(s.conf, snap, tok);
      HandledIsListed(SeenBy(s, snap), tok);
      HistoryGrows(h, SeenBy(s, snap), tok);
      assert TokenCounted(s, h, tok);
      assert tok in Live(snap);
    }
  }

  lemma SyncCounted(s: State, h: seq<Seen>, snap: Snapshot, need: int)
    requires Inv(s, h)
    ensures Counted(Sync(s, snap, need).0, h + [SeenBy(s, snap)])
  {
    hide Sync, OneMirror, BookedOnce, TokenCounted, NewRow, Rivals, Fate, SeenBy;
    var r := Sync(s, snap, need).0;
    forall i: int
      ensures RowCounted(r, h + [SeenBy(s, snap)], i)
    {
      if 0 <= i < |s.trades| {
        if s.trades[i].status.Open? {
          SyncFate(s, h, snap, need, i);
        } else {
          SyncOtherRow(s, snap, need, i);
        }
      } else if |s.trades| <= i < |r.trades| {
        SyncNewRow(s, snap, need, -1, i);
        SyncNewRowCounted(s, h, snap, need, i);
      }
    }
    forall tok: Token
      ensures TokenCounted(r, h + [SeenBy(s, snap)], tok)
    {
      SyncTokenCounted(s, h, snap, need, tok);
    }
  }

  /** A row that existed before the pass keeps its token and its booking; a closed one keeps everything. */
  lemma SyncOldRow(s: State, snap: Snapshot, need: int, id: nat)
    requires OneMirror(s.trades) && id < |s.trades|
    ensures id < |Sync(s, snap, need).0.trades|
    ensures var now, was := Sync(s, snap, need).0.trades[id], s.trades[id];
      now.token == was.token && now.booked == was.booked && (was.status.Closed? || now.status.Open? ==> now == was)
  {
    hide Sync, Confirming, OneMirror, CountOf, Times, Absent, HandledPart, SeenBy, Finished;
    if s.trades[id].status.Open? {
      SyncOpenRow(s, snap, need, id);
    } else {
      SyncOtherRow(s, snap, need, id);
    }
  }

  lemma SyncOneMirror(s: State, snap: Snapshot, need: int)
    requires OneMirror(s.trades)
    ensures OneMirror(Sync(s, snap, need).0.trades)
  {
    hide Sync, OneMirror, NewRow;
    var r := Sync(s, snap, need).0.trades;
    forall i, j
      ensures !Rivals(r, i, j)
    {
      if 0 <= i < j < |r| {
        if j < |s.trades| {
          SyncOldRow(s, snap, need, i);
          SyncOldRow(s, snap, need, j);
          NotRivals(s.trades, i, j);
        } else {
          SyncNewRow(s, snap, need, i, j);
        }
      }
    }
    HasOneMirror(r);
  }

  lemma HasOneMirror(trades: seq<Trade>)
    requires forall i, j :: !Rivals(trades, i, j)
    ensures OneMirror(trades)
  {
  }

  lemma NotBookedTwice(trades: seq<Trade>, i: int, j: int)
    requires BookedOnce(trades)
    ensures !DoubleBooking(trades, i, j)
  {
  }

  lemma HasBookedOnce(trades: seq<Trade>)
    requires forall i, j :: !DoubleBooking(trades, i, j)
    ensures BookedOnce(trades)
  {
  }

  lemma NotClosedToday(start: seq<Trade>, i: nat, tok: Token, day: int)
    requires i < |start| && start[i].token == tok && MirrorOf(start, tok, |start|).None? &&
      !HasClosedToday(start, tok, day)
    ensures start[i].status.Closed? && start[i].status.day != day
  {
  }

  lemma SyncBookedOnce(s: State, snap: Snapshot, need: int)
    requires OneMirror(s.trades) && BookedOnce(s.trades)
    ensures BookedOnce(Sync(s, snap, need).0.trades)
  {
    hide Sync, OneMirror, BookedOnce, Rivals, HasClosedToday, MirrorOf, OpenTokens, Finished, Handled;
    var r := Sync(s, snap, need).0.trades;
    forall i, j
      ensures !DoubleBooking(r, i, j)
    {
      if 0 <= i < j < |r| && r[j].booked && r[i].token == r[j].token {
        if j < |s.trades| {
          SyncOldRow(s, snap, need, i);
          SyncOldRow(s, snap, need, j);
          NotBookedTwice(s.trades, i, j);
        } else {
          SyncNewRow(s, snap, need, i, j);
          assert i < |s.trades|;
          SyncOldRow(s, snap, need, i);
          NotClosedToday(s.trades, i, r[j].token, snap.day);
        }
      }
    }
    HasBookedOnce(r);
  }

  /** Every pass over a successful snapshot, raising or not, keeps the invariant. */
  lemma SyncKeeps(s: State, h: seq<Seen>, snap: Snapshot, need: int)
    requires Inv(s, h)
    ensures Inv(Sync(s, snap, need).0, h + [SeenBy(s, snap)])
  {
    hide Sync, OneMirror, BookedOnce, Counted, SeenBy;
    SyncOneMirror(s, snap, need);
    SyncBookedOnce(s, snap, need);
    SyncCounted(s, h, snap, need);
  }

  // ---------------------------------------------------------------- whole runs

  /** A started process: rows from the database, counters empty. */
  ghost predicate Started(s: State) {
    OneMirror(s.trades) && BookedOnce(s.trades) && s.miss == map[] && s.conf == map[]
  }

  /** The state after the passes, those that raised included. */
  function After(s: State, ps: seq<Pass>): State {
    if ps == [] then s
    else
      var last := ps[|ps| - 1];
      Sync(After(s, ps[..|ps| - 1]), last.snap, Need(last.confirm)).0
  }

  /** What the passes saw, and how far each got. */
  function History(s: State, ps: seq<Pass>): (h: seq<Seen>)
    ensures |h| == |ps|
  {
    if ps == [] then []
    else History(s, ps[..|ps| - 1]) + [SeenBy(After(s, ps[..|ps| - 1]), ps[|ps| - 1].snap)]
  }

  lemma {:induction false} RunKeeps(s: State, ps: seq<Pass>)
    requires Started(s)
    ensures Inv(After(s, ps), History(s, ps))
  {
    hide Sync, OneMirror, BookedOnce, SeenBy;
    if ps != [] {
      var last := ps[|ps| - 1];
      RunKeeps(s, ps[..|ps| - 1]);
      SyncKeeps(After(s, ps[..|ps| - 1]), History(s, ps[..|ps| - 1]), last.snap, Need(last.confirm));
    }
  }

  /**
    Over any run of passes, raising ones included, whatever number of confirmations is configured at
    each (0 stands for 3): one open mirror a token, one booking a token and day, closed rows never
    change, and a mirror closes as its history says.
   */
  lemma MirrorsAreConfirmed(s: State, ps: seq<Pass>, id: nat)
    requires Started(s) && ps != [] && id < |After(s, ps[..|ps| - 1]).trades|
    ensures OneMirror(After(s, ps).trades) && BookedOnce(After(s, ps).trades)
    ensures var was, r := After(s, ps[..|ps| - 1]).trades[id], After(s, ps);
      var confirm := ps[|ps| - 1].confirm;
      if was.status.Open? then Fate(r, id, was, History(s, ps), if confirm == 0 then 3 else confirm)
      else id < |r.trades| && r.trades[id] == was
  {
    hide Sync, OneMirror, BookedOnce, Fate, Counted, SeenBy;
    var before, last := After(s, ps[..|ps| - 1]), ps[|ps| - 1];
    RunKeeps(s, ps[..|ps| - 1]);
    RunKeeps(s, ps);
    if before.trades[id].status.Open? {
      SyncFate(before, History(s, ps[..|ps| - 1]), last.snap, Need(last.confirm), id);
    } else {
      SyncOldRow(before, last.snap, Need(last.confirm), id);
    }
  }

  lemma {:induction false} OpenAllCovers(s: State, known: set<Token>, positions: seq<Position>, p: Position)
    requires p in positions && p.token != Blank && p.token !in known && OpenAll(s, known, positions).1
    ensures IsOpen(OpenAll(s, known, positions).0.trades, p.token)
    decreases |positions|
  {
    var (s1, k1, ok) := OpenStep(s, known, positions[0]);
    OpenAllKeeps(s1, k1, positions[1..]);
    if p.token in k1 {
      var grown := s.trades + [Trade(p.token, AutoSynced, Open, false)];
      assert grown[|s.trades|].token == p.token;
      OpenStays(s1.trades, OpenAll(s, known, positions).0.trades, p.token);
    } else {
      OpenAllCovers(s1, k1, positions[1..], p);
    }
  }

  lemma OpenStays(a: seq<Trade>, b: seq<Trade>, tok: Token)
    requires a <= b && IsOpen(a, tok)
    ensures IsOpen(b, tok)
  {
  }

  ghost predicate Books(trades: seq<Trade>, j: int, tok: Token) {
    0 <= j < |trades| && trades[j].booked && trades[j].token == tok
  }

  lemma {:induction false} TurnAllCovers(s: State, start: seq<Trade>, booked: set<Token>, closed: seq<RoundTurn>,
          day: int, need: int, p: RoundTurn)
    requires |start| <= |s.trades| && p in closed && TurnAll(s, start, booked, closed, day, need).1
    requires p.token != Blank && p.token !in booked && MirrorOf(start, p.token, |start|).None?
    requires !HasRealised(start, p.token, p.pnl) && !HasClosedToday(start, p.token, day)
    ensures exists j | |s.trades| <= j :: Books(TurnAll(s, start, booked, closed, day, need).0.trades, j, p.token)
    decreases |closed|
  {
    hide HasRealised, HasClosedToday, CountOf, MirrorOf;
    var (s1, b1, ok) := TurnStep(s, start, booked, closed[0], day, need);
    if p.token in b1 {
      TurnAllOther(s1, start, b1, closed[1..], day, need, |s.trades|);
      TurnAllGrows(s1, start, b1, closed[1..], day, need);
      assert Books(TurnAll(s, start, booked, closed, day, need).0.trades, |s.trades|, p.token);
    } else {
      TurnAllCovers(s1, start, b1, closed[1..], day, need, p);
    }
  }

  lemma TurnAllGrows(s: State, start: seq<Trade>, booked: set<Token>, closed: seq<RoundTurn>, day: int, need: int)
    requires |start| <= |s.trades|
    ensures |s.trades| <= |TurnAll(s, start, booked, closed, day, need).0.trades|
  {
  }

  /** A pass that does not raise leaves no listed position without a mirror, nor a new result unbooked. */
  lemma SyncCovers(s: State, snap: Snapshot, need: int)
    requires Sync(s, snap, need).1
    ensures forall p | p in snap.positions && p.token != Blank && p.token !in OpenTokens(s.trades) ::
      IsOpen(Sync(s, snap, need).0.trades, p.token)
    ensures forall p | p in snap.closed && p.token != Blank && MirrorOf(s.trades, p.token, |s.trades|).None?
        && !HasRealised(s.trades, p.token, p.pnl) && !HasClosedToday(s.trades, p.token, snap.day) ::
      exists j | |s.trades| <= j :: Books(Sync(s, snap, need).0.trades, j, p.token)
  {
    hide Sync, OpenAll, TurnAll, FlatAll, OpenTokens, Confirming, HasRealised, HasClosedToday, MirrorOf, IsOpen;
    var s1, s2 := PhasesOf(s, snap, need);
    forall p | p in snap.positions && p.token != Blank && p.token !in OpenTokens(s.trades)
      ensures IsOpen(Sync(s, snap, need).0.trades, p.token)
    {
      OpenAllCovers(s2, OpenTokens(s.trades), snap.positions, p);
    }
    forall p | p in snap.closed && p.token != Blank && MirrorOf(s.trades, p.token, |s.trades|).None?
        && !HasRealised(s.trades, p.token, p.pnl) && !HasClosedToday(s.trades, p.token, snap.day)
      ensures exists j | |s.trades| <= j :: Books(Sync(s, snap, need).0.trades, j, p.token)
    {
      TurnAllCovers(s.(conf := Confirming(s.conf, snap)), s.trades, {}, snap.closed, snap.day, need, p);
      var j :| |s.trades| <= j && Books(s1.trades, j, p.token);
      FlatAllOther(s1, s.trades, |s.trades|, snap, need, j);
      assert Books(Sync(s, snap, need).0.trades, j, p.token);
    }
  }

  // ---------------------------------------------------------------- what is booked and opened, entry by entry

  /** The rows before the pass leave the entry to be booked: no mirror, not this result, nothing closed that day. */
  ghost predicate Wanted(start: seq<Trade>, p: RoundTurn, day: int) {
    && p.token != Blank
    && forall r | 0 <= r < |start| && start[r].token == p.token ::
         start[r].status.Closed? && start[r].status.day != day && start[r].reason != Realised(p.pnl)
  }

  ghost predicate WantedAt(start: seq<Trade>, closed: seq<RoundTurn>, i: int, tok: Token, day: int) {
    0 <= i < |closed| && closed[i].token == tok && Wanted(start, closed[i], day)
  }

  /** Entry i is the first one of its token that is to be booked. */
  ghost predicate FirstWanted(start: seq<Trade>, closed: seq<RoundTurn>, i: int, tok: Token, day: int) {
    WantedAt(start, closed, i, tok, day) && forall k | 0 <= k < i :: !WantedAt(start, closed, k, tok, day)
  }

  lemma DueIff(start: seq<Trade>, booked: set<Token>, p: RoundTurn, day: int)
    ensures Due(start, booked, p, day) <==> Wanted(start, p, day) && p.token !in booked
  {
  }

  /** The row that books entry p. */
  function BookedRow(p: RoundTurn, day: int): Trade {
    Trade(p.token, Realised(p.pnl), Closed(day, BrokerRealised), true)
  }

  lemma StepBooks(s: State, start: seq<Trade>, booked: set<Token>, p: RoundTurn, day: int, need: int)
    requires |start| <= |s.trades|
    ensures var (s1, b1, ok) := TurnStep(s, start, booked, p, day, need);
      if Wanted(start, p, day) && p.token !in booked then
        b1 == booked + {p.token} && (ok <==> p.usable) && s1.trades == s.trades + if ok then [BookedRow(p, day)] else []
      else b1 == booked && ok && |s1.trades| == |s.trades|
  {
    DueIff(start, booked, p, day);
    hide Wanted, HasRealised, HasClosedToday;
  }

  /** Phase 1 raises exactly at the first unusable entry that is the first of its token to be booked. */
  ghost predicate RaisesAt(start: seq<Trade>, booked: set<Token>, closed: seq<RoundTurn>, i: int, day: int) {
    && 0 <= i < |closed| && FirstWanted(start, closed, i, closed[i].token, day)
    && closed[i].token !in booked && !closed[i].usable
  }

  lemma FirstOfRest(start: seq<Trade>, closed: seq<RoundTurn>, i: int, tok: Token, day: int)
    requires closed != []
    ensures i > 0 && !WantedAt(start, closed, 0, tok, day) ==>
      (FirstWanted(start, closed, i, tok, day) <==> FirstWanted(start, closed[1..], i - 1, tok, day))
    ensures i > 0 && WantedAt(start, closed, 0, tok, day) ==> !FirstWanted(start, closed, i, tok, day)
    ensures FirstWanted(start, closed, 0, tok, day) <==> closed[0].token == tok && Wanted(start, closed[0], day)
  {
    hide Wanted;
    assert forall k | 0 < k < |closed| :: closed[1..][k - 1] == closed[k];
    assert forall k | 0 < k ::
      WantedAt(start, closed, k, tok, day) <==> WantedAt(start, closed[1..], k - 1, tok, day);
    if i > 0 && !WantedAt(start, closed, 0, tok, day) {
      if FirstWanted(start, closed[1..], i - 1, tok, day) {
        forall k | 0 <= k < i
          ensures !WantedAt(start, closed, k, tok, day)
        {
          assert k > 0 ==> !WantedAt(start, closed[1..], k - 1, tok, day);
        }
      }
      if FirstWanted(start, closed, i, tok, day) {
        forall k | 0 <= k < i - 1
          ensures !WantedAt(start, closed[1..], k, tok, day)
        {
          assert !WantedAt(start, closed, k + 1, tok, day);
        }
      }
    }
  }

  lemma {:induction false} RaisesIff(s: State, start: seq<Trade>, booked: set<Token>, closed: seq<RoundTurn>,
          day: int, need: int)
    requires |start| <= |s.trades|
    ensures !TurnAll(s, start, booked, closed, day, need).1 <==> exists i :: RaisesAt(start, booked, closed, i, day)
    decreases |closed|
  {
    hide TurnStep, Wanted;
    if closed == [] {
    } else {
      var (s1, b1, ok) := TurnStep(s, start, booked, closed[0], day, need);
      StepBooks(s, start, booked, closed[0], day, need);
      FirstOfRest(start, closed, 0, closed[0].token, day);
      if !ok {
        assert RaisesAt(start, booked, closed, 0, day);
      } else {
        RaisesIff(s1, start, b1, closed[1..], day, need);
        RaisesLater(start, booked, b1, closed, day);
      }
    }
  }

  lemma RaisesLater(start: seq<Trade>, booked: set<Token>, b1: set<Token>, closed: seq<RoundTurn>, day: int)
    requires closed != []
    requires var due := Wanted(start, closed[0], day) && closed[0].token !in booked;
      b1 == (if due then booked + {closed[0].token} else booked) && (due ==> closed[0].usable)
    ensures (exists i :: RaisesAt(start, booked, closed, i, day)) <==>
      exists i :: RaisesAt(start, b1, closed[1..], i, day)
  {
    hide Wanted, FirstWanted, WantedAt;
    if i :| RaisesAt(start, booked, closed, i, day) {
      FirstOfRest(start, closed, i, closed[i].token, day);
      FirstOfRest(start, closed, 0, closed[i].token, day);
      FirstEntry(start, closed, closed[i].token, day);
      assert RaisesAt(start, b1, closed[1..], i - 1, day);
    }
    if i :| RaisesAt(start, b1, closed[1..], i, day) {
      FirstOfRest(start, closed, i + 1, closed[i + 1].token, day);
      FirstEntry(start, closed, closed[i + 1].token, day);
      assert RaisesAt(start, booked, closed, i + 1, day);
    }
  }

  lemma FirstEntry(start: seq<Trade>, closed: seq<RoundTurn>, tok: Token, day: int)
    requires closed != []
    ensures WantedAt(start, closed, 0, tok, day) <==> closed[0].token == tok && Wanted(start, closed[0], day)
  {
  }

  /** The rows added from index n on book, token by token, the first entry that is to be booked. */
  ghost predicate BookedFor(start: seq<Trade>, booked: set<Token>, closed: seq<RoundTurn>, t: Trade, day: int) {
    t.token !in booked && exists i :: BookedAt(start, closed, i, t, day)
  }

  ghost predicate BookedAt(start: seq<Trade>, closed: seq<RoundTurn>, i: int, t: Trade, day: int) {
    0 <= i < |closed| && FirstWanted(start, closed, i, t.token, day) && t == BookedRow(closed[i], day)
  }

  lemma BookedLater(start: seq<Trade>, booked: set<Token>, b1: set<Token>, closed: seq<RoundTurn>, t: Trade, day: int)
    requires closed != []
    requires b1 ==
      if Wanted(start, closed[0], day) && closed[0].token !in booked then booked + {closed[0].token} else booked
    ensures BookedFor(start, booked, closed, t, day) <==>
      || (Wanted(start, closed[0], day) && closed[0].token !in booked && t == BookedRow(closed[0], day))
      || BookedFor(start, b1, closed[1..], t, day)
  {
    hide Wanted, FirstWanted, WantedAt;
    FirstEntry(start, closed, t.token, day);
    FirstOfRest(start, closed, 0, t.token, day);
    if BookedFor(start, booked, closed, t, day) {
      var i :| BookedAt(start, closed, i, t, day);
      FirstOfRest(start, closed, i, t.token, day);
      if i > 0 {
        assert BookedAt(start, closed[1..], i - 1, t, day);
      }
    }
    if BookedFor(start, b1, closed[1..], t, day) {
      var i :| BookedAt(start, closed[1..], i, t, day);
      FirstOfRest(start, closed, i + 1, t.token, day);
      assert BookedAt(start, closed, i + 1, t, day);
    }
    if Wanted(start, closed[0], day) && closed[0].token !in booked && t == BookedRow(closed[0], day) {
      assert BookedAt(start, closed, 0, t, day);
    }
  }

  ghost predicate AddedRow(trades: seq<Trade>, from: nat, t: Trade) {
    exists j :: from <= j < |trades| && trades[j] == t
  }

  /** The rows that phase 1 adds are exactly those bookings, whichever of its entries it handled. */
  lemma {:induction false} BooksExactly(s: State, start: seq<Trade>, booked: set<Token>, closed: seq<RoundTurn>,
          day: int, need: int, t: Trade)
    requires |start| <= |s.trades| && TurnAll(s, start, booked, closed, day, need).1
    ensures AddedRow(TurnAll(s, start, booked, closed, day, need).0.trades, |s.trades|, t) <==>
      BookedFor(start, booked, closed, t, day)
    decreases |closed|
  {
    if closed == [] {
    } else {
      var (s1, b1, ok) := TurnStep(s, start, booked, closed[0], day, need);
      StepBooks(s, start, booked, closed[0], day, need);
      BooksExactly(s1, start, b1, closed[1..], day, need, t);
      BookedLater(start, booked, b1, closed, t, day);
      var r := TurnAll(s, start, booked, closed, day, need).0.trades;
      TurnAllGrows(s1, start, b1, closed[1..], day, need);
      if |s1.trades| > |s.trades| {
        TurnAllOther(s1, start, b1, closed[1..], day, need, |s.trades|);
      }
      hide TurnStep, TurnAll, Wanted, BookedFor;
      RowsFrom(r, |s.trades|, |s1.trades|, t);
    }
  }

  lemma RowsFrom(trades: seq<Trade>, from: nat, later: nat, t: Trade)
    requires from <= later <= from + 1 && later <= |trades|
    ensures AddedRow(trades, from, t) <==> AddedRow(trades, later, t) || (from < later && trades[from] == t)
  {
    if from < later && trades[from] == t {
      assert from <= from < |trades| && trades[from] == t;
    }
  }

  /** A listed token that needs a mirror. */
  ghost predicate Lacks(trades: seq<Trade>, known: set<Token>, tok: Token) {
    tok != Blank && tok !in known && !IsOpen(trades, tok)
  }

  ghost predicate ListedBefore(positions: seq<Position>, n: int, tok: Token) {
    exists k :: 0 <= k < n && k < |positions| && positions[k].token == tok
  }

  function MirrorRow(tok: Token): Trade {
    Trade(tok, AutoSynced, Open, false)
  }

  /** Entry i is the first of a token that needs a mirror, and cannot be opened. */
  ghost predicate OpenRaisesAt(trades: seq<Trade>, known: set<Token>, positions: seq<Position>, i: int) {
    && 0 <= i < |positions| && Lacks(trades, known, positions[i].token) && !positions[i].usable
    && !ListedBefore(positions, i, positions[i].token)
  }

  lemma StepOpens(s: State, known: set<Token>, p: Position)
    ensures var (s1, k1, ok) := OpenStep(s, known, p);
      && (ok <==> Lacks(s.trades, known, p.token) ==> p.usable)
      && s1.trades == s.trades + (if Lacks(s.trades, known, p.token) && ok then [MirrorRow(p.token)] else [])
      && (!ok ==> s1 == s)
      && (ok ==> forall tok :: Lacks(s1.trades, k1, tok) <==> Lacks(s.trades, known, tok) && tok != p.token)
  {
    var (s1, k1, ok) := OpenStep(s, known, p);
    if ok {
      forall tok
        ensures Lacks(s1.trades, k1, tok) <==> Lacks(s.trades, known, tok) && tok != p.token
      {
        IsOpenGrows(s.trades, MirrorRow(p.token), tok);
      }
    }
  }

  lemma IsOpenGrows(trades: seq<Trade>, t: Trade, tok: Token)
    ensures IsOpen(trades + [t], tok) <==> IsOpen(trades, tok) || (t.status.Open? && t.token == tok)
  {
    var grown := trades + [t];
    if i :| 0 <= i < |trades| && trades[i].status.Open? && trades[i].token == tok {
      assert grown[i].status.Open? && grown[i].token == tok;
    }
    if t.status.Open? && t.token == tok {
      assert grown[|trades|].status.Open? && grown[|trades|].token == tok;
    }
  }

  lemma ListedRest(positions: seq<Position>, n: nat, tok: Token)
    requires positions != []
    ensures ListedBefore(positions, n + 1, tok) <==> positions[0].token == tok || ListedBefore(positions[1..], n, tok)
  {
    if k :| 0 <= k < n && k < |positions[1..]| && positions[1..][k].token == tok {
      assert 0 <= k + 1 < n + 1 && positions[k + 1].token == tok;
    }
    if k :| 0 <= k < n + 1 && k < |positions| && positions[k].token == tok {
      if k > 0 {
        assert positions[1..][k - 1].token == tok;
      }
    }
    if positions[0].token == tok {
      assert 0 <= 0 < n + 1 && positions[0].token == tok;
    }
  }

  /** Phase 3 raises exactly at the first entry of a token without a mirror that cannot be opened. */
  lemma {:induction false} OpenRaisesIff(s: State, known: set<Token>, positions: seq<Position>)
    ensures !OpenAll(s, known, positions).1 <==> exists i :: OpenRaisesAt(s.trades, known, positions, i)
    decreases |positions|
  {
    hide OpenStep, Lacks, ListedBefore;
    if positions == [] {
    } else {
      var (s1, k1, ok) := OpenStep(s, known, positions[0]);
      StepOpens(s, known, positions[0]);
      NoneListed(positions, positions[0].token);
      if !ok {
        assert OpenRaisesAt(s.trades, known, positions, 0);
      } else {
        OpenRaisesIff(s1, k1, positions[1..]);
        if i :| OpenRaisesAt(s.trades, known, positions, i) {
          ListedRest(positions, i - 1, positions[i].token);
          assert OpenRaisesAt(s1.trades, k1, positions[1..], i - 1);
        }
        if i :| OpenRaisesAt(s1.trades, k1, positions[1..], i) {
          ListedRest(positions, i, positions[i + 1].token);
          assert OpenRaisesAt(s.trades, known, positions, i + 1);
        }
      }
    }
  }

  lemma NoneListed(positions: seq<Position>, tok: Token)
    ensures !ListedBefore(positions, 0, tok)
  {
  }

  /** The rows that phase 3 adds, if it does not raise, are exactly the mirrors of the listed tokens without one. */
  lemma {:induction false} OpensExactly(s: State, known: set<Token>, positions: seq<Position>, t: Trade)
    requires OpenAll(s, known, positions).1
    ensures AddedRow(OpenAll(s, known, positions).0.trades, |s.trades|, t) <==>
      t == MirrorRow(t.token) && Lacks(s.trades, known, t.token) && ListedBefore(positions, |positions|, t.token)
    decreases |positions|
  {
    if positions == [] {
    } else {
      var (s1, k1, ok) := OpenStep(s, known, positions[0]);
      StepOpens(s, known, positions[0]);
      OpensExactly(s1, k1, positions[1..], t);
      OpenAllKeeps(s1, k1, positions[1..]);
      ListedRest(positions, |positions| - 1, t.token);
      var r := OpenAll(s, known, positions).0.trades;
      hide OpenStep, OpenAll, Lacks, ListedBefore;
      RowsFrom(r, |s.trades|, |s1.trades|, t);
    }
  }

  /** A raise in phase 3 leaves the mirrors that the entries before it opened. */
  lemma {:induction false} OpenRaiseLeavesPrefix(s: State, known: set<Token>, positions: seq<Position>, i: int)
    requires OpenRaisesAt(s.trades, known, positions, i)
    requires forall k | 0 <= k < i :: !OpenRaisesAt(s.trades, known, positions, k)
    ensures OpenAll(s, known, positions[..i]) == (OpenAll(s, known, positions).0, true)
    decreases |positions|
  {
    hide OpenStep, Lacks, ListedBefore;
    var (s1, k1, ok) := OpenStep(s, known, positions[0]);
    StepOpens(s, known, positions[0]);
    NoneListed(positions, positions[0].token);
    if i > 0 {
      assert !OpenRaisesAt(s.trades, known, positions, 0);
      ListedRest(positions, i - 1, positions[i].token);
      forall k | 0 <= k < i - 1
        ensures !OpenRaisesAt(s1.trades, k1, positions[1..], k)
      {
        ListedRest(positions, k, positions[k + 1].token);
        assert !OpenRaisesAt(s.trades, known, positions, k + 1);
      }
      OpenRaiseLeavesPrefix(s1, k1, positions[1..], i - 1);
      assert positions[..i][1..] == positions[1..][..i - 1];
    } else {
      assert positions[..0] == [];
    }
  }

  lemma KnownIsOpen(start: seq<Trade>, tok: Token)
    ensures tok in OpenTokens(start) <==> IsOpen(start, tok)
  {
    if i :| 0 <= i < |start| && start[i].status.Open? && start[i].token == tok {
      assert start[i].token in OpenTokens(start);
    }
  }

  /** Position i makes the pass raise in phase 3. */
  ghost predicate PositionRaises(start: seq<Trade>, positions: seq<Position>, i: int) {
    && 0 <= i < |positions| && positions[i].token != Blank && !IsOpen(start, positions[i].token)
    && !positions[i].usable && !ListedBefore(positions, i, positions[i].token)
  }

  /** What a pass opens: a mirror for a listed token that had none. */
  ghost predicate OpenedFor(start: seq<Trade>, positions: seq<Position>, t: Trade) {
    && t == MirrorRow(t.token) && t.token != Blank && !IsOpen(start, t.token)
    && ListedBefore(positions, |positions|, t.token)
  }

  lemma NoneElseOpen(s: State, snap: Snapshot, need: int, s2: State, tok: Token)
    requires OneMirror(s.trades) && |s.trades| <= |s2.trades| && s2.trades <= Sync(s, snap, need).0.trades
    requires forall t :: AddedRow(s2.trades, |s.trades|, t) ==> t.status.Closed?
    ensures Lacks(s2.trades, OpenTokens(s.trades), tok) <==> tok != Blank && !IsOpen(s.trades, tok)
  {
    hide Sync, OneMirror, OpenTokens;
    KnownIsOpen(s.trades, tok);
    forall j | |s.trades| <= j < |s2.trades|
      ensures s2.trades[j].status.Closed?
    {
      assert AddedRow(s2.trades, |s.trades|, s2.trades[j]);
    }
    hide AddedRow;
    if i :| 0 <= i < |s2.trades| && s2.trades[i].status.Open? && s2.trades[i].token == tok {
      SyncOldRow(s, snap, need, i);
      assert s.trades[i].status.Open? && s.trades[i].token == tok;
    }
  }

  lemma SameAdded(a: seq<Trade>, b: seq<Trade>, from: nat, t: Trade)
    requires |a| == |b| && forall j | from <= j < |a| :: a[j] == b[j]
    ensures AddedRow(a, from, t) <==> AddedRow(b, from, t)
  {
    if AddedRow(a, from, t) {
      var j :| from <= j < |a| && a[j] == t;
      assert b[j] == t;
    }
    if AddedRow(b, from, t) {
      var j :| from <= j < |b| && b[j] == t;
      assert a[j] == t;
    }
  }

  /** Phases 1 and 2 together add exactly the bookings. */
  lemma BookingsOnly(s: State, snap: Snapshot, need: int, s1: State, s2: State, t: Trade)
    requires Finished(SeenBy(s, snap)) && |s.trades| <= |s1.trades|
    requires (s1, true) == TurnAll(s.(conf := Confirming(s.conf, snap)), s.trades, {}, snap.closed, snap.day, need)
    requires s2 == FlatAll(s1, s.trades, |s.trades|, snap, need)
    ensures AddedRow(s2.trades, |s.trades|, t) <==> BookedFor(s.trades, {}, snap.closed, t, snap.day)
  {
    hide TurnAll, FlatAll, Confirming, AddedRow, BookedFor;
    BooksExactly(s.(conf := Confirming(s.conf, snap)), s.trades, {}, snap.closed, snap.day, need, t);
    forall j | |s.trades| <= j < |s1.trades|
      ensures s1.trades[j] == s2.trades[j]
    {
      FlatAllOther(s1, s.trades, |s.trades|, snap, need, j);
    }
    FlatAllCounts(s1, s.trades, |s.trades|, snap, need, Blank);
    SameAdded(s1.trades, s2.trades, |s.trades|, t);
  }

  lemma AddedSplits(a: seq<Trade>, r: seq<Trade>, from: nat, t: Trade)
    requires from <= |a| && a <= r
    ensures AddedRow(r, from, t) <==> AddedRow(a, from, t) || AddedRow(r, |a|, t)
  {
    if AddedRow(r, from, t) {
      var j :| from <= j < |r| && r[j] == t;
      assert j < |a| ==> a[j] == t;
    }
    if AddedRow(a, from, t) {
      var j :| from <= j < |a| && a[j] == t;
      assert r[j] == t;
    }
  }

  /**
    When a pass raises, and exactly which rows one that does not raise adds: the results to book, each
    token's first, and a mirror for every listed token without one.
   */
  lemma SyncExactly(s: State, snap: Snapshot, need: int)
    requires OneMirror(s.trades)
    ensures Sync(s, snap, need).1 <==>
      && (forall i :: !RaisesAt(s.trades, {}, snap.closed, i, snap.day))
      && (forall i :: !PositionRaises(s.trades, snap.positions, i))
    ensures Sync(s, snap, need).1 ==> forall t :: AddedRow(Sync(s, snap, need).0.trades, |s.trades|, t) <==>
      BookedFor(s.trades, {}, snap.closed, t, snap.day) || OpenedFor(s.trades, snap.positions, t)
  {
    var s1, s2 := PhasesOf(s, snap, need);
    var s0, known := s.(conf := Confirming(s.conf, snap)), OpenTokens(s.trades);
    var r := Sync(s, snap, need).0;
    HandledPrefix(s0, s.trades, {}, snap.closed, snap.day, need);
    RaisesIff(s0, s.trades, {}, snap.closed, snap.day, need);
    hide Sync, OpenAll, TurnAll, FlatAll, OpenTokens, Confirming, OneMirror, Handled, RaisesAt, BookedFor, AddedRow;
    hide IsOpen, ListedBefore;
    if Finished(SeenBy(s, snap)) {
      forall t
        ensures AddedRow(s2.trades, |s.trades|, t) <==> BookedFor(s.trades, {}, snap.closed, t, snap.day)
      {
        BookingsOnly(s, snap, need, s1, s2, t);
      }
      BookedAreClosed(s, snap);
      OpenRaisesIff(s2, known, snap.positions);
      forall tok
        ensures Lacks(s2.trades, known, tok) <==> tok != Blank && !IsOpen(s.trades, tok)
      {
        NoneElseOpen(s, snap, need, s2, tok);
      }
      hide Lacks;
      PositionsRaise(s.trades, s2.trades, known, snap.positions);
      if Sync(s, snap, need).1 {
        forall t
          ensures AddedRow(r.trades, |s.trades|, t) <==>
            BookedFor(s.trades, {}, snap.closed, t, snap.day) || OpenedFor(s.trades, snap.positions, t)
        {
          AddedSplits(s2.trades, r.trades, |s.trades|, t);
          OpensExactly(s2, known, snap.positions, t);
        }
      }
    }
  }

  lemma BookedAreClosed(s: State, snap: Snapshot)
    ensures forall t :: BookedFor(s.trades, {}, snap.closed, t, snap.day) ==> t.status.Closed?
  {
  }

  lemma PositionsRaise(start: seq<Trade>, trades: seq<Trade>, known: set<Token>, positions: seq<Position>)
    requires forall tok :: Lacks(trades, known, tok) <==> tok != Blank && !IsOpen(start, tok)
    ensures (exists i :: OpenRaisesAt(trades, known, positions, i)) <==> exists i :: PositionRaises(start, positions, i)
  {
    hide Lacks, IsOpen, ListedBefore;
    if i :| OpenRaisesAt(trades, known, positions, i) {
      assert PositionRaises(start, positions, i);
    }
    if i :| PositionRaises(start, positions, i) {
      assert OpenRaisesAt(trades, known, positions, i);
    }
  }

  // ---------------------------------------------------------------- which result is recorded

  /** The reason records the realised result of a listed entry of that token. */
  ghost predicate ResultOf(closed: seq<RoundTurn>, tok: Token, reason: Reason) {
    exists i :: 0 <= i < |closed| && closed[i].token == tok && reason == Realised(closed[i].pnl)
  }

  lemma ResultOfRest(closed: seq<RoundTurn>, tok: Token, reason: Reason)
    requires closed != []
    ensures ResultOf(closed[1..], tok, reason) ==> ResultOf(closed, tok, reason)
    ensures ResultOf(closed, closed[0].token, Realised(closed[0].pnl))
  {
    if i :| 0 <= i < |closed[1..]| && closed[1..][i].token == tok && reason == Realised(closed[1..][i].pnl) {
      assert closed[i + 1].token == tok && reason == Realised(closed[i + 1].pnl);
    }
  }

  lemma StepRecords(s: State, start: seq<Trade>, booked: set<Token>, p: RoundTurn, day: int, need: int, id: nat)
    requires |start| <= |s.trades| && id < |start| && Mirrored(start, id)
    ensures var (s1, b1, ok) := TurnStep(s, start, booked, p, day, need);
      s1.trades[id] == s.trades[id] || (p.token == start[id].token && s1.trades[id].reason == Realised(p.pnl))
  {
  }

  lemma {:induction false} TurnAllRecords(s: State, start: seq<Trade>, booked: set<Token>, closed: seq<RoundTurn>,
          day: int, need: int, id: nat)
    requires |start| <= |s.trades| && id < |start| && Mirrored(start, id)
    ensures var r := TurnAll(s, start, booked, closed, day, need).0.trades;
      r[id] == s.trades[id] || ResultOf(closed, start[id].token, r[id].reason)
    decreases |closed|
  {
    hide TurnStep, Mirrored, ResultOf;
    if closed != [] {
      var (s1, b1, ok) := TurnStep(s, start, booked, closed[0], day, need);
      StepRecords(s, start, booked, closed[0], day, need, id);
      ResultOfRest(closed, start[id].token, s1.trades[id].reason);
      if ok {
        TurnAllRecords(s1, start, b1, closed[1..], day, need, id);
        ResultOfRest(closed, start[id].token, TurnAll(s1, start, b1, closed[1..], day, need).0.trades[id].reason);
      }
    }
  }

  lemma {:induction false} BookingRecords(s: State, start: seq<Trade>, booked: set<Token>, closed: seq<RoundTurn>,
          day: int, need: int, j: nat)
    requires |start| <= |s.trades| <= j < |TurnAll(s, start, booked, closed, day, need).0.trades|
    ensures var t := TurnAll(s, start, booked, closed, day, need).0.trades[j]; ResultOf(closed, t.token, t.reason)
    decreases |closed|
  {
    hide HasRealised, HasClosedToday, CountOf, MirrorOf, ResultOf;
    var (s1, b1, ok) := TurnStep(s, start, booked, closed[0], day, need);
    if |s1.trades| <= j {
      BookingRecords(s1, start, b1, closed[1..], day, need, j);
    } else if ok {
      TurnAllOther(s1, start, b1, closed[1..], day, need, j);
    }
    var t := TurnAll(s, start, booked, closed, day, need).0.trades[j];
    ResultOfRest(closed, t.token, t.reason);
  }

  lemma HandledAreListed(e: Seen, tok: Token, reason: Reason)
    ensures ResultOf(HandledPart(e), tok, reason) ==> ResultOf(e.snap.closed, tok, reason)
  {
    var part := HandledPart(e);
    if i :| 0 <= i < |part| && part[i].token == tok && reason == Realised(part[i].pnl) {
      assert e.snap.closed[i].token == tok && reason == Realised(e.snap.closed[i].pnl);
    }
  }

  /**
    A pass that closes a mirror BROKER_REALISED or books a row records the broker's realised figure of a
    listed entry of that token; whatever else it does to a mirror keeps the reason.
   */
  lemma SyncRecords(s: State, snap: Snapshot, need: int, id: nat)
    requires OneMirror(s.trades) && id < |Sync(s, snap, need).0.trades|
    ensures var now := Sync(s, snap, need).0.trades[id];
      if id < |s.trades| && s.trades[id].status.Open? then
        if now.status == Closed(snap.day, BrokerRealised) then ResultOf(snap.closed, now.token, now.reason)
        else now.reason == s.trades[id].reason
      else id >= |s.trades| && now.booked ==> ResultOf(snap.closed, now.token, now.reason)
  {
    hide Sync, OpenAll, TurnAll, FlatAll, OpenTokens, Confirming, OneMirror, HasClosedToday, HasRealised, MirrorOf;
    hide Live, Turned, CountOf, Handled, HandledPart, Finished, ResultOf, IsOpen;
    var s1, s2 := PhasesOf(s, snap, need);
    var s0, part := s.(conf := Confirming(s.conf, snap)), HandledPart(SeenBy(s, snap));
    if id < |s.trades| {
      if s.trades[id].status.Open? {
        OpenRowIsMirror(s.trades, id);
        TurnAllRecords(s0, s.trades, {}, part, snap.day, need, id);
        HandledAreListed(SeenBy(s, snap), s.trades[id].token, s1.trades[id].reason);
        FlatAllRow(s1, s.trades, |s.trades|, snap, need, id);
        SyncOpenRow(s, snap, need, id);
      }
    } else if id < |s2.trades| {
      BookingRecords(s0, s.trades, {}, part, snap.day, need, id);
      FlatAllOther(s1, s.trades, |s.trades|, snap, need, id);
      HandledAreListed(SeenBy(s, snap), s1.trades[id].token, s1.trades[id].reason);
    } else {
      OpenAllOpens(s2, OpenTokens(s.trades), snap.positions, -1, id);
    }
  }

  // ---------------------------------------------------------------- which absences are consecutive

  /** Finished passes among the consecutive latest snapshots without the token. */
  function InStreak(h: seq<Seen>, tok: Token): nat {
    if h == [] || !Absent(h[|h| - 1].snap, tok) then 0
    else InStreak(h[..|h| - 1], tok) + if Finished(h[|h| - 1]) then 1 else 0
  }

  /** Raised ones among them. */
  function Idle(h: seq<Seen>, tok: Token): nat {
    if h == [] || !Absent(h[|h| - 1].snap, tok) then 0
    else Idle(h[..|h| - 1], tok) + if Finished(h[|h| - 1]) then 0 else 1
  }

  /** Counted absences from before the latest snapshot with the token, which a raise kept alive. */
  function Survived(h: seq<Seen>, tok: Token): nat {
    if h == [] then 0
    else if Absent(h[|h| - 1].snap, tok) then Survived(h[..|h| - 1], tok)
    else if Finished(h[|h| - 1]) then 0
    else Missed(h[..|h| - 1], tok)
  }

  lemma {:induction false} MissedSplits(h: seq<Seen>, tok: Token)
    ensures Missed(h, tok) == InStreak(h, tok) + Survived(h, tok)
    ensures Absences(h, tok) == InStreak(h, tok) + Idle(h, tok)
  {
    hide Absent, Finished;
    if h != [] {
      MissedSplits(h[..|h| - 1], tok);
    }
  }

  /** A pass raised in phase 1 while listing the token with absences counted, and none has finished listing it since. */
  ghost predicate InterruptedAt(h: seq<Seen>, tok: Token, i: int) {
    && 0 <= i < |h| && !Finished(h[i]) && !Absent(h[i].snap, tok) && Missed(h[..i], tok) > 0
    && forall j | i < j < |h| && Finished(h[j]) :: Absent(h[j].snap, tok)
  }

  ghost predicate Interrupted(h: seq<Seen>, tok: Token) {
    exists i :: InterruptedAt(h, tok, i)
  }

  lemma InterruptedGrows(h: seq<Seen>, e: Seen, tok: Token, i: int)
    requires i < |h|
    ensures InterruptedAt(h + [e], tok, i) <==> InterruptedAt(h, tok, i) && (Finished(e) ==> Absent(e.snap, tok))
  {
    if 0 <= i {
      assert (h + [e])[..i] == h[..i];
      assert (h + [e])[|h|] == e;
      assert forall j | i < j < |h| :: (h + [e])[j] == h[j];
    }
  }

  lemma {:induction false} SurvivedIff(h: seq<Seen>, tok: Token)
    ensures Survived(h, tok) > 0 <==> Interrupted(h, tok)
  {
    if h != [] {
      var n := |h| - 1;
      var e := h[n];
      SurvivedIff(h[..n], tok);
      MissedSplits(h[..n], tok);
      assert h[..n] + [e] == h;
      hide Absent, Finished, Missed;
      forall i | i < n
        ensures InterruptedAt(h, tok, i) <==> InterruptedAt(h[..n], tok, i) && (Finished(e) ==> Absent(e.snap, tok))
      {
        InterruptedGrows(h[..n], e, tok, i);
      }
      if InterruptedAt(h, tok, n) {
        assert Survived(h, tok) == Missed(h[..n], tok) > 0;
      }
      if Survived(h, tok) > 0 && !Absent(e.snap, tok) {
        assert InterruptedAt(h, tok, n);
      }
    }
  }

  ghost predicate AllFinished(c: seq<Seen>) {
    forall e | e in c :: Finished(e)
  }

  lemma SplitGrows(h: seq<Seen>, e: Seen, tok: Token)
    requires Finished(e)
    ensures Survived(h + [e], tok) == if Absent(e.snap, tok) then Survived(h, tok) else 0
    ensures Idle(h + [e], tok) == if Absent(e.snap, tok) then Idle(h, tok) else 0
  {
    assert (h + [e])[..|h|] == h;
  }

  /** After finished passes the two either stay as they are or are both gone. */
  lemma {:induction false} FinishedPassesKeepSplit(h: seq<Seen>, c: seq<Seen>, tok: Token)
    requires AllFinished(c)
    ensures (Survived(h + c, tok), Idle(h + c, tok)) == (Survived(h, tok), Idle(h, tok)) ||
      (Survived(h + c, tok), Idle(h + c, tok)) == (0, 0)
  {
    hide Survived, Idle, Finished, Absent;
    if c == [] {
      assert h + c == h;
    } else {
      var n := |c| - 1;
      assert c[n] in c && forall e | e in c[..n] :: e in c;
      FinishedPassesKeepSplit(h, c[..n], tok);
      SplitGrows(h + c[..n], c[n], tok);
      assert (h + c[..n]) + [c[n]] == h + c;
    }
  }

  ghost predicate CountsOnlyStreak(h: seq<Seen>, tok: Token) {
    forall c | AllFinished(c) :: Missed(h + c, tok) == InStreak(h + c, tok)
  }

  ghost predicate NeverAhead(h: seq<Seen>, tok: Token) {
    forall c | AllFinished(c) :: Missed(h + c, tok) <= Absences(h + c, tok)
  }

  ghost predicate CountsAbsences(h: seq<Seen>, tok: Token) {
    forall c | AllFinished(c) :: Missed(h + c, tok) == Absences(h + c, tok)
  }

  /**
    From any history on: only absences of the current streak are counted exactly when no raise kept an
    earlier one alive; BROKER_FLAT then and later takes as many consecutive absences exactly when at
    most as many were kept alive as passes raised in the streak; the count is the streak exactly when
    the two are equal, so, if none raised in the streak, exactly when none was kept alive.
   */
  lemma ConsecutiveIff(h: seq<Seen>, tok: Token)
    ensures CountsOnlyStreak(h, tok) <==> !Interrupted(h, tok)
    ensures NeverAhead(h, tok) <==> Survived(h, tok) <= Idle(h, tok)
    ensures CountsAbsences(h, tok) <==> Survived(h, tok) == Idle(h, tok)
    ensures Idle(h, tok) == 0 ==> (CountsAbsences(h, tok) <==> !Interrupted(h, tok))
  {
    hide Missed, InStreak, Absences, Survived, Idle, Interrupted;
    SurvivedIff(h, tok);
    forall c | AllFinished(c)
      ensures Missed(h + c, tok) == InStreak(h + c, tok) + Survived(h + c, tok)
      ensures Absences(h + c, tok) == InStreak(h + c, tok) + Idle(h + c, tok)
      ensures (Survived(h + c, tok), Idle(h + c, tok)) == (Survived(h, tok), Idle(h, tok)) ||
        (Survived(h + c, tok), Idle(h + c, tok)) == (0, 0)
    {
      MissedSplits(h + c, tok);
      FinishedPassesKeepSplit(h, c, tok);
    }
    assert AllFinished([]) && h + [] == h;
  }

  /**
    Over any run, a mirror that goes flat was absent in `need` consecutive snapshots, unless raises
    kept absences alive.
   */
  lemma FlatIsConsecutive(s: State, ps: seq<Pass>, id: nat)
    requires Started(s) && ps != [] && id < |After(s, ps[..|ps| - 1]).trades|
    requires var was := After(s, ps[..|ps| - 1]).trades[id];
      was.status.Open? && id < |After(s, ps).trades| &&
        After(s, ps).trades[id].status == Closed(ps[|ps| - 1].snap.day, BrokerFlat)
    ensures var tok, h := After(s, ps[..|ps| - 1]).trades[id].token, History(s, ps);
      var confirm := ps[|ps| - 1].confirm;
      Survived(h, tok) <= Idle(h, tok) ==> Absences(h, tok) >= if confirm == 0 then 3 else confirm
  {
    hide Sync, OneMirror, BookedOnce, Missed, Absences, InStreak, Survived, Idle, Finished, Absent, SeenBy;
    MirrorsAreConfirmed(s, ps, id);
    HistoryEnds(s, ps);
    MissedSplits(History(s, ps), After(s, ps[..|ps| - 1]).trades[id].token);
  }

  lemma HistoryEnds(s: State, ps: seq<Pass>)
    requires ps != []
    ensures History(s, ps)[|ps| - 1].snap == ps[|ps| - 1].snap
  {
  }

  // ---------------------------------------------------------------- one confirmation a pass

  /** Whatever the count before and the threshold, the entries add at most one confirmation to an open mirror. */
  ghost predicate ConfirmsOnce(s: State, closed: seq<RoundTurn>, day: int, id: nat)
    requires id < |s.trades|
  {
    forall c: nat, need: int :: ConfirmsOnceFrom(s, closed, day, id, c, need)
  }

  ghost predicate ConfirmsOnceFrom(s: State, closed: seq<RoundTurn>, day: int, id: nat, c: nat, need: int)
    requires id < |s.trades|
  {
    var tok := s.trades[id].token;
    var r := TurnAll(s.(conf := s.conf[tok := c]), s.trades, {}, closed, day, need).0;
    if r.trades[id].status.Open? then CountOf(r.conf, tok) <= c + 1 else c + 1 >= need
  }

  lemma TurnAllFrom(s: State, closed: seq<RoundTurn>, day: int, id: nat, c: nat, need: int)
    requires OneMirror(s.trades) && id < |s.trades| && s.trades[id].status.Open?
    ensures var tok := s.trades[id].token;
      TurnedRow(TurnAll(s.(conf := s.conf[tok := c]), s.trades, {}, closed, day, need).0, id, s.trades[id], c,
                CountOf(s.miss, tok), Times(closed[..Handled(s.trades, {}, closed, day)], tok), day, need)
  {
    hide TurnAll, Handled, OneMirror, Mirrored, Times, TurnedRow;
    var tok := s.trades[id].token;
    var s0 := s.(conf := s.conf[tok := c]);
    OpenRowIsMirror(s.trades, id);
    HandledPrefix(s0, s.trades, {}, closed, day, need);
    TurnAllRow(s0, s.trades, {}, closed[..Handled(s.trades, {}, closed, day)], day, need, id);
  }

  /** A pass counts an open mirror at most once exactly when the entries it handles list the token at most once. */
  lemma ConfirmsOnceIff(s: State, closed: seq<RoundTurn>, day: int, id: nat)
    requires OneMirror(s.trades) && id < |s.trades| && s.trades[id].status.Open?
    ensures ConfirmsOnce(s, closed, day, id) <==>
      Times(closed[..Handled(s.trades, {}, closed, day)], s.trades[id].token) <= 1
  {
    hide TurnAll, Handled, OneMirror, Times;
    var k := Times(closed[..Handled(s.trades, {}, closed, day)], s.trades[id].token);
    forall c: nat, need: int
      ensures k <= 1 ==> ConfirmsOnceFrom(s, closed, day, id, c, need)
    {
      TurnAllFrom(s, closed, day, id, c, need);
    }
    if k > 1 {
      TurnAllFrom(s, closed, day, id, 0, 2);
      assert !ConfirmsOnceFrom(s, closed, day, id, 0, 2);
    }
  }

  // ---------------------------------------------------------------- what the code does not promise

  const TOK := Token(1)
  const MIRROR := Trade(TOK, AutoSynced, Open, false)

  /** A snapshot that lists a round-turned token twice counts twice: one pass confirms what should take two. */
  lemma RepeatedEntryClosesEarly(day: int, pnl: int)
    ensures var e := RoundTurn(TOK, pnl, true);
      var s, ps := State([MIRROR], map[], map[]), [Pass(Snapshot(day, [], [e, e]), 2)];
      Started(s) && After(s, ps).trades[0].status == Closed(day, BrokerRealised) &&
        TurnedStreak(History(s, ps), TOK) == 1
  {
    var e := RoundTurn(TOK, pnl, true);
    var snap := Snapshot(day, [], [e, e]);
    var s, ps := State([MIRROR], map[], map[]), [Pass(snap, 2)];
    assert e in snap.closed && ps[..0] == [];
    HasOneMirror(s.trades);
    TurnAllOk(s.(conf := Confirming(s.conf, snap)), s.trades, {}, snap.closed, day, 2);
    HandledPrefix(s.(conf := Confirming(s.conf, snap)), s.trades, {}, snap.closed, day, 2);
    SyncOpenRow(s, snap, 2, 0);
    assert snap.closed[1..] == [e];
    assert Times([e], TOK) == 1;
    assert Times(snap.closed, TOK) == 2;
    assert TurnedStreak([], TOK) == 0;
    HistoryEnds(s, ps);
  }

  lemma {:induction false} TurnAllOk(s: State, start: seq<Trade>, booked: set<Token>, closed: seq<RoundTurn>,
          day: int, need: int)
    requires |start| <= |s.trades| && forall p | p in closed :: p.usable
    ensures TurnAll(s, start, booked, closed, day, need).1
    decreases |closed|
  {
    hide HasRealised, HasClosedToday, CountOf, MirrorOf;
    if closed != [] {
      var (s1, b1, ok) := TurnStep(s, start, booked, closed[0], day, need);
      assert closed[0] in closed;
      TurnAllOk(s1, start, b1, closed[1..], day, need);
    }
  }

  /**
    A pass that raises on a round-turned entry never reaches the absence counts: a mirror the broker
    listed in that very snapshot keeps its count, so BROKER_FLAT needs no consecutive absences.
   */
  lemma {:induction false} RaisedPassKeepsAbsences(s: State, start: seq<Trade>, booked: set<Token>,
          closed: seq<RoundTurn>, day: int, need: int, tok: Token)
    requires |start| <= |s.trades| && Times(closed, tok) == 0
    ensures CountOf(TurnAll(s, start, booked, closed, day, need).0.miss, tok) == CountOf(s.miss, tok)
    decreases |closed|
  {
    hide HasRealised, HasClosedToday, MirrorOf;
    if closed != [] {
      var (s1, b1, ok) := TurnStep(s, start, booked, closed[0], day, need);
      if ok {
        RaisedPassKeepsAbsences(s1, start, b1, closed[1..], day, need, tok);
      }
    }
  }

  lemma FlatWithoutConsecutiveAbsences(day: int)
    ensures var gone := Snapshot(day, [], []);
      var listed := Snapshot(day, [Position(TOK, true)], [RoundTurn(Token(2), 0, false)]);
      var s, ps := State([MIRROR], map[], map[]), [Pass(gone, 2), Pass(listed, 2), Pass(gone, 2)];
      && Started(s) && |After(s, ps).trades| > 0 && After(s, ps).trades[0].status == Closed(day, BrokerFlat)
      && Absences(History(s, ps), TOK) == 1
  {
    var gone := Snapshot(day, [], []);
    var listed := Snapshot(day, [Position(TOK, true)], [RoundTurn(Token(2), 0, false)]);
    var s := State([MIRROR], map[], map[]);
    var p1 := [Pass(gone, 2)];
    var p2 := p1 + [Pass(listed, 2)];
    var p3 := p2 + [Pass(gone, 2)];
    assert p3 == [Pass(gone, 2), Pass(listed, 2), Pass(gone, 2)];
    HasOneMirror(s.trades);
    AfterStep(s, [], Pass(gone, 2));
    AfterStep(s, p1, Pass(listed, 2));
    AfterStep(s, p2, Pass(gone, 2));
    assert [] + [Pass(gone, 2)] == p1;
    GoneOnce(gone);
    RaisedOnListed(Sync(s, gone, 2).0, listed);
    var h := History(s, p3);
    assert Position(TOK, true) in listed.positions;
    HistoryGrows(History(s, []), SeenBy(s, gone), TOK);
    HistoryGrows(History(s, p1), SeenBy(After(s, p1), listed), TOK);
    HistoryGrows(History(s, p2), SeenBy(After(s, p2), gone), TOK);
    hide OneMirror, Sync;
    SyncOpenRow(After(s, p2), gone, 2, 0);
  }

  lemma GoneOnce(gone: Snapshot)
    requires gone.positions == [] && gone.closed == []
    ensures var r := Sync(State([MIRROR], map[], map[]), gone, 2).0; r.trades == [MIRROR] && CountOf(r.miss, TOK) == 1
  {
  }

  lemma RaisedOnListed(s: State, listed: Snapshot)
    requires s.trades == [MIRROR] && listed.closed == [RoundTurn(Token(2), 0, false)]
    ensures !Finished(SeenBy(s, listed)) && Sync(s, listed, 2).0.trades == s.trades &&
      Sync(s, listed, 2).0.miss == s.miss
  {
  }

  lemma AfterStep(s: State, ps: seq<Pass>, p: Pass)
    ensures After(s, ps + [p]) == Sync(After(s, ps), p.snap, Need(p.confirm)).0
    ensures History(s, ps + [p]) == History(s, ps) + [SeenBy(After(s, ps), p.snap)]
  {
    assert (ps + [p])[..|ps|] == ps;
  }

  // ---------------------------------------------------------------- the pass, as the runner performs it

  class MirrorSync {
    var trades: seq<Trade>
    var miss: Counts
    var conf: Counts

    constructor ()
      ensures Now() == State([], map[], map[])
    {
      trades, miss, conf := [], map[], map[];
    }

    function Now(): State
      reads this
    {
      State(trades, miss, conf)
    }

    /** Phase 1: round-turned positions close their mirror or are booked once a day. */
    method RoundTurns(start: seq<Trade>, closed: seq<RoundTurn>, day: int, need: int) returns (ok: bool)
      requires start == trades
      modifies this
      ensures (Now(), ok) == TurnAll(old(Now()), start, {}, closed, day, need)
    {
      var booked: set<Token> := {};
      var i := 0;
      ghost var goal := TurnAll(Now(), start, {}, closed, day, need);
      while i < |closed|
        invariant 0 <= i <= |closed| && |start| <= |trades|
        invariant goal == TurnAll(Now(), start, booked, closed[i..], day, need)
      {
        var p := closed[i];
        var mirror := MirrorOf(start, p.token, |start|);
        assert closed[i..][0] == p && closed[i..][1..] == closed[i + 1..];
        i := i + 1;
        if mirror.Some? {
          var seen := CountOf(conf, p.token) + 1;
          ghost var before := conf;
          conf := conf[p.token := seen];
          if seen < need {
            continue;
          }
          conf := conf - {p.token};
          assert conf == before - {p.token};
          var closedRow := CloseRow(trades[mirror.value], day, BrokerRealised).(reason := Realised(p.pnl));
          trades := trades[mirror.value := closedRow];
          miss := miss - {p.token};
          continue;
        }
        if p.token.Blank? || HasRealised(start, p.token, p.pnl) || HasClosedToday(start, p.token, day) ||
          p.token in booked {
          continue;
        }
        booked := booked + {p.token};
        if !p.usable {
          return false;
        }
        trades := trades + [Trade(p.token, Realised(p.pnl), Closed(day, BrokerRealised), true)];
      }
      assert closed[i..] == [];
      return true;
    }

    /** Phase 2: mirrors absent from both lists often enough are closed flat. */
    method Vanished(start: seq<Trade>, snap: Snapshot, need: int)
      requires |start| <= |trades|
      modifies this
      ensures Now() == FlatAll(old(Now()), start, |start|, snap, need)
    {
      var n := |start|;
      while n > 0
        invariant 0 <= n <= |start| <= |trades|
        invariant FlatAll(old(Now()), start, |start|, snap, need) == FlatAll(Now(), start, n, snap, need)
      {
        n := n - 1;
        var t := start[n];
        if t.status.Open? {
          var tok := t.token;
          if t.reason != AutoSynced || tok in Live(snap) || tok in Turned(snap) {
            miss := miss - {tok};
          } else {
            var m := CountOf(miss, tok) + 1;
            if m < need {
              miss := miss[tok := m];
            } else {
              trades := trades[n := CloseRow(trades[n], snap.day, BrokerFlat)];
              miss := miss - {tok};
            }
          }
        }
      }
    }

    /** Phase 3: unknown positions get a mirror. */
    method Appeared(start: seq<Trade>, positions: seq<Position>) returns (ok: bool)
      modifies this
      ensures (Now(), ok) == OpenAll(old(Now()), OpenTokens(start), positions)
    {
      var known := OpenTokens(start);
      var i := 0;
      ghost var goal := OpenAll(Now(), known, positions);
      while i < |positions|
        invariant 0 <= i <= |positions|
        invariant goal == OpenAll(Now(), known, positions[i..])
      {
        var p := positions[i];
        assert positions[i..][0] == p && positions[i..][1..] == positions[i + 1..];
        i := i + 1;
        if p.token.Blank? || p.token in known {
          continue;
        }
        if !IsOpen(trades, p.token) {
          if !p.usable {
            return false;
          }
          trades := trades + [Trade(p.token, AutoSynced, Open, false)];
        }
        known := known + {p.token};
      }
      assert positions[i..] == [];
      return true;
    }

    method SyncPositions(snap: Snapshot, confirm: int) returns (ok: bool)
      modifies this
      ensures (Now(), ok) == Sync(old(Now()), snap, if confirm == 0 then 3 else confirm)
      ensures OneMirror(old(trades)) ==> forall id | 0 <= id < |old(trades)| && old(trades)[id].status.Open? ::
        OpenRowAfter(Now(), id, old(trades)[id], CountOf(Confirming(old(conf), snap), old(trades)[id].token),
                     CountOf(old(miss), old(trades)[id].token), SeenBy(old(Now()), snap),
                     if confirm == 0 then 3 else confirm)
    {
      ghost var was := Now();
      var start := trades;
      conf := Confirming(conf, snap);
      ok := RoundTurns(start, snap.closed, snap.day, Need(confirm));
      if ok {
        Vanished(start, snap, Need(confirm));
        ok := Appeared(start, snap.positions);
      }
      if OneMirror(was.trades) {
        OpenRows(was, snap, Need(confirm));
      }
    }
  }
}
