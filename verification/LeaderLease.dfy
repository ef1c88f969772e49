/**
  The TTL lease that elects one background runner across processes
  (backend/app/db.py, lease_acquire and lease_release; backend/app/scalper.py, _loop and stop).

  A process reads the clock before it enters the acquire transaction, so the time it writes may
  be old.  A release is a SELECT followed by a DELETE by key, with other processes free to act in
  between; the process's own acquire cannot, since both run under one in-process lock.
 */
module LeaderLease {
  import opened Wrappers

  type Pid = nat

  /** The settings row of the lease. Corrupt stands for any value that does not parse. */
  datatype Row = Absent | Corrupt | Held(owner: Pid, hb: real)

  datatype Acquire = Idle | Reading(now: real) | Answered(granted: bool)

  /** Selected: the release saw its own row, with that heartbeat, and is about to delete by key. */
  datatype Release = Resting | Selected(hb: real)

  /** `grant` is the clock value of the last grant since the last release, if any. */
  datatype Proc = Proc(acquire: Acquire, release: Release, grant: Option<real>, leader: bool)

  datatype State = State(clock: real, row: Row, procs: map<Pid, Proc>)

  const NEW_PROC := Proc(Idle, Resting, None, false)

  function Of(s: State, p: Pid): Proc {
    if p in s.procs then s.procs[p] else NEW_PROC
  }

  function Put(s: State, p: Pid, q: Proc): State {
    s.(procs := s.procs[p := q])
  }

  // ---------------------------------------------------------------- the two database operations

  /** The guard of the acquire transaction. */
  predicate Grantable(row: Row, owner: Pid, now: real, ttl: real) {
    match row
    case Absent => true
    case Corrupt => true
    case Held(holder, hb) => holder == owner || now - hb > ttl
  }

  /** What the acquire transaction leaves in the row, and whether it grants. */
  function Acquired(row: Row, owner: Pid, now: real, ttl: real): (Row, bool) {
    if Grantable(row, owner, now, ttl) then (Held(owner, now), true) else (row, false)
  }

  /** What the SELECT of a release sees: the heartbeat of its own row, if it is its own. */
  function Mine(row: Row, owner: Pid): Option<real> {
    if row.Held? && row.owner == owner then Some(row.hb) else None
  }

  /** What its DELETE leaves, whoever holds the row by then. */
  function Deleted(row: Row): Row {
    Absent
  }

  class AppSettings {
    var row: Row

    constructor ()
      ensures row == Absent
    {
      row := Absent;
    }

    /** BEGIN IMMEDIATE .. COMMIT: one atomic step across processes. */
    method AcquireTxn(owner: Pid, now: real, ttl: real) returns (granted: bool)
      modifies this
      ensures (row, granted) == Acquired(old(row), owner, now, ttl)
      ensures granted <==> !(old(row).Held? && old(row).owner != owner && now - old(row).hb <= ttl)
      ensures row == if granted then Held(owner, now) else old(row)
      ensures old(row).Held? && old(row).owner == owner ==> granted && row == Held(owner, now)
    {
      var unowned, holder, hb := true, owner, 0.0;
      match row {
        case Held(o, h) => unowned, holder, hb := false, o, h;
        case _ =>
      }
      if unowned || holder == owner || now - hb > ttl {
        row := Held(owner, now);
        return true;
      }
      return false;
    }

    /** The SELECT of a release: is the row mine, and with which heartbeat? */
    method ReleaseSelect(owner: Pid) returns (mine: Option<real>)
      ensures mine == Mine(row, owner)
      ensures mine.Some? <==> row.Held? && row.owner == owner
      ensures mine.Some? ==> row == Held(owner, mine.value)
    {
      match row {
        case Held(o, h) => mine := if o == owner then Some(h) else None;
        case _ => mine := None;
      }
    }

    /** The DELETE of a release: by key, without looking at the owner again. */
    method ReleaseDelete()
      modifies this
      ensures row == Deleted(old(row)) && row == Absent
    {
      row := Absent;
    }
  }

  // ---------------------------------------------------------------- the protocol

  /** One step of a process or of the clock; every access to the row is one of the database operations above. */
  datatype Step =
    | Tick(now: real)
    | ReadClock(p: Pid)
    | Txn(p: Pid, ok: bool)
    | Settle(p: Pid)
    | Select(p: Pid)
    | Delete(p: Pid)

  predicate Enabled(s: State, e: Step) {
    match e
    case Tick(now) => s.clock <= now
    case ReadClock(p) => Of(s, p).acquire.Idle?
    case Txn(p, _) => Of(s, p).acquire.Reading? && Of(s, p).release.Resting?
    case Settle(p) => Of(s, p).acquire.Answered?
    case Select(p) => Of(s, p).release.Resting?
    case Delete(p) => Of(s, p).release.Selected?
  }

  function Next(s: State, e: Step, ttl: real): State
    requires Enabled(s, e)
  {
    match e
    case Tick(now) => s.(clock := now)
    case ReadClock(p) => Put(s, p, Of(s, p).(acquire := Reading(s.clock)))
    case Txn(p, ok) =>
      var q := Of(s, p);
      var (row, granted) := if ok then Acquired(s.row, p, q.acquire.now, ttl) else (s.row, false);
      Put(s.(row := row), p,
          q.(acquire := Answered(granted), grant := if granted then Some(q.acquire.now) else q.grant))
    case Settle(p) =>
      Put(s, p, Of(s, p).(acquire := Idle, leader := Of(s, p).acquire.granted))
    case Select(p) =>
      var mine := Mine(s.row, p);
      if mine.Some? then Put(s, p, Of(s, p).(release := Selected(mine.value), grant := None))
      else Put(s, p, Of(s, p).(grant := None, leader := false))
    case Delete(p) =>
      Put(s.(row := Deleted(s.row)), p, Of(s, p).(release := Resting, leader := false))
  }

  /** A process was granted the lease, has not released it since, and its heartbeat is in date. */
  predicate Live(s: State, p: Pid, ttl: real) {
    Of(s, p).grant.Some? && s.clock <= Of(s, p).grant.value + ttl
  }

  /** No clock read lies in the future, and a process in release no longer counts its grant. */
  ghost predicate WellFormed(s: State) {
    forall p {:trigger Of(s, p)} ::
      && (Of(s, p).acquire.Reading? ==> Of(s, p).acquire.now <= s.clock)
      && (Of(s, p).release.Selected? ==> Of(s, p).grant.None?)
  }

  /** The row names every live holder, with the heartbeat of its last grant. */
  ghost predicate Safe(s: State, ttl: real) {
    forall p {:trigger Of(s, p)} :: Live(s, p, ttl) ==> s.row == Held(p, Of(s, p).grant.value)
  }

  lemma AtMostOneLive(s: State, ttl: real, p: Pid, q: Pid)
    requires Safe(s, ttl) && Live(s, p, ttl) && Live(s, q, ttl)
    ensures p == q
  {
  }

  /** A release deletes the row of another process whose lease is in date. */
  predicate Clobbers(s: State, e: Step, ttl: real) {
    e.Delete? && s.row.Held? && s.row.owner != e.p && Live(s, s.row.owner, ttl)
  }

  lemma WellFormedStep(s: State, e: Step, ttl: real)
    requires WellFormed(s) && Enabled(s, e)
    ensures WellFormed(Next(s, e, ttl))
  {
    var t := Next(s, e, ttl);
    forall p
      ensures Of(t, p).acquire.Reading? ==> Of(t, p).acquire.now <= t.clock
      ensures Of(t, p).release.Selected? ==> Of(t, p).grant.None?
    {
      assert Of(s, p) == Of(s, p);
    }
  }

  /** Exactly the clobbering deletes break safety; every other step keeps it, however stale its clock. */
  lemma SafeStep(s: State, e: Step, ttl: real)
    requires WellFormed(s) && Safe(s, ttl) && Enabled(s, e)
    ensures Safe(Next(s, e, ttl), ttl) <==> !Clobbers(s, e, ttl)
  {
    var t := Next(s, e, ttl);
    if Clobbers(s, e, ttl) {
      assert Of(t, s.row.owner) == Of(s, s.row.owner);
    } else {
      forall p ensures Live(t, p, ttl) ==> t.row == Held(p, Of(t, p).grant.value) {
        assert Of(s, p) == Of(s, p);
        if e.Txn? || e.Delete? { assert Of(s, e.p) == Of(s, e.p); }
      }
    }
  }

  // ---------------------------------------------------------------- whole runs

  /** Every step of the run is enabled where it is taken. */
  ghost predicate Valid(s: State, run: seq<Step>, ttl: real)
    decreases |run|
  {
    run == [] || (Enabled(s, run[0]) && Valid(Next(s, run[0], ttl), run[1..], ttl))
  }

  ghost function After(s: State, run: seq<Step>, ttl: real): State
    requires Valid(s, run, ttl)
    decreases |run|
  {
    if run == [] then s else After(Next(s, run[0], ttl), run[1..], ttl)
  }

  ghost predicate AlwaysSafe(s: State, run: seq<Step>, ttl: real)
    requires Valid(s, run, ttl)
    decreases |run|
  {
    Safe(s, ttl) && (run == [] || AlwaysSafe(Next(s, run[0], ttl), run[1..], ttl))
  }

  ghost predicate NeverClobbers(s: State, run: seq<Step>, ttl: real)
    requires Valid(s, run, ttl)
    decreases |run|
  {
    run == [] || (!Clobbers(s, run[0], ttl) && NeverClobbers(Next(s, run[0], ttl), run[1..], ttl))
  }

  /** A run is taken step by step. */
  lemma Prepend(s: State, e: Step, run: seq<Step>, ttl: real)
    requires Enabled(s, e) && Valid(Next(s, e, ttl), run, ttl)
    ensures Valid(s, [e] + run, ttl)
    ensures After(s, [e] + run, ttl) == After(Next(s, e, ttl), run, ttl)
    ensures NeverClobbers(s, [e] + run, ttl) <==> !Clobbers(s, e, ttl) && NeverClobbers(Next(s, e, ttl), run, ttl)
    ensures NeverOrphans(s, [e] + run, ttl) <==> !Orphans(s, e, ttl) && NeverOrphans(Next(s, e, ttl), run, ttl)
    ensures AllTimely(s, [e] + run, ttl) <==> Timely(s, e, ttl) && AllTimely(Next(s, e, ttl), run, ttl)
  {
  }

  /**
    In every interleaving: the row names every live holder at every moment iff no release deletes a
    live foreign row.
   */
  lemma {:induction false} RowNamesHoldersIffNoClobber(s: State, run: seq<Step>, ttl: real)
    requires WellFormed(s) && Safe(s, ttl) && Valid(s, run, ttl)
    ensures AlwaysSafe(s, run, ttl) <==> NeverClobbers(s, run, ttl)
    decreases |run|
  {
    hide WellFormed, Safe, Clobbers, Next, Enabled;
    if run != [] {
      SafeStep(s, run[0], ttl);
      WellFormedStep(s, run[0], ttl);
      var t := Next(s, run[0], ttl);
      if !Clobbers(s, run[0], ttl) {
        RowNamesHoldersIffNoClobber(t, run[1..], ttl);
      } else {
        assert !AlwaysSafe(t, run[1..], ttl);
      }
    }
  }

  ghost predicate Exclusive(s: State, ttl: real) {
    forall p, q {:trigger Live(s, p, ttl), Live(s, q, ttl)} :: Live(s, p, ttl) && Live(s, q, ttl) ==> p == q
  }

  ghost predicate AlwaysExclusive(s: State, run: seq<Step>, ttl: real)
    requires Valid(s, run, ttl)
    decreases |run|
  {
    Exclusive(s, ttl) && (run == [] || AlwaysExclusive(Next(s, run[0], ttl), run[1..], ttl))
  }

  /** Without such a delete at most one process is live throughout. */
  lemma {:induction false} NoClobberIsExclusive(s: State, run: seq<Step>, ttl: real)
    requires WellFormed(s) && Safe(s, ttl) && Valid(s, run, ttl) && NeverClobbers(s, run, ttl)
    ensures AlwaysExclusive(s, run, ttl)
    decreases |run|
  {
    hide WellFormed, Clobbers, Next, Enabled;
    forall p, q | Live(s, p, ttl) && Live(s, q, ttl)
      ensures p == q
    {
      AtMostOneLive(s, ttl, p, q);
    }
    if run != [] {
      SafeStep(s, run[0], ttl);
      WellFormedStep(s, run[0], ttl);
      NoClobberIsExclusive(Next(s, run[0], ttl), run[1..], ttl);
    }
  }

  lemma {:induction false} AboveAll(ps: set<Pid>) returns (q: Pid)
    ensures forall p | p in ps :: p < q
  {
    if ps == {} {
      q := 0;
    } else {
      var p :| p in ps;
      var r := AboveAll(ps - {p});
      q := if p < r then r else p + 1;
      assert ps == ps - {p} + {p};
    }
  }

  /** A process nobody has heard of yet reads the clock and is granted a free row. */
  lemma NewcomerIsGranted(s: State, q: Pid, ttl: real)
    requires q !in s.procs && Grantable(s.row, q, s.clock, ttl)
    ensures var run := [ReadClock(q), Txn(q, true)];
      && Valid(s, run, ttl) && NeverClobbers(s, run, ttl)
      && After(s, run, ttl) == Put(s.(row := Held(q, s.clock)), q, Proc(Answered(true), Resting, Some(s.clock), false))
  {
    var t := Next(s, ReadClock(q), ttl);
    var u := Next(t, Txn(q, true), ttl);
    assert u == Put(s.(row := Held(q, s.clock)), q, Proc(Answered(true), Resting, Some(s.clock), false));
    Prepend(t, Txn(q, true), [], ttl);
    Prepend(s, ReadClock(q), [Txn(q, true)], ttl);
    assert [ReadClock(q)] + [Txn(q, true)] == [ReadClock(q), Txn(q, true)];
  }

  /** However the processes go on, there is at most one live leader, as long as no release clobbers. */
  ghost predicate StaysExclusive(s: State, ttl: real) {
    forall run | Valid(s, run, ttl) && NeverClobbers(s, run, ttl) :: AlwaysExclusive(s, run, ttl)
  }

  lemma SafeStaysExclusive(s: State, ttl: real)
    requires WellFormed(s) && Safe(s, ttl)
    ensures StaysExclusive(s, ttl)
  {
    hide WellFormed, Safe, Valid, NeverClobbers, AlwaysExclusive;
    forall run | Valid(s, run, ttl) && NeverClobbers(s, run, ttl)
      ensures AlwaysExclusive(s, run, ttl)
    {
      NoClobberIsExclusive(s, run, ttl);
    }
  }

  /** A step puts later exclusivity at stake exactly when it deletes a live foreign row. */
  lemma StaysExclusiveIff(s: State, e: Step, ttl: real)
    requires WellFormed(s) && Safe(s, ttl) && Enabled(s, e) && ttl >= 0.0
    ensures StaysExclusive(Next(s, e, ttl), ttl) <==> !Clobbers(s, e, ttl)
  {
    var t := Next(s, e, ttl);
    if Clobbers(s, e, ttl) {
      var p := s.row.owner;
      var q := AboveAll(t.procs.Keys);
      NewcomerIsGranted(t, q, ttl);
      var run := [ReadClock(q), Txn(q, true)];
      LastIsExclusive(t, run, ttl);
      var u := After(t, run, ttl);
      assert Live(t, p, ttl) && p in t.procs;
      assert Live(u, p, ttl) && Live(u, q, ttl);
    } else {
      SafeStep(s, e, ttl);
      WellFormedStep(s, e, ttl);
      SafeStaysExclusive(t, ttl);
    }
  }

  lemma {:induction false} LastIsExclusive(s: State, run: seq<Step>, ttl: real)
    requires Valid(s, run, ttl)
    ensures AlwaysExclusive(s, run, ttl) ==> Exclusive(After(s, run, ttl), ttl)
    decreases |run|
  {
    hide Exclusive;
    if run != [] {
      LastIsExclusive(Next(s, run[0], ttl), run[1..], ttl);
    }
  }

  ghost predicate AlwaysStaysExclusive(s: State, run: seq<Step>, ttl: real)
    requires Valid(s, run, ttl)
    decreases |run|
  {
    StaysExclusive(s, ttl) && (run == [] || AlwaysStaysExclusive(Next(s, run[0], ttl), run[1..], ttl))
  }

  /**
    In every interleaving: at every moment, however the processes go on, there is at most one live
    leader iff no release deletes a live foreign row.
   */
  lemma {:induction false} ExclusiveIffNoClobber(s: State, run: seq<Step>, ttl: real)
    requires WellFormed(s) && Safe(s, ttl) && Valid(s, run, ttl) && ttl >= 0.0
    ensures AlwaysStaysExclusive(s, run, ttl) <==> NeverClobbers(s, run, ttl)
    decreases |run|
  {
    hide WellFormed, Safe, Clobbers, Next, Enabled, StaysExclusive;
    SafeStaysExclusive(s, ttl);
    if run != [] {
      StaysExclusiveIff(s, run[0], ttl);
      var t := Next(s, run[0], ttl);
      if !Clobbers(s, run[0], ttl) {
        SafeStep(s, run[0], ttl);
        WellFormedStep(s, run[0], ttl);
        ExclusiveIffNoClobber(t, run[1..], ttl);
      } else {
        assert !AlwaysStaysExclusive(t, run[1..], ttl);
      }
    }
  }

  /**
    The atomicity a release needs: its DELETE comes while the heartbeat its SELECT saw is in date
    (in particular when nothing happens in between).
   */
  predicate Timely(s: State, e: Step, ttl: real) {
    e.Delete? && Of(s, e.p).release.Selected? ==> s.clock <= Of(s, e.p).release.hb + ttl
  }

  /** While a release is in date, the row is still the one it selected. */
  ghost predicate Pinned(s: State, ttl: real) {
    forall p {:trigger Of(s, p)} ::
      var r := Of(s, p).release;
      r.Selected? && s.clock <= r.hb + ttl ==> s.row == Held(p, r.hb)
  }

  lemma PinnedStep(s: State, e: Step, ttl: real)
    requires WellFormed(s) && Pinned(s, ttl) && Enabled(s, e) && Timely(s, e, ttl)
    ensures Pinned(Next(s, e, ttl), ttl)
    ensures !Clobbers(s, e, ttl)
  {
    var t := Next(s, e, ttl);
    forall p ensures Of(t, p).release.Selected? && t.clock <= Of(t, p).release.hb + ttl
             ==> t.row == Held(p, Of(t, p).release.hb)
    {
      assert Of(s, p) == Of(s, p);
      if e.Txn? || e.Delete? { assert Of(s, e.p) == Of(s, e.p); }
    }
    if e.Delete? { assert Of(s, e.p) == Of(s, e.p); }
  }

  ghost predicate AllTimely(s: State, run: seq<Step>, ttl: real)
    requires Valid(s, run, ttl)
    decreases |run|
  {
    run == [] || (Timely(s, run[0], ttl) && AllTimely(Next(s, run[0], ttl), run[1..], ttl))
  }

  /** With timely releases there is at most one live leader in every reachable interleaving. */
  lemma {:induction false} TimelyReleasesSuffice(s: State, run: seq<Step>, ttl: real)
    requires WellFormed(s) && Safe(s, ttl) && Pinned(s, ttl)
    requires Valid(s, run, ttl) && AllTimely(s, run, ttl)
    ensures NeverClobbers(s, run, ttl) && AlwaysSafe(s, run, ttl)
    decreases |run|
  {
    hide WellFormed, Safe, Pinned, Clobbers, Timely, Next, Enabled;
    if run != [] {
      PinnedStep(s, run[0], ttl);
      SafeStep(s, run[0], ttl);
      WellFormedStep(s, run[0], ttl);
      TimelyReleasesSuffice(Next(s, run[0], ttl), run[1..], ttl);
    }
  }

  /** Nobody holds anything yet; the row may be a leftover of any kind. */
  predicate Initial(s: State) {
    s.procs == map[]
  }

  lemma InitialIsSafe(s: State, ttl: real)
    requires Initial(s)
    ensures WellFormed(s) && Safe(s, ttl) && Pinned(s, ttl) && FlagsLive(s, ttl)
  {
  }

  /** Exactly another owner's heartbeat at most ttl old keeps a process from being granted the lease. */
  lemma GrantedIff(s: State, p: Pid, ttl: real)
    requires Enabled(s, Txn(p, true))
    ensures var now, t := Of(s, p).acquire.now, Next(s, Txn(p, true), ttl);
      && (Of(t, p).acquire == Answered(false) <==> s.row.Held? && s.row.owner != p && now - s.row.hb <= ttl)
      && (Of(t, p).acquire == Answered(true) ==> t.row == Held(p, now) && Of(t, p).grant == Some(now))
      && (Of(t, p).acquire == Answered(false) ==> t.row == s.row && Of(t, p).grant == Of(s, p).grant)
      && (Of(t, p).acquire == Answered(true) || Of(t, p).acquire == Answered(false))
  {
  }

  /**
    In every interleaving whose releases clobber nothing, a live holder renews whenever it asks: it
    stays the owner with the heartbeat it read, and its flag stays up.
   */
  lemma HolderRenews(s: State, run: seq<Step>, ttl: real, p: Pid)
    requires WellFormed(s) && Safe(s, ttl) && Valid(s, run, ttl) && NeverClobbers(s, run, ttl)
    requires Live(After(s, run, ttl), p, ttl) && Enabled(After(s, run, ttl), Txn(p, true))
    ensures var u := After(s, run, ttl);
      var t := Next(u, Txn(p, true), ttl);
      && t.row == Held(p, Of(u, p).acquire.now)
      && Of(t, p).grant == Some(Of(u, p).acquire.now)
      && Enabled(t, Settle(p)) && Of(Next(t, Settle(p), ttl), p).leader
      && forall q | q != p :: Of(Next(t, Settle(p), ttl), q) == Of(u, q)
  {
    hide WellFormed, NeverClobbers;
    RowNamesHoldersIffNoClobber(s, run, ttl);
    LastIsSafe(s, run, ttl);
    var u := After(s, run, ttl);
    assert Live(u, p, ttl) ==> u.row == Held(p, Of(u, p).grant.value);
    GrantedIff(u, p, ttl);
  }

  lemma {:induction false} LastIsSafe(s: State, run: seq<Step>, ttl: real)
    requires Valid(s, run, ttl) && AlwaysSafe(s, run, ttl)
    ensures Safe(After(s, run, ttl), ttl)
    decreases |run|
  {
    hide Safe;
    if run != [] {
      LastIsSafe(Next(s, run[0], ttl), run[1..], ttl);
    }
  }

  /** A settled answer is the flag: a refusal lowers it, a grant raises it. */
  lemma SettledIsFlag(s: State, p: Pid, ok: bool, ttl: real)
    requires Enabled(s, Txn(p, ok))
    ensures var t := Next(s, Txn(p, ok), ttl);
      && Enabled(t, Settle(p))
      && (Of(Next(t, Settle(p), ttl), p).leader <==>
            ok && !(s.row.Held? && s.row.owner != p && Of(s, p).acquire.now - s.row.hb <= ttl))
  {
    hide Live;
  }

  /** The row passes from one owner to another only past the old heartbeat's ttl; it vanishes only by a release. */
  lemma OwnerChange(s: State, e: Step, ttl: real)
    requires WellFormed(s) && Enabled(s, e) && s.row.Held?
    ensures var t := Next(s, e, ttl);
      && (t.row.Held? && t.row.owner != s.row.owner ==>
            e.Txn? && e.p == t.row.owner && s.clock > s.row.hb + ttl)
      && (!t.row.Held? ==> e.Delete?)
      && !t.row.Corrupt?
  {
  }

  /** A step of `p` itself that renews or gives up its lease. */
  predicate Touches(e: Step, p: Pid) {
    (e.Txn? || e.Select?) && e.p == p
  }

  /** Until its heartbeat is out of date, nobody else is granted the lease a process holds. */
  lemma {:induction false} HolderUndisturbed(s: State, run: seq<Step>, ttl: real, p: Pid, q: Pid)
    requires Valid(s, run, ttl) && AlwaysSafe(s, run, ttl)
    requires Of(s, p).grant.Some? && forall e | e in run :: !Touches(e, p)
    requires After(s, run, ttl).clock <= Of(s, p).grant.value + ttl
    ensures After(s, run, ttl).row == Held(p, Of(s, p).grant.value)
    ensures q != p ==> Of(After(s, run, ttl), q).grant == Of(s, q).grant || Of(After(s, run, ttl), q).grant.None?
    decreases |run|
  {
    ClockGrows(s, run, ttl);
    if run != [] {
      var t := Next(s, run[0], ttl);
      assert run[0] in run;
      ClockGrows(t, run[1..], ttl);
      assert Of(t, p).grant == Of(s, p).grant;
      assert q != p ==> Of(t, q).grant == Of(s, q).grant || Of(t, q).grant.None?;
      HolderUndisturbed(t, run[1..], ttl, p, q);
    }
  }

  lemma {:induction false} ClockGrows(s: State, run: seq<Step>, ttl: real)
    requires Valid(s, run, ttl)
    ensures s.clock <= After(s, run, ttl).clock
    decreases |run|
  {
    if run != [] {
      ClockGrows(Next(s, run[0], ttl), run[1..], ttl);
    }
  }

  // ---------------------------------------------------------------- the is_leader flags

  /** Every process that takes itself for the leader has a lease in date. */
  ghost predicate FlagsLive(s: State, ttl: real) {
    forall p {:trigger Of(s, p)} :: Of(s, p).leader ==> Live(s, p, ttl)
  }

  ghost predicate OneFlag(s: State) {
    forall p, q {:trigger Of(s, p), Of(s, q)} :: Of(s, p).leader && Of(s, q).leader ==> p == q
  }

  lemma LiveFlagIsOne(s: State, ttl: real)
    requires Safe(s, ttl) && FlagsLive(s, ttl)
    ensures OneFlag(s)
  {
    forall p, q | Of(s, p).leader && Of(s, q).leader
      ensures p == q
    {
      AtMostOneLive(s, ttl, p, q);
    }
  }

  /**
    The step leaves a flag without a lease in date: time runs past a flagged holder's ttl, a flagged
    process renews with a reading older than that or starts to release, or a process raises its flag for
    a grant it has released or outlived.
   */
  ghost predicate Orphans(s: State, e: Step, ttl: real) {
    match e
    case Tick(now) => exists p :: Of(s, p).leader && Live(s, p, ttl) && now > Of(s, p).grant.value + ttl
    case Txn(p, ok) =>
      var q := Of(s, p);
      && q.leader && ok && q.acquire.Reading?
      && Grantable(s.row, p, q.acquire.now, ttl) && s.clock > q.acquire.now + ttl
    case Select(p) => Of(s, p).leader && Mine(s.row, p).Some?
    case Settle(p) => Of(s, p).acquire == Answered(true) && !Live(s, p, ttl)
    case _ => false
  }

  lemma FlagsStep(s: State, e: Step, ttl: real)
    requires FlagsLive(s, ttl) && Enabled(s, e)
    ensures FlagsLive(Next(s, e, ttl), ttl) <==> !Orphans(s, e, ttl)
  {
    var t := Next(s, e, ttl);
    if Orphans(s, e, ttl) {
      if e.Tick? {
        var p :| Of(s, p).leader && Live(s, p, ttl) && e.now > Of(s, p).grant.value + ttl;
        assert Of(t, p) == Of(s, p);
      } else {
        assert Of(t, e.p).leader && !Live(t, e.p, ttl);
      }
    } else {
      forall p ensures Of(t, p).leader ==> Live(t, p, ttl) {
        assert Of(s, p) == Of(s, p);
      }
    }
  }

  ghost predicate AlwaysFlagsLive(s: State, run: seq<Step>, ttl: real)
    requires Valid(s, run, ttl)
    decreases |run|
  {
    FlagsLive(s, ttl) && (run == [] || AlwaysFlagsLive(Next(s, run[0], ttl), run[1..], ttl))
  }

  ghost predicate NeverOrphans(s: State, run: seq<Step>, ttl: real)
    requires Valid(s, run, ttl)
    decreases |run|
  {
    run == [] || (!Orphans(s, run[0], ttl) && NeverOrphans(Next(s, run[0], ttl), run[1..], ttl))
  }

  ghost predicate AlwaysOneFlag(s: State, run: seq<Step>, ttl: real)
    requires Valid(s, run, ttl)
    decreases |run|
  {
    OneFlag(s) && (run == [] || AlwaysOneFlag(Next(s, run[0], ttl), run[1..], ttl))
  }

  /** In every interleaving: every flag is backed by a lease in date at every moment iff no step orphans one. */
  lemma {:induction false} FlagsLiveIffNeverOrphans(s: State, run: seq<Step>, ttl: real)
    requires FlagsLive(s, ttl) && Valid(s, run, ttl)
    ensures AlwaysFlagsLive(s, run, ttl) <==> NeverOrphans(s, run, ttl)
    decreases |run|
  {
    hide FlagsLive, Orphans, Next, Enabled;
    if run != [] {
      FlagsStep(s, run[0], ttl);
      var t := Next(s, run[0], ttl);
      if !Orphans(s, run[0], ttl) {
        FlagsLiveIffNeverOrphans(t, run[1..], ttl);
      } else {
        assert !AlwaysFlagsLive(t, run[1..], ttl);
      }
    }
  }

  /** Then at most one process takes itself for the leader, if no release clobbers either. */
  lemma {:induction false} BackedFlagsAreOne(s: State, run: seq<Step>, ttl: real)
    requires WellFormed(s) && Safe(s, ttl) && FlagsLive(s, ttl) && Valid(s, run, ttl)
    requires NeverClobbers(s, run, ttl) && NeverOrphans(s, run, ttl)
    ensures AlwaysOneFlag(s, run, ttl)
    decreases |run|
  {
    hide WellFormed, Safe, FlagsLive, OneFlag, Clobbers, Orphans, Next, Enabled;
    LiveFlagIsOne(s, ttl);
    if run != [] {
      SafeStep(s, run[0], ttl);
      WellFormedStep(s, run[0], ttl);
      FlagsStep(s, run[0], ttl);
      BackedFlagsAreOne(Next(s, run[0], ttl), run[1..], ttl);
    }
  }

  /** However the processes go on, one flag is up at most, as long as no release clobbers and no step orphans a flag. */
  ghost predicate StaysOneFlag(s: State, ttl: real) {
    forall run | Valid(s, run, ttl) && NeverClobbers(s, run, ttl) && NeverOrphans(s, run, ttl) ::
      AlwaysOneFlag(s, run, ttl)
  }

  lemma BackedFlagsStayOne(s: State, ttl: real)
    requires WellFormed(s) && Safe(s, ttl) && FlagsLive(s, ttl)
    ensures StaysOneFlag(s, ttl)
  {
    hide WellFormed, Safe, FlagsLive, Valid, NeverClobbers, NeverOrphans, AlwaysOneFlag;
    forall run | Valid(s, run, ttl) && NeverClobbers(s, run, ttl) && NeverOrphans(s, run, ttl)
      ensures AlwaysOneFlag(s, run, ttl)
    {
      BackedFlagsAreOne(s, run, ttl);
    }
  }

  /** Some time at which the row is free for anyone. */
  function Expired(s: State, ttl: real): real {
    if s.row.Held? && s.row.hb + ttl >= s.clock then s.row.hb + ttl + 1.0 else s.clock
  }

  /** A newcomer waits until the row is free, is granted it and raises its flag. */
  function Takeover(s: State, q: Pid, ttl: real): seq<Step> {
    [Tick(Expired(s, ttl)), ReadClock(q), Txn(q, true), Settle(q)]
  }

  /** Once a flag is up without a lease in date, a newcomer raises a second one though nothing more goes wrong. */
  lemma NewcomerRaisesFlag(s: State, p: Pid, q: Pid, ttl: real)
    requires OneFlag(s) && Of(s, p).leader && !Live(s, p, ttl) && q !in s.procs && ttl >= 0.0
    ensures var run := Takeover(s, q, ttl);
      && Valid(s, run, ttl) && NeverClobbers(s, run, ttl) && NeverOrphans(s, run, ttl)
      && !OneFlag(After(s, run, ttl))
  {
    var now := Expired(s, ttl);
    var s1 := Next(s, Tick(now), ttl);
    var s2 := Next(s1, ReadClock(q), ttl);
    var s3 := Next(s2, Txn(q, true), ttl);
    var s4 := Next(s3, Settle(q), ttl);
    assert Of(s, p) == Of(s, p);
    assert s3.row == Held(q, now) && Of(s3, q) == Proc(Answered(true), Resting, Some(now), false);
    assert Of(s4, p).leader && Of(s4, q).leader;
    Prepend(s3, Settle(q), [], ttl);
    Prepend(s2, Txn(q, true), [Settle(q)], ttl);
    Prepend(s1, ReadClock(q), [Txn(q, true)] + [Settle(q)], ttl);
    Prepend(s, Tick(now), [ReadClock(q)] + ([Txn(q, true)] + [Settle(q)]), ttl);
    assert [Tick(now)] + ([ReadClock(q)] + ([Txn(q, true)] + [Settle(q)])) == Takeover(s, q, ttl);
    assert [Settle(q)] + [] == [Settle(q)];
  }

  lemma {:induction false} LastHasOneFlag(s: State, run: seq<Step>, ttl: real)
    requires Valid(s, run, ttl)
    ensures AlwaysOneFlag(s, run, ttl) ==> OneFlag(s) && OneFlag(After(s, run, ttl))
    decreases |run|
  {
    hide OneFlag;
    if run != [] {
      LastHasOneFlag(Next(s, run[0], ttl), run[1..], ttl);
    }
  }

  /** A step that clobbers nothing puts later uniqueness of the flag at stake exactly when it orphans one. */
  lemma StaysOneFlagIff(s: State, e: Step, ttl: real)
    requires WellFormed(s) && Safe(s, ttl) && FlagsLive(s, ttl) && Enabled(s, e) && ttl >= 0.0
    requires !Clobbers(s, e, ttl)
    ensures StaysOneFlag(Next(s, e, ttl), ttl) <==> !Orphans(s, e, ttl)
  {
    hide WellFormed, Safe, Clobbers, Orphans, Enabled, Next;
    var t := Next(s, e, ttl);
    FlagsStep(s, e, ttl);
    if Orphans(s, e, ttl) {
      var p :| Of(t, p).leader && !Live(t, p, ttl);
      OrphanIsNotOne(t, p, ttl);
    } else {
      SafeStep(s, e, ttl);
      WellFormedStep(s, e, ttl);
      BackedFlagsStayOne(t, ttl);
    }
  }

  lemma OrphanIsNotOne(s: State, p: Pid, ttl: real)
    requires Of(s, p).leader && !Live(s, p, ttl) && ttl >= 0.0
    ensures !StaysOneFlag(s, ttl)
  {
    hide Live;
    if OneFlag(s) {
      var q := AboveAll(s.procs.Keys);
      NewcomerRaisesFlag(s, p, q, ttl);
      LastHasOneFlag(s, Takeover(s, q, ttl), ttl);
    } else {
      assert Valid(s, [], ttl) && !AlwaysOneFlag(s, [], ttl);
    }
  }

  ghost predicate AlwaysStaysOneFlag(s: State, run: seq<Step>, ttl: real)
    requires Valid(s, run, ttl)
    decreases |run|
  {
    StaysOneFlag(s, ttl) && (run == [] || AlwaysStaysOneFlag(Next(s, run[0], ttl), run[1..], ttl))
  }

  /**
    In every interleaving whose releases clobber nothing: at every moment, however the processes go on,
    at most one takes itself for the leader iff no step orphans a flag.
   */
  lemma {:induction false} OneFlagIffNeverOrphans(s: State, run: seq<Step>, ttl: real)
    requires WellFormed(s) && Safe(s, ttl) && FlagsLive(s, ttl) && Valid(s, run, ttl) && ttl >= 0.0
    requires NeverClobbers(s, run, ttl)
    ensures AlwaysStaysOneFlag(s, run, ttl) <==> NeverOrphans(s, run, ttl)
    decreases |run|
  {
    hide WellFormed, Safe, FlagsLive, Clobbers, Orphans, Next, Enabled, StaysOneFlag;
    BackedFlagsStayOne(s, ttl);
    if run != [] {
      StaysOneFlagIff(s, run[0], ttl);
      var t := Next(s, run[0], ttl);
      if !Orphans(s, run[0], ttl) {
        SafeStep(s, run[0], ttl);
        WellFormedStep(s, run[0], ttl);
        FlagsStep(s, run[0], ttl);
        OneFlagIffNeverOrphans(t, run[1..], ttl);
      } else {
        assert !AlwaysStaysOneFlag(t, run[1..], ttl);
      }
    }
  }

  // ---------------------------------------------------------------- what does not hold

  /**
    A release whose DELETE comes too late: another process has taken the stale lease over, its row is
    deleted, and a third one is granted beside it.
   */
  lemma LateDeleteMakesTwo(ttl: real) returns (s: State, run: seq<Step>)
    requires ttl > 0.0
    ensures Initial(s) && Valid(s, run, ttl)
    ensures Live(After(s, run, ttl), 1, ttl) && Live(After(s, run, ttl), 2, ttl)
  {
    s := State(0.0, Absent, map[]);
    var s1 := Next(s, ReadClock(0), ttl);
    var s2 := Next(s1, Txn(0, true), ttl);
    var s3 := Next(s2, Select(0), ttl);
    var s4 := Next(s3, Tick(ttl + 1.0), ttl);
    var s5 := Next(s4, ReadClock(1), ttl);
    var s6 := Next(s5, Txn(1, true), ttl);
    var s7 := Next(s6, Delete(0), ttl);
    var s8 := Next(s7, ReadClock(2), ttl);
    run := [];
    Prepend(s8, Txn(2, true), run, ttl); run := [Txn(2, true)] + run;
    Prepend(s7, ReadClock(2), run, ttl); run := [ReadClock(2)] + run;
    Prepend(s6, Delete(0), run, ttl); run := [Delete(0)] + run;
    Prepend(s5, Txn(1, true), run, ttl); run := [Txn(1, true)] + run;
    Prepend(s4, ReadClock(1), run, ttl); run := [ReadClock(1)] + run;
    Prepend(s3, Tick(ttl + 1.0), run, ttl); run := [Tick(ttl + 1.0)] + run;
    Prepend(s2, Select(0), run, ttl); run := [Select(0)] + run;
    Prepend(s1, Txn(0, true), run, ttl); run := [Txn(0, true)] + run;
    Prepend(s, ReadClock(0), run, ttl); run := [ReadClock(0)] + run;
  }

  /** A leader that stalls past its ttl keeps its flag beside the next one. */
  lemma StalledLeaderKeepsFlag(ttl: real) returns (s: State, run: seq<Step>)
    requires ttl > 0.0
    ensures Initial(s) && Valid(s, run, ttl) && AlwaysSafe(s, run, ttl)
    ensures Of(After(s, run, ttl), 0).leader && Of(After(s, run, ttl), 1).leader
    ensures !Live(After(s, run, ttl), 0, ttl)
  {
    s := State(0.0, Absent, map[]);
    var s1 := Next(s, ReadClock(0), ttl);
    var s2 := Next(s1, Txn(0, true), ttl);
    var s3 := Next(s2, Settle(0), ttl);
    var s4 := Next(s3, Tick(ttl + 1.0), ttl);
    var s5 := Next(s4, ReadClock(1), ttl);
    var s6 := Next(s5, Txn(1, true), ttl);
    run := [];
    Prepend(s6, Settle(1), run, ttl); run := [Settle(1)] + run;
    Prepend(s5, Txn(1, true), run, ttl); run := [Txn(1, true)] + run;
    Prepend(s4, ReadClock(1), run, ttl); run := [ReadClock(1)] + run;
    Prepend(s3, Tick(ttl + 1.0), run, ttl); run := [Tick(ttl + 1.0)] + run;
    Prepend(s2, Settle(0), run, ttl); run := [Settle(0)] + run;
    Prepend(s1, Txn(0, true), run, ttl); run := [Txn(0, true)] + run;
    Prepend(s, ReadClock(0), run, ttl); run := [ReadClock(0)] + run;
    InitialIsSafe(s, ttl);
    TimelyReleasesSuffice(s, run, ttl);
  }

  /**
    A loop that is still waiting for its acquire while `stop` releases raises its flag afterwards: two
    flags without any time passing.
   */
  lemma ReleasedLeaderRaisesFlag(ttl: real) returns (s: State, run: seq<Step>)
    requires ttl > 0.0
    ensures Initial(s) && Valid(s, run, ttl) && AllTimely(s, run, ttl) && AlwaysSafe(s, run, ttl)
    ensures After(s, run, ttl).clock == s.clock
    ensures Of(After(s, run, ttl), 0).leader && Of(After(s, run, ttl), 1).leader
  {
    s := State(0.0, Absent, map[]);
    var s1 := Next(s, ReadClock(0), ttl);
    var s2 := Next(s1, Txn(0, true), ttl);
    var s3 := Next(s2, Select(0), ttl);
    var s4 := Next(s3, Delete(0), ttl);
    var s5 := Next(s4, Settle(0), ttl);
    var s6 := Next(s5, ReadClock(1), ttl);
    var s7 := Next(s6, Txn(1, true), ttl);
    run := [];
    Prepend(s7, Settle(1), run, ttl); run := [Settle(1)] + run;
    Prepend(s6, Txn(1, true), run, ttl); run := [Txn(1, true)] + run;
    Prepend(s5, ReadClock(1), run, ttl); run := [ReadClock(1)] + run;
    Prepend(s4, Settle(0), run, ttl); run := [Settle(0)] + run;
    Prepend(s3, Delete(0), run, ttl); run := [Delete(0)] + run;
    Prepend(s2, Select(0), run, ttl); run := [Select(0)] + run;
    Prepend(s1, Txn(0, true), run, ttl); run := [Txn(0, true)] + run;
    Prepend(s, ReadClock(0), run, ttl); run := [ReadClock(0)] + run;
    InitialIsSafe(s, ttl);
    TimelyReleasesSuffice(s, run, ttl);
  }
}
