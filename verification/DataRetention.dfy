/**
  Archive-then-delete retention of a capture table (backend/scripts/data_retention.py).

  A table is a finite map from row id to row.  A row carries the session day the cutoff
  compares and the remaining columns as one opaque cell.  The archive is a map from file
  name (day, first id, last id) to the exported rows.  Everything the job cannot decide
  itself -- quota, upload verification, an rclone exception -- is an Answer of the
  environment, one per exported day.
 */
module DataRetention {
  import opened Wrappers

  datatype Row = Row(day: int, cells: string)
  type Table = map<nat, Row>
  datatype FileName = FileName(day: int, lo: int, hi: int)
  type Remote = map<FileName, Table>

  ghost predicate NoneOlderAfter(t: Table, a: nat)
    requires a in t
  {
    forall b | b in t && a <= b :: t[a].day <= t[b].day
  }

  /** Rows are inserted in time order: days never decrease along the id. */
  ghost predicate TimeOrdered(t: Table) {
    forall a {:trigger NoneOlderAfter(t, a)} | a in t :: NoneOlderAfter(t, a)
  }

  /** The ids below `x` are exactly the rows of the days before `day`. */
  ghost predicate SplitAt(t: Table, x: int, day: int) {
    forall id | id in t :: id < x <==> t[id].day < day
  }

  // ---------------------------------------------------------------- the queries

  lemma LeastExists(s: set<nat>, y: nat)
    requires y in s
    ensures exists m :: m in s && forall x | x in s :: m <= x
    decreases y
  {
    if x :| x in s && x < y {
      LeastExists(s, x);
    }
  }

  lemma GreatestExists(s: set<nat>, y: nat)
    requires y in s
    ensures exists m :: m in s && forall x | x in s :: x <= m
    decreases s
  {
    if x :| x in s && y < x {
      GreatestExists(s - {y}, x);
      var m :| m in s - {y} && forall x | x in s - {y} :: x <= m;
      assert forall x | x in s :: x == y || x in s - {y};
    }
  }

  lemma TableBounds(t: Table)
    requires t != map[]
    ensures exists m :: m in t.Keys && forall x | x in t.Keys :: m <= x
    ensures exists m :: m in t.Keys && forall x | x in t.Keys :: x <= m
  {
    var y :| y in t;
    LeastExists(t.Keys, y);
    GreatestExists(t.Keys, y);
  }

  /** SELECT MIN(id) */
  function MinId(t: Table): (m: nat)
    requires t != map[]
    ensures m in t && forall id | id in t :: m <= id
  {
    TableBounds(t);
    var m :| m in t.Keys && forall id | id in t.Keys :: m <= id;
    m
  }

  /** SELECT MAX(id) */
  function MaxId(t: Table): (m: nat)
    requires t != map[]
    ensures m in t && forall id | id in t :: id <= m
  {
    TableBounds(t);
    var m :| m in t.Keys && forall id | id in t.Keys :: id <= m;
    m
  }

  ghost predicate IsFirstFrom(t: Table, x: int, r: Option<nat>) {
    match r
    case None => forall id | id in t :: id < x
    case Some(f) => f in t && x <= f && forall id | id in t && x <= id :: f <= id
  }

  lemma FirstFromExists(t: Table, x: int)
    ensures exists r :: IsFirstFrom(t, x, r)
  {
    var later := set id | id in t && x <= id;
    if y :| y in later {
      LeastExists(later, y);
      var f :| f in later && forall id | id in later :: f <= id;
      assert IsFirstFrom(t, x, Some(f)) by {
        forall id | id in t && x <= id ensures f <= id { assert id in later; }
      }
    } else {
      assert IsFirstFrom(t, x, None) by {
        forall id | id in t ensures id < x { assert id !in later; }
      }
    }
  }

  /** SELECT .. WHERE id >= x ORDER BY id LIMIT 1 */
  ghost function FirstFrom(t: Table, x: int): (r: Option<nat>)
    ensures IsFirstFrom(t, x, r)
  {
    FirstFromExists(t, x);
    var r :| IsFirstFrom(t, x, r);
    r
  }

  /** SELECT * .. WHERE id BETWEEN lo AND hi: the body of one exported file. */
  function Between(t: Table, lo: int, hi: int): Table {
    map id | id in t && lo <= id <= hi :: t[id]
  }

  function After(t: Table, cid: int): Table {
    map id | id in t && cid < id :: t[id]
  }

  // ---------------------------------------------------------------- the cutoff

  /** What the cutoff is for: the largest row older than the limit, everything after it is kept. */
  ghost predicate IsCutoff(t: Table, limit: int, r: Option<nat>) {
    match r
    case None => forall id | id in t :: limit <= t[id].day
    case Some(c) => c in t && t[c].day < limit && forall id | id in t && c < id :: limit <= t[id].day
  }

  lemma CutoffExists(t: Table, limit: int)
    ensures exists r :: IsCutoff(t, limit, r)
  {
    var older := set id | id in t && t[id].day < limit;
    if y :| y in older {
      GreatestExists(older, y);
      var c :| c in older && forall id | id in older :: id <= c;
      assert IsCutoff(t, limit, Some(c)) by {
        forall id | id in t && c < id ensures limit <= t[id].day { assert id !in older; }
      }
    } else {
      assert IsCutoff(t, limit, None) by {
        forall id | id in t ensures limit <= t[id].day { assert id !in older; }
      }
    }
  }

  ghost function Cutoff(t: Table, limit: int): (r: Option<nat>)
    ensures IsCutoff(t, limit, r)
  {
    CutoffExists(t, limit);
    var r :| IsCutoff(t, limit, r);
    r
  }

  /** There is exactly one cutoff, and it splits the table into the older and the kept rows. */
  lemma CutoffSplits(t: Table, limit: int, r: Option<nat>)
    requires TimeOrdered(t)
    ensures IsCutoff(t, limit, r) <==> r == Cutoff(t, limit)
    ensures r == Cutoff(t, limit) && r.Some? ==> SplitAt(t, r.value + 1, limit)
  {
    assert forall id | id in t :: NoneOlderAfter(t, id);
  }

  // ---------------------------------------------------------------- one archive pass

  /** The environment's reply to exporting one day.  `left` is what a failed copy leaves under that name. */
  datatype Answer =
    | OverQuota
    | Uploaded
    | Refused(left: Option<Table>)
    | Raised(left: Option<Table>)

  datatype Stop = Finished | Quota | UploadFailed | Error

  datatype File = File(name: FileName, body: Table)

  /** What a pass did: verified files in order, last id covered, why it stopped, debris of a failed copy. */
  datatype Pass = Pass(files: seq<File>, lastOk: int, stop: Stop, junk: Remote, days: nat)

  /** `cutoff_id(..) or cid`: a cutoff of 0 is falsy in the source and reads as absent. */
  function OrCid(r: Option<nat>, cid: nat): int {
    if r.None? || r.value == 0 then cid else r.value
  }

  /** The end of the day that starts at `start`. */
  ghost function DayEnd(t: Table, start: int, cid: nat): (end: int)
    requires FirstFrom(t, start).Some?
    ensures end <= cid
  {
    var day := t[FirstFrom(t, start).value].day;
    var end := OrCid(Cutoff(t, day + 1), cid);
    if end < cid then end else cid
  }

  /** The export of the day that starts at `start`. */
  ghost function DayFile(t: Table, start: int, cid: nat): File
    requires FirstFrom(t, start).Some?
  {
    var end := DayEnd(t, start, cid);
    File(FileName(t[FirstFrom(t, start).value].day, start, end), Between(t, start, end))
  }

  /** How a pass ends at a day that was not uploaded. */
  function Halt(answer: Answer, name: FileName, k: nat): (p: Pass)
    requires !answer.Uploaded?
    ensures p.files == [] && p.lastOk == name.lo - 1 && p.days == k + 1 && !p.stop.Finished?
  {
    match answer
    case OverQuota => Pass([], name.lo - 1, Quota, map[], k + 1)
    case Refused(left) =>
      Pass([], name.lo - 1, UploadFailed, if left.Some? then map[name := left.value] else map[], k + 1)
    case Raised(left) => Pass([], name.lo - 1, Error, if left.Some? then map[name := left.value] else map[], k + 1)
  }

  /** The pass over [start, cid], day by day. In a dry run every day counts as done. */
  ghost function Tile(t: Table, start: int, cid: nat, dry: bool, answers: nat -> Answer, k: nat): (p: Pass)
    requires cid in t
    ensures start <= cid + 1 ==> p.lastOk <= cid
    decreases cid - start
  {
    if start > cid then Pass([], start - 1, Finished, map[], k)
    else
      var f := DayFile(t, start, cid);
      if f.name.hi < start then Pass([], start - 1, Finished, map[], k)
      else if dry || answers(k).Uploaded? then
        var rest := Tile(t, f.name.hi + 1, cid, dry, answers, k + 1);
        rest.(files := [f] + rest.files)
      else Halt(answers(k), f.name, k)
  }

  function Publish(files: seq<File>): Remote {
    if files == [] then map[] else map[files[0].name := files[0].body] + Publish(files[1..])
  }

  /** One file holds one day, and all the rows of it that the table still has. */
  ghost predicate WholeDay(t: Table, f: File) {
    && f.body != map[]
    && f.body == Between(t, f.name.lo, f.name.hi)
    && forall id | id in t :: id in f.body <==> t[id].day == f.name.day
  }

  /**
    The files cover [lo, hi] one after the other, without gap or overlap, each a later day than
    the one before and none before `day`; at both ends the table splits between two days.
   */
  ghost predicate Tiles(t: Table, files: seq<File>, lo: int, day: int, hi: int) {
    && SplitAt(t, lo, day)
    && if files == [] then hi == lo - 1
       else
         var f := files[0];
         && f.name.lo == lo <= f.name.hi
         && day <= f.name.day
         && WholeDay(t, f)
         && Tiles(t, files[1..], f.name.hi + 1, f.name.day + 1, hi)
  }

  /**
    The next day of the pass ends at row 0, whose id the source takes for no cutoff, and the pass
    goes on beyond it.
   */
  ghost predicate EndsAtZero(t: Table, start: int, cid: nat)
    requires FirstFrom(t, start).Some?
  {
    Cutoff(t, t[FirstFrom(t, start).value].day + 1) == Some(0) && cid > 0
  }

  /** One step of the pass finds a row, and takes a whole day exactly when that day does not end at row 0. */
  lemma WholeDayIff(t: Table, start: int, day: int, cid: nat, limit: int)
    requires TimeOrdered(t)
    requires cid in t && start <= cid && SplitAt(t, start, day) && SplitAt(t, cid + 1, limit)
    ensures FirstFrom(t, start).Some?
    ensures WholeDay(t, DayFile(t, start, cid)) <==> !EndsAtZero(t, start, cid)
    ensures !EndsAtZero(t, start, cid) ==>
      var f := DayFile(t, start, cid);
      && f.name.lo == start <= f.name.hi <= cid
      && day <= f.name.day
      && SplitAt(t, f.name.hi + 1, f.name.day + 1)
  {
    var f := FirstFrom(t, start).value;
    CutoffSplits(t, t[f].day + 1, Cutoff(t, t[f].day + 1));
    var c := Cutoff(t, t[f].day + 1).value;
    assert f <= c;
    assert NoneOlderAfter(t, f);
    if EndsAtZero(t, start, cid) {
      assert cid in Between(t, start, cid);
    } else {
      assert DayEnd(t, start, cid) == c;
      assert f in Between(t, start, c);
    }
  }

  /** One step of the pass, ids starting at 1: the range found is a whole day, and `end < start` cannot happen. */
  lemma DayFileIsDay(t: Table, start: int, day: int, cid: nat, limit: int)
    requires TimeOrdered(t) && 0 !in t
    requires cid in t && start <= cid && SplitAt(t, start, day) && SplitAt(t, cid + 1, limit)
    ensures FirstFrom(t, start).Some?
    ensures var f := DayFile(t, start, cid);
      && f.name.lo == start <= f.name.hi <= cid
      && day <= f.name.day
      && WholeDay(t, f)
      && SplitAt(t, f.name.hi + 1, f.name.day + 1)
  {
    hide TimeOrdered, SplitAt, WholeDay, DayFile;
    WholeDayIff(t, start, day, cid, limit);
  }

  ghost predicate PassCovers(t: Table, start: int, day: int, cid: nat, p: Pass) {
    && Tiles(t, p.files, start, day, p.lastOk)
    && start - 1 <= p.lastOk <= cid
    && (p.stop.Finished? <==> p.lastOk == cid)
    && (forall n | n in p.junk :: n.lo == p.lastOk + 1)
    && (p.junk != map[] ==> p.stop.UploadFailed? || p.stop.Error?)
  }

  lemma CoverOneMore(t: Table, start: int, day: int, cid: nat, f: File, rest: Pass)
    requires SplitAt(t, start, day) && day <= f.name.day
    requires f.name.lo == start <= f.name.hi && WholeDay(t, f)
    requires PassCovers(t, f.name.hi + 1, f.name.day + 1, cid, rest)
    ensures PassCovers(t, start, day, cid, rest.(files := [f] + rest.files))
  {
  }

  lemma HaltCovers(t: Table, day: int, cid: nat, answer: Answer, name: FileName, k: nat)
    requires SplitAt(t, name.lo, day) && name.lo <= cid && !answer.Uploaded?
    ensures PassCovers(t, name.lo, day, cid, Halt(answer, name, k))
  {
  }

  lemma FinishCovers(t: Table, start: int, day: int, cid: nat, k: nat)
    requires SplitAt(t, start, day) && start == cid + 1
    ensures PassCovers(t, start, day, cid, Pass([], start - 1, Finished, map[], k))
  {
  }

  /** The verified files of a pass tile [start, lastOk]. */
  lemma {:induction false} PassTiles(t: Table, start: int, day: int, cid: nat, limit: int, dry: bool,
          answers: nat -> Answer, k: nat)
    requires TimeOrdered(t) && 0 !in t
    requires cid in t && start <= cid + 1 && SplitAt(t, start, day) && SplitAt(t, cid + 1, limit)
    ensures PassCovers(t, start, day, cid, Tile(t, start, cid, dry, answers, k))
    ensures dry ==> Tile(t, start, cid, dry, answers, k).stop.Finished?
    decreases cid - start
  {
    hide TimeOrdered, SplitAt, WholeDay, DayFile, PassCovers;
    if start > cid {
      FinishCovers(t, start, day, cid, k);
    } else {
      DayFileIsDay(t, start, day, cid, limit);
      var f := DayFile(t, start, cid);
      if dry || answers(k).Uploaded? {
        var rest := Tile(t, f.name.hi + 1, cid, dry, answers, k + 1);
        PassTiles(t, f.name.hi + 1, f.name.day + 1, cid, limit, dry, answers, k + 1);
        CoverOneMore(t, start, day, cid, f, rest);
      } else {
        HaltCovers(t, day, cid, answers(k), f.name, k);
      }
    }
  }

  // ---------------------------------------------------------------- what the archive holds

  /** Some verified file of the right day holds exactly this row. */
  ghost predicate Holds(remote: Remote, name: FileName, id: nat, row: Row) {
    && name in remote
    && name.lo <= id <= name.hi
    && name.day == row.day
    && id in remote[name]
    && remote[name][id] == row
  }

  lemma FirstHolds(t: Table, files: seq<File>, id: nat)
    requires files != [] && id in t && WholeDay(t, files[0]) && files[0].name.lo <= id <= files[0].name.hi
    requires forall n | n in Publish(files[1..]) :: files[0].name.hi < n.lo
    ensures Holds(Publish(files), files[0].name, id, t[id])
  {
  }

  lemma LaterHolds(files: seq<File>, n: FileName, id: nat, row: Row)
    requires files != [] && Holds(Publish(files[1..]), n, id, row)
    ensures Holds(Publish(files), n, id, row)
  {
  }

  /** Every row in the tiled range is in one of the published files, and they have no other range. */
  lemma {:induction false} TilesHold(t: Table, files: seq<File>, lo: int, day: int, hi: int)
    requires Tiles(t, files, lo, day, hi)
    ensures forall n | n in Publish(files) :: lo <= n.lo && n.hi <= hi
    ensures forall id | id in t && lo <= id <= hi :: exists n :: Holds(Publish(files), n, id, t[id])
  {
    if files != [] {
      hide WholeDay, Holds;
      var f := files[0];
      TilesHold(t, files[1..], f.name.hi + 1, f.name.day + 1, hi);
      forall id | id in t && lo <= id <= hi ensures exists n :: Holds(Publish(files), n, id, t[id]) {
        if id <= f.name.hi {
          FirstHolds(t, files, id);
        } else {
          var n :| Holds(Publish(files[1..]), n, id, t[id]);
          LaterHolds(files, n, id, t[id]);
        }
      }
    }
  }

  // ---------------------------------------------------------------- one night

  /** One row of the retention policy; `archived` tells whether the table is in the archive set. */
  datatype Policy = Policy(keep: nat, protect: bool, archived: bool)

  datatype Input = Input(
    apply: bool, force: bool, marketOpen: bool, now: int, contest: Option<int>,
    archiver: bool, spaceLeft: bool, answers: nat -> Answer)

  datatype Verdict = Closed | NothingOld | NotArchived | DiskPanic | Archived(stop: Stop)

  /** `upto`: ids to delete; `safe`: ids that this night has verified in the archive. */
  datatype Report = Report(verdict: Verdict, upto: Option<int>, safe: int)

  datatype Store = Store(rows: Table, remote: Remote)

  function Limit(p: Policy, input: Input): (limit: int)
    ensures limit <= input.now - p.keep
    ensures p.protect && input.contest.Some? ==> limit <= input.contest.value
  {
    var limit := input.now - p.keep;
    if p.protect && input.contest.Some? && input.contest.value < limit then input.contest.value else limit
  }

  ghost function Plan(p: Policy, rows: Table, input: Input): (Report, Remote) {
    if input.apply && !input.force && input.marketOpen then (Report(Closed, None, -1), map[])
    else
      var c := Cutoff(rows, Limit(p, input));
      if c.None? then (Report(NothingOld, None, -1), map[])
      else if !p.archived || !input.archiver then (Report(NotArchived, Some(c.value), -1), map[])
      else if !input.spaceLeft then (Report(DiskPanic, Some(c.value), -1), map[])
      else
        var pass := Tile(rows, MinId(rows), c.value, !input.apply, input.answers, 0);
        var upto :=
          match pass.stop
          case Error => None
          case Quota => Some(c.value)
          case _ => Some(pass.lastOk);
        (Report(Archived(pass.stop), upto, pass.lastOk), Publish(pass.files) + pass.junk)
  }

  ghost function Night(p: Policy, s: Store, input: Input): Store {
    var (report, uploads) := Plan(p, s.rows, input);
    if !input.apply then s
    else Store(if report.upto.Some? then After(s.rows, report.upto.value) else s.rows, s.remote + uploads)
  }

  /** The facts about the pass that a night runs, in terms of the table. */
  lemma NightPass(p: Policy, rows: Table, input: Input)
    requires TimeOrdered(rows) && 0 !in rows
    requires Plan(p, rows, input).0.verdict.Archived?
    ensures rows != map[]
    ensures var c := Cutoff(rows, Limit(p, input));
      && c.Some?
      && SplitAt(rows, c.value + 1, Limit(p, input))
      && PassCovers(rows, MinId(rows), rows[MinId(rows)].day, c.value,
                    Tile(rows, MinId(rows), c.value, !input.apply, input.answers, 0))
  {
    var limit := Limit(p, input);
    var c := Cutoff(rows, limit);
    CutoffSplits(rows, limit, c);
    assert NoneOlderAfter(rows, MinId(rows));
    assert SplitAt(rows, MinId(rows), rows[MinId(rows)].day);
    PassTiles(rows, MinId(rows), rows[MinId(rows)].day, c.value, limit, !input.apply, input.answers, 0);
  }

  // ---------------------------------------------------------------- what a night amounts to

  /** Old enough for the policy, and before the contest if the table is protected and its start is known. */
  ghost predicate Due(p: Policy, input: Input, day: int) {
    day < input.now - p.keep && (p.protect && input.contest.Some? ==> day < input.contest.value)
  }

  ghost predicate HasRow(t: Table, day: int) {
    exists id :: id in t && t[id].day == day
  }

  ghost predicate Among(ds: seq<int>, day: int) {
    exists i :: 0 <= i < |ds| && ds[i] == day
  }

  ghost predicate SomeDue(p: Policy, t: Table, input: Input) {
    exists day :: Due(p, input, day) && HasRow(t, day)
  }

  ghost predicate Ascending(ds: seq<int>) {
    forall i, j | 0 <= i < j < |ds| :: ds[i] < ds[j]
  }

  /** The days to archive, in order. */
  ghost predicate DueDays(p: Policy, t: Table, input: Input, ds: seq<int>) {
    Ascending(ds) && forall day :: Among(ds, day) <==> Due(p, input, day) && HasRow(t, day)
  }

  ghost predicate StoppedBy(answer: Answer, stop: Stop) {
    match answer
    case Uploaded => false
    case OverQuota => stop == Quota
    case Refused(_) => stop == UploadFailed
    case Raised(_) => stop == Error
  }

  /** The first j days were uploaded, and the answer to the next one, if any, stopped the pass. */
  ghost predicate PassWent(input: Input, ds: seq<int>, j: nat, stop: Stop) {
    && j <= |ds|
    && (input.apply ==> forall i | 0 <= i < j :: input.answers(i).Uploaded?)
    && if j == |ds| then stop == Finished else input.apply && StoppedBy(input.answers(j), stop)
  }

  /** All rows of one day. */
  function OfDay(t: Table, day: int): Table {
    map id | id in t && t[id].day == day :: t[id]
  }

  ghost predicate DayUploaded(t: Table, remote: Remote, day: int) {
    exists n :: n in remote && n.day == day && remote[n] == OfDay(t, day)
  }

  /** The file holds the whole of one of the days from k up to j. */
  ghost predicate HoldsDay(t: Table, remote: Remote, ds: seq<int>, k: nat, j: nat, n: FileName)
    requires j <= |ds| && n in remote
  {
    exists i :: k <= i < j && n.day == ds[i] && remote[n] == OfDay(t, ds[i])
  }

  /** The first j days are in the archive, whole; nothing else is new but debris of the day that failed. */
  ghost predicate ArchivedDays(t: Table, before: Remote, after: Remote, ds: seq<int>, j: nat)
    requires j <= |ds|
  {
    && (forall i | 0 <= i < j :: DayUploaded(t, after, ds[i]))
    && forall n | n in after ::
         || (n in before && after[n] == before[n])
         || HoldsDay(t, after, ds, 0, j, n)
         || (j < |ds| && n.day == ds[j])
  }

  /** Exactly the rows of the days before `day` are gone. */
  ghost predicate GoneBefore(t: Table, left: Table, day: int) {
    && (forall id | id in t :: id in left <==> day <= t[id].day)
    && (forall id | id in left :: id in t && left[id] == t[id])
  }

  /** Exactly the due rows are gone. */
  ghost predicate DueGone(p: Policy, input: Input, t: Table, left: Table) {
    && (forall id | id in t :: id in left <==> !Due(p, input, t[id].day))
    && (forall id | id in left :: id in t && left[id] == t[id])
  }

  predicate Shut(input: Input) {
    input.apply && !input.force && input.marketOpen
  }

  ghost predicate Rightly(p: Policy, t: Table, input: Input, v: Verdict) {
    && (v == Closed <==> Shut(input))
    && (v == NothingOld <==> !Shut(input) && !SomeDue(p, t, input))
    && (v == NotArchived <==> !Shut(input) && SomeDue(p, t, input) && !(p.archived && input.archiver))
    && (v == DiskPanic <==>
          !Shut(input) && SomeDue(p, t, input) && p.archived && input.archiver && !input.spaceLeft)
    && (v.Archived? <==>
          !Shut(input) && SomeDue(p, t, input) && p.archived && input.archiver && input.spaceLeft)
  }

  /** What the job leaves, by how the archive pass went. */
  ghost predicate LeftByPass(p: Policy, input: Input, before: Store, after: Store, stop: Stop, ds: seq<int>, j: nat) {
    && DueDays(p, before.rows, input, ds) && PassWent(input, ds, j, stop)
    && if !input.apply then after == before
       else
         && ArchivedDays(before.rows, before.remote, after.remote, ds, j)
         && match stop
            case Finished => DueGone(p, input, before.rows, after.rows)
            case Quota => DueGone(p, input, before.rows, after.rows)
            case UploadFailed => j < |ds| && GoneBefore(before.rows, after.rows, ds[j])
            case Error => after.rows == before.rows
  }

  ghost predicate LeftBy(p: Policy, input: Input, before: Store, after: Store, v: Verdict) {
    match v
    case Closed => after == before
    case NothingOld => after == before
    case NotArchived => after.remote == before.remote &&
      if input.apply then DueGone(p, input, before.rows, after.rows) else after == before
    case DiskPanic => after.remote == before.remote &&
      if input.apply then DueGone(p, input, before.rows, after.rows) else after == before
    case Archived(stop) => exists ds, j :: LeftByPass(p, input, before, after, stop, ds, j)
  }

  lemma DueIffBeforeLimit(p: Policy, input: Input, day: int)
    ensures Due(p, input, day) <==> day < Limit(p, input)
  {
  }

  /** Every verdict means what it says. */
  lemma VerdictIff(p: Policy, rows: Table, input: Input)
    ensures Rightly(p, rows, input, Plan(p, rows, input).0.verdict)
  {
    var c := Cutoff(rows, Limit(p, input));
    hide Tile, Publish, Due;
    forall day
      ensures Due(p, input, day) <==> day < Limit(p, input)
    {
      DueIffBeforeLimit(p, input, day);
    }
    if c.Some? {
      assert HasRow(rows, rows[c.value].day);
    }
  }

  lemma {:induction false} Sorted(s: set<int>) returns (ds: seq<int>)
    ensures Ascending(ds) && forall d :: Among(ds, d) <==> d in s
    decreases s
  {
    if y :| y in s {
      var top := HighestOf(s, y);
      var rest := Sorted(s - {top});
      ds := rest + [top];
      SortedGrows(s, rest, top);
    } else {
      ds := [];
    }
  }

  lemma {:induction false} HighestOf(s: set<int>, y: int) returns (m: int)
    requires y in s
    ensures m in s && forall x | x in s :: x <= m
    decreases s
  {
    if x :| x in s && y < x {
      m := HighestOf(s - {y}, x);
      assert forall z | z in s :: z == y || z in s - {y};
    } else {
      m := y;
    }
  }

  lemma SortedGrows(s: set<int>, rest: seq<int>, top: int)
    requires top in s && forall x | x in s :: x <= top
    requires Ascending(rest) && forall d :: Among(rest, d) <==> d in s - {top}
    ensures Ascending(rest + [top]) && forall d :: Among(rest + [top], d) <==> d in s
  {
    var ds := rest + [top];
    forall i | 0 <= i < |rest|
      ensures rest[i] < top
    {
      assert Among(rest, rest[i]);
    }
    forall d
      ensures Among(ds, d) <==> d in s
    {
      AmongGrows(rest, top, d);
    }
  }

  lemma AmongGrows(rest: seq<int>, top: int, d: int)
    ensures Among(rest + [top], d) <==> Among(rest, d) || d == top
  {
    var ds := rest + [top];
    assert ds[|rest|] == top;
    if i :| 0 <= i < |rest| && rest[i] == d {
      assert ds[i] == d;
    }
  }

  lemma DueDaysExist(p: Policy, t: Table, input: Input) returns (ds: seq<int>)
    ensures DueDays(p, t, input, ds)
  {
    var s := set id | id in t && Due(p, input, t[id].day) :: t[id].day;
    ds := Sorted(s);
    hide Due, Among;
    forall day
      ensures day in s <==> Due(p, input, day) && HasRow(t, day)
    {
    }
  }

  ghost function Bound(ds: seq<int>, k: nat, limit: int): int {
    if k < |ds| then ds[k] else limit
  }

  ghost predicate AllBefore(ds: seq<int>, t: Table, limit: int) {
    Ascending(ds) && forall day :: Among(ds, day) <==> day < limit && HasRow(t, day)
  }

  /** With ids from 1, the next day of a pass is the next due day, whole. */
  lemma NextDay(t: Table, ds: seq<int>, k: nat, start: int, cid: nat, limit: int)
    requires TimeOrdered(t) && 0 !in t && cid in t && start <= cid + 1
    requires AllBefore(ds, t, limit) && k <= |ds|
    requires SplitAt(t, start, Bound(ds, k, limit)) && SplitAt(t, cid + 1, limit)
    ensures k == |ds| <==> start == cid + 1
    ensures k < |ds| ==> start <= cid && FirstFrom(t, start).Some?
    ensures k < |ds| ==>
      var f := DayFile(t, start, cid);
      && f.name.lo == start <= f.name.hi <= cid && f.name.day == ds[k] && f.body == OfDay(t, ds[k])
      && SplitAt(t, f.name.hi + 1, Bound(ds, k + 1, limit))
  {
    if k < |ds| {
      assert Among(ds, ds[k]);
      var r :| r in t && t[r].day == ds[k];
      DayFileIsDay(t, start, ds[k], cid, limit);
      var f := DayFile(t, start, cid);
      var first := FirstFrom(t, start).value;
      assert NoneOlderAfter(t, first);
      assert f.name.day == ds[k];
      NextBound(t, ds, k, f.name.hi + 1, limit);
    }
  }

  lemma NextBound(t: Table, ds: seq<int>, k: nat, x: int, limit: int)
    requires AllBefore(ds, t, limit) && k < |ds| && SplitAt(t, x, ds[k] + 1)
    ensures SplitAt(t, x, Bound(ds, k + 1, limit))
  {
    assert Among(ds, ds[k]);
    forall id | id in t
      ensures t[id].day <= ds[k] <==> t[id].day < Bound(ds, k + 1, limit)
    {
      assert HasRow(t, t[id].day);
      if k + 1 < |ds| {
        assert Among(ds, ds[k + 1]);
      }
      if t[id].day < limit {
        var i :| 0 <= i < |ds| && ds[i] == t[id].day;
      }
    }
  }

  /** How far a pass from the k-th day on gets, day by day. */
  ghost predicate Reaches(t: Table, ds: seq<int>, k: nat, limit: int, dry: bool, answers: nat -> Answer, pass: Pass) {
    var j := k + |pass.files|;
    && j <= |ds|
    && (forall i | 0 <= i < |pass.files| ::
          pass.files[i].name.day == ds[k + i] && pass.files[i].body == OfDay(t, ds[k + i]))
    && (dry || forall i | k <= i < j :: answers(i).Uploaded?)
    && SplitAt(t, pass.lastOk + 1, Bound(ds, j, limit))
    && (if j == |ds| then pass.stop == Finished && pass.junk == map[]
        else !dry && StoppedBy(answers(j), pass.stop) && forall n | n in pass.junk :: n.day == ds[j])
  }

  lemma {:induction false} PassReaches(t: Table, ds: seq<int>, k: nat, start: int, cid: nat, limit: int, dry: bool,
          answers: nat -> Answer)
    requires TimeOrdered(t) && 0 !in t && cid in t && start <= cid + 1
    requires AllBefore(ds, t, limit) && k <= |ds|
    requires SplitAt(t, start, Bound(ds, k, limit)) && SplitAt(t, cid + 1, limit)
    ensures Reaches(t, ds, k, limit, dry, answers, Tile(t, start, cid, dry, answers, k))
    decreases cid - start
  {
    hide TimeOrdered, SplitAt, DayFile, AllBefore, OfDay;
    NextDay(t, ds, k, start, cid, limit);
    if k < |ds| {
      var f := DayFile(t, start, cid);
      if dry || answers(k).Uploaded? {
        PassReaches(t, ds, k + 1, f.name.hi + 1, cid, limit, dry, answers);
        ReachesMore(t, ds, k, limit, dry, answers, f, Tile(t, f.name.hi + 1, cid, dry, answers, k + 1));
      } else {
        HaltReaches(t, ds, k, limit, answers, f.name);
      }
    }
  }

  lemma ReachesMore(t: Table, ds: seq<int>, k: nat, limit: int, dry: bool, answers: nat -> Answer, f: File, rest: Pass)
    requires k < |ds| && (dry || answers(k).Uploaded?) && f.name.day == ds[k] && f.body == OfDay(t, ds[k])
    requires Reaches(t, ds, k + 1, limit, dry, answers, rest)
    ensures Reaches(t, ds, k, limit, dry, answers, rest.(files := [f] + rest.files))
  {
    hide SplitAt, OfDay;
    var files := [f] + rest.files;
    assert forall i | 1 <= i < |files| :: files[i] == rest.files[i - 1];
  }

  lemma HaltReaches(t: Table, ds: seq<int>, k: nat, limit: int, answers: nat -> Answer, name: FileName)
    requires k < |ds| && !answers(k).Uploaded? && name.day == ds[k] && SplitAt(t, name.lo, ds[k])
    ensures Reaches(t, ds, k, limit, false, answers, Halt(answers(k), name, k))
  {
    hide SplitAt;
  }

  /** The files published for the days from k on are those days, whole. */
  lemma {:induction false} PublishedDays(t: Table, files: seq<File>, ds: seq<int>, k: nat)
    requires k + |files| <= |ds| && Ascending(ds)
    requires forall i | 0 <= i < |files| :: files[i].name.day == ds[k + i] && files[i].body == OfDay(t, ds[k + i])
    ensures forall n | n in Publish(files) :: HoldsDay(t, Publish(files), ds, k, k + |files|, n)
    ensures forall i | k <= i < k + |files| :: DayUploaded(t, Publish(files), ds[i])
  {
    if files != [] {
      var rest := Publish(files[1..]);
      hide OfDay;
      PublishedDays(t, files[1..], ds, k + 1);
      assert files[0].name !in rest;
      forall n | n in Publish(files)
        ensures HoldsDay(t, Publish(files), ds, k, k + |files|, n)
      {
        if n in rest {
          var i :| k + 1 <= i < k + |files| && n.day == ds[i] && rest[n] == OfDay(t, ds[i]);
          assert Publish(files)[n] == rest[n];
        }
      }
      forall i | k <= i < k + |files|
        ensures DayUploaded(t, Publish(files), ds[i])
      {
        if i > k {
          var n :| n in rest && n.day == ds[i] && rest[n] == OfDay(t, ds[i]);
          assert n in Publish(files) && Publish(files)[n] == rest[n];
        } else {
          assert files[0].name in Publish(files);
        }
      }
    }
  }

  /** Every file of `up` is one of the first j days, each of those is there, and the debris is of the next. */
  ghost predicate NewFiles(t: Table, up: Remote, junk: Remote, ds: seq<int>, j: nat) {
    && j <= |ds| && Ascending(ds)
    && (forall i | 0 <= i < j :: DayUploaded(t, up, ds[i]))
    && (forall n | n in up :: HoldsDay(t, up, ds, 0, j, n))
    && (forall n | n in junk :: j < |ds| && n.day == ds[j])
  }

  lemma UploadIsKept(t: Table, before: Remote, up: Remote, junk: Remote, ds: seq<int>, j: nat, n: FileName)
    requires NewFiles(t, up, junk, ds, j) && n in up
    ensures var after := before + (up + junk); n in after && after[n] == up[n] && n !in junk
  {
    assert HoldsDay(t, up, ds, 0, j, n);
  }

  lemma ArchiveGrows(t: Table, before: Remote, up: Remote, junk: Remote, ds: seq<int>, j: nat)
    requires NewFiles(t, up, junk, ds, j)
    ensures ArchivedDays(t, before, before + (up + junk), ds, j)
  {
    var after := before + (up + junk);
    hide OfDay;
    forall i | 0 <= i < j
      ensures DayUploaded(t, after, ds[i])
    {
      assert DayUploaded(t, up, ds[i]);
      var n :| n in up && n.day == ds[i] && up[n] == OfDay(t, ds[i]);
      UploadIsKept(t, before, up, junk, ds, j, n);
    }
    forall n | n in up
      ensures n in after && HoldsDay(t, after, ds, 0, j, n)
    {
      UploadIsKept(t, before, up, junk, ds, j, n);
      assert HoldsDay(t, up, ds, 0, j, n);
    }
  }

  lemma GoneIfSplit(t: Table, upto: int, day: int)
    requires SplitAt(t, upto + 1, day)
    ensures GoneBefore(t, After(t, upto), day)
  {
  }

  lemma DueIsGone(p: Policy, input: Input, t: Table, left: Table)
    requires GoneBefore(t, left, Limit(p, input))
    ensures DueGone(p, input, t, left)
  {
    hide Due, Limit;
    forall id | id in t
      ensures id in left <==> !Due(p, input, t[id].day)
    {
      DueIffBeforeLimit(p, input, t[id].day);
    }
  }

  lemma DueAreBefore(p: Policy, t: Table, input: Input, ds: seq<int>)
    requires DueDays(p, t, input, ds)
    ensures AllBefore(ds, t, Limit(p, input))
  {
    hide Due, Limit, Among, HasRow;
    forall day
      ensures Due(p, input, day) <==> day < Limit(p, input)
    {
      DueIffBeforeLimit(p, input, day);
    }
  }

  /** An archiving night: the due days in order, up to the first that was not uploaded. */
  lemma ArchivingLeaves(p: Policy, s: Store, input: Input)
    requires TimeOrdered(s.rows) && 0 !in s.rows && Plan(p, s.rows, input).0.verdict.Archived?
    ensures var v := Plan(p, s.rows, input).0.verdict;
      exists ds, j :: LeftByPass(p, input, s, Night(p, s, input), v.stop, ds, j)
  {
    var limit := Limit(p, input);
    var c := Cutoff(s.rows, limit);
    var ds := DueDaysExist(p, s.rows, input);
    DueAreBefore(p, s.rows, input, ds);
    CutoffSplits(s.rows, limit, c);
    StartsAtFirst(s.rows, ds, limit);
    PassReaches(s.rows, ds, 0, MinId(s.rows), c.value, limit, !input.apply, input.answers);
    PassLeaves(p, s, input, ds);
  }

  lemma StartsAtFirst(t: Table, ds: seq<int>, limit: int)
    requires TimeOrdered(t) && t != map[] && AllBefore(ds, t, limit)
    ensures SplitAt(t, MinId(t), Bound(ds, 0, limit))
  {
    forall id | id in t
      ensures Bound(ds, 0, limit) <= t[id].day
    {
      assert HasRow(t, t[id].day);
      if ds != [] {
        assert Among(ds, ds[0]);
      }
      if t[id].day < limit {
        assert Among(ds, t[id].day);
        var i :| 0 <= i < |ds| && ds[i] == t[id].day;
      }
    }
  }

  lemma PassLeaves(p: Policy, s: Store, input: Input, ds: seq<int>)
    requires Plan(p, s.rows, input).0.verdict.Archived? && DueDays(p, s.rows, input, ds)
    requires s.rows != map[] && Cutoff(s.rows, Limit(p, input)).Some?
    requires SplitAt(s.rows, Cutoff(s.rows, Limit(p, input)).value + 1, Limit(p, input))
    requires Reaches(s.rows, ds, 0, Limit(p, input), !input.apply, input.answers,
                     Tile(s.rows, MinId(s.rows), Cutoff(s.rows, Limit(p, input)).value, !input.apply, input.answers, 0))
    ensures var v := Plan(p, s.rows, input).0.verdict;
      exists ds, j :: LeftByPass(p, input, s, Night(p, s, input), v.stop, ds, j)
  {
    hide Tile, DueDays, Limit, SplitAt, Publish, OfDay, Ascending;
    var limit, c := Limit(p, input), Cutoff(s.rows, Limit(p, input)).value;
    var pass := Tile(s.rows, MinId(s.rows), c, !input.apply, input.answers, 0);
    var night := Night(p, s, input);
    if input.apply {
      assert Ascending(ds) by { DueAreBefore(p, s.rows, input, ds); }
      PublishedDays(s.rows, pass.files, ds, 0);
      ArchiveGrows(s.rows, s.remote, Publish(pass.files), pass.junk, ds, |pass.files|);
      match pass.stop {
        case Finished =>
          GoneIfSplit(s.rows, pass.lastOk, limit);
          DueIsGone(p, input, s.rows, night.rows);
        case Quota =>
          GoneIfSplit(s.rows, c, limit);
          DueIsGone(p, input, s.rows, night.rows);
        case UploadFailed => GoneIfSplit(s.rows, pass.lastOk, ds[|pass.files|]);
        case Error =>
      }
    }
    assert LeftByPass(p, input, s, night, pass.stop, ds, |pass.files|);
  }

  /** Which verdict a night gives, and exactly what it deletes and uploads, without the plan. */
  lemma NightLeaves(p: Policy, s: Store, input: Input)
    requires TimeOrdered(s.rows)
    ensures var v := Plan(p, s.rows, input).0.verdict;
      && Rightly(p, s.rows, input, v)
      && (0 !in s.rows || !v.Archived? ==> LeftBy(p, input, s, Night(p, s, input), v))
  {
    var v := Plan(p, s.rows, input).0.verdict;
    var limit := Limit(p, input);
    VerdictIff(p, s.rows, input);
    CutoffSplits(s.rows, limit, Cutoff(s.rows, limit));
    NothingAdded(s.remote);
    hide Tile, Publish, Limit, TimeOrdered, Rightly, SplitAt;
    if v.Archived? {
      if 0 !in s.rows {
        ArchivingLeaves(p, s, input);
      }
    } else if input.apply && (v.NotArchived? || v.DiskPanic?) {
      GoneIfSplit(s.rows, Cutoff(s.rows, limit).value, limit);
      DueIsGone(p, input, s.rows, Night(p, s, input).rows);
    }
  }

  lemma ShutIsClosed(p: Policy, rows: Table, input: Input)
    ensures Shut(input) ==> Plan(p, rows, input).0 == Report(Closed, None, -1)
  {
  }

  ghost function LastDay(files: seq<File>, day: int): int {
    if files == [] then day else LastDay(files[1..], files[0].name.day + 1)
  }

  lemma {:induction false} TilesEnd(t: Table, files: seq<File>, lo: int, day: int, hi: int)
    requires Tiles(t, files, lo, day, hi)
    ensures SplitAt(t, hi + 1, LastDay(files, day))
  {
    if files != [] {
      TilesEnd(t, files[1..], files[0].name.hi + 1, files[0].name.day + 1, hi);
    }
  }

  /** `kept` is the part of `t` dated `day` or later. */
  ghost predicate KeepsFrom(t: Table, kept: Table, day: int) {
    && (forall id | id in t :: id in kept <==> day <= t[id].day)
    && (forall id | id in kept :: id in t && kept[id] == t[id])
  }

  lemma AfterKeeps(t: Table, upto: int, day: int)
    requires SplitAt(t, upto + 1, day)
    ensures KeepsFrom(t, After(t, upto), day)
  {
  }

  lemma EarliestDay(t: Table, bound: int)
    requires TimeOrdered(t)
    ensures exists day :: day <= bound && KeepsFrom(t, t, day)
  {
    if t == map[] {
      assert KeepsFrom(t, t, bound);
    } else {
      assert NoneOlderAfter(t, MinId(t));
      var first := t[MinId(t)].day;
      assert KeepsFrom(t, t, if first < bound then first else bound);
    }
  }

  /** Whatever the exit, a night deletes whole days, all of them older than its limit. */
  lemma NightDeletesWholeDays(p: Policy, s: Store, input: Input)
    requires TimeOrdered(s.rows) && 0 !in s.rows
    ensures exists day :: day <= Limit(p, input) && KeepsFrom(s.rows, Night(p, s, input).rows, day)
  {
    hide TimeOrdered, SplitAt, KeepsFrom, PassCovers, Tiles;
    var (report, _) := Plan(p, s.rows, input);
    var limit := Limit(p, input);
    if !input.apply || report.upto.None? {
      assert Night(p, s, input).rows == s.rows;
      EarliestDay(s.rows, limit);
    } else {
      assert Night(p, s, input).rows == After(s.rows, report.upto.value);
      var c := Cutoff(s.rows, limit);
      CutoffSplits(s.rows, limit, c);
      if report.verdict.Archived? && !report.verdict.stop.Quota? {
        NightPass(p, s.rows, input);
        var first := s.rows[MinId(s.rows)].day;
        var pass := Tile(s.rows, MinId(s.rows), c.value, !input.apply, input.answers, 0);
        PassEnd(s.rows, MinId(s.rows), first, c.value, limit, pass);
        AfterKeeps(s.rows, report.upto.value, LastDay(pass.files, first));
      } else {
        AfterKeeps(s.rows, report.upto.value, limit);
      }
    }
  }

  /** A pass ends between two days, the later of them within the limit. */
  lemma PassEnd(t: Table, start: nat, day: int, cid: nat, limit: int, pass: Pass)
    requires start in t && t[start].day == day < limit
    requires SplitAt(t, cid + 1, limit)
    requires PassCovers(t, start, day, cid, pass)
    ensures SplitAt(t, pass.lastOk + 1, LastDay(pass.files, day))
    ensures LastDay(pass.files, day) <= limit
  {
    TilesEnd(t, pass.files, start, day, pass.lastOk);
    LastDayBound(t, pass.files, start, day, pass.lastOk, cid, limit);
  }

  lemma {:induction false} LastDayBound(t: Table, files: seq<File>, lo: int, day: int, hi: int, cid: nat, limit: int)
    requires day <= limit && hi <= cid
    requires SplitAt(t, cid + 1, limit) && Tiles(t, files, lo, day, hi)
    ensures LastDay(files, day) <= limit
  {
    if files != [] {
      var f := files[0];
      TilesAdvance(t, files[1..], f.name.hi + 1, f.name.day + 1, hi);
      var id :| id in f.body;
      assert t[id].day == f.name.day;
      LastDayBound(t, files[1..], f.name.hi + 1, f.name.day + 1, hi, cid, limit);
    }
  }

  lemma {:induction false} TilesAdvance(t: Table, files: seq<File>, lo: int, day: int, hi: int)
    requires Tiles(t, files, lo, day, hi)
    ensures lo - 1 <= hi
  {
    if files != [] {
      TilesAdvance(t, files[1..], files[0].name.hi + 1, files[0].name.day + 1, hi);
    }
  }

  // ---------------------------------------------------------------- many nights

  /**
    `high` is the table's AUTOINCREMENT mark; `ever` remembers every row that was inserted and
    `shed` the ids that a night deleted without having them in the archive.
   */
  datatype World = World(rows: Table, remote: Remote, high: nat, ever: Table, shed: set<nat>)

  datatype Event = Insert(row: Row) | Sweep(input: Input)

  const FRESH := World(map[], map[], 0, map[], {})

  /** Capture inserts rows in time order. */
  ghost predicate InOrder(w: World, e: Event) {
    e.Insert? ==> forall id | id in w.rows :: w.rows[id].day <= e.row.day
  }

  ghost function Step(p: Policy, w: World, e: Event): World {
    match e
    case Insert(row) =>
      var id := w.high + 1;
      World(w.rows[id := row], w.remote, id, w.ever[id := row], w.shed)
    case Sweep(input) =>
      var after := Night(p, Store(w.rows, w.remote), input);
      var safe := Plan(p, w.rows, input).0.safe;
      World(after.rows, after.remote, w.high, w.ever,
            w.shed + set id | id in w.rows && id !in after.rows && safe < id)
  }

  /** A row that is gone from the table is in the archive, under a name no later upload can reuse. */
  ghost predicate Kept(w: World, id: nat)
    requires id in w.ever
  {
    || id in w.rows
    || id in w.shed
    || exists n :: Holds(w.remote, n, id, w.ever[id]) && n.hi <= w.high && Below(w.rows, n.hi)
  }

  ghost predicate Below(t: Table, x: int) {
    forall id | id in t :: x < id
  }

  ghost predicate Sound(w: World) {
    && TimeOrdered(w.rows)
    && 0 !in w.rows
    && (forall id | id in w.ever :: id <= w.high)
    && (forall id | id in w.rows :: id in w.ever && w.ever[id] == w.rows[id])
  }

  ghost predicate Conserved(w: World) {
    forall id | id in w.ever :: Kept(w, id)
  }

  lemma InsertStep(p: Policy, w: World, row: Row)
    requires Sound(w) && Conserved(w) && InOrder(w, Insert(row))
    ensures Sound(Step(p, w, Insert(row))) && Conserved(Step(p, w, Insert(row)))
  {
    var v := Step(p, w, Insert(row));
    forall a | a in v.rows ensures NoneOlderAfter(v.rows, a) {
      if a in w.rows { assert NoneOlderAfter(w.rows, a); }
    }
    forall id | id in v.ever ensures Kept(v, id) {
      if id in w.ever {
        assert Kept(w, id);
      }
    }
  }

  /** What a night uploads: new names only, and every row up to `safe` in a verified file. */
  lemma NightUploads(p: Policy, rows: Table, high: nat, input: Input)
    requires TimeOrdered(rows) && 0 !in rows && forall id | id in rows :: id <= high
    ensures var (report, uploads) := Plan(p, rows, input);
      && (forall n | n in uploads :: rows != map[] && MinId(rows) <= n.lo)
      && (forall id | id in rows && id <= report.safe ::
            exists n :: Holds(uploads, n, id, rows[id]) && n.hi <= report.safe)
      && report.safe <= high
      && (report.upto.Some? ==> report.safe <= report.upto.value)
  {
    hide TimeOrdered, SplitAt, Tiles;
    var (report, uploads) := Plan(p, rows, input);
    if report.verdict.Archived? {
      NightPass(p, rows, input);
      var first := MinId(rows);
      var c := Cutoff(rows, Limit(p, input)).value;
      var pass := Tile(rows, first, c, !input.apply, input.answers, 0);
      TilesHold(rows, pass.files, first, rows[first].day, pass.lastOk);
      forall id | id in rows && id <= report.safe
        ensures exists n :: Holds(uploads, n, id, rows[id]) && n.hi <= report.safe
      {
        var n :| Holds(Publish(pass.files), n, id, rows[id]);
        assert n !in pass.junk;
        assert Holds(uploads, n, id, rows[id]);
      }
    }
  }

  lemma SweepSound(p: Policy, w: World, input: Input)
    requires Sound(w)
    ensures Sound(Step(p, w, Sweep(input)))
  {
    var v := Step(p, w, Sweep(input));
    forall a | a in v.rows ensures NoneOlderAfter(v.rows, a) {
      assert NoneOlderAfter(w.rows, a);
    }
  }

  lemma SweepStep(p: Policy, w: World, input: Input)
    requires Sound(w) && Conserved(w)
    ensures Sound(Step(p, w, Sweep(input))) && Conserved(Step(p, w, Sweep(input)))
  {
    var v := Step(p, w, Sweep(input));
    var (report, uploads) := Plan(p, w.rows, input);
    NightUploads(p, w.rows, w.high, input);
    SweepSound(p, w, input);
    forall id | id in v.ever ensures Kept(v, id) {
      assert Kept(w, id);
      if id !in v.rows && id !in v.shed {
        if id in w.rows {
          var n :| Holds(uploads, n, id, w.rows[id]) && n.hi <= report.safe;
          assert Holds(v.remote, n, id, w.ever[id]);
          assert Below(v.rows, n.hi);
        } else {
          var n :| Holds(w.remote, n, id, w.ever[id]) && n.hi <= w.high && Below(w.rows, n.hi);
          assert n !in uploads;
          assert Holds(v.remote, n, id, w.ever[id]);
          assert Below(v.rows, n.hi);
        }
      }
    }
  }

  ghost function Run(p: Policy, w: World, events: seq<Event>): World
    decreases |events|
  {
    if events == [] then w else Run(p, Step(p, w, events[0]), events[1..])
  }

  ghost predicate AllInOrder(p: Policy, w: World, events: seq<Event>)
    decreases |events|
  {
    events == [] || (InOrder(w, events[0]) && AllInOrder(p, Step(p, w, events[0]), events[1..]))
  }

  /** Over any run of inserts and nights, every row ever captured is live, in a verified file, or was shed. */
  lemma {:induction false} RunConserves(p: Policy, w: World, events: seq<Event>)
    requires Sound(w) && Conserved(w) && AllInOrder(p, w, events)
    ensures Sound(Run(p, w, events)) && Conserved(Run(p, w, events))
    decreases |events|
  {
    hide Sound, Conserved, Step;
    if events != [] {
      match events[0] {
        case Insert(row) => InsertStep(p, w, row);
        case Sweep(input) => SweepStep(p, w, input);
      }
      RunConserves(p, Step(p, w, events[0]), events[1..]);
    }
  }

  /** A night that archives a table of the archive set and never meets the quota guard or a full disk. */
  ghost predicate Archiving(p: Policy, e: Event) {
    e.Sweep? ==>
      && p.archived && e.input.archiver && e.input.spaceLeft
      && forall k :: !e.input.answers(k).OverQuota?
  }

  lemma {:induction false} TileNoQuota(t: Table, start: int, cid: nat, dry: bool, answers: nat -> Answer, k: nat)
    requires cid in t && forall i :: !answers(i).OverQuota?
    ensures !Tile(t, start, cid, dry, answers, k).stop.Quota?
    decreases cid - start
  {
    if start <= cid && start <= DayFile(t, start, cid).name.hi && (dry || answers(k).Uploaded?) {
      TileNoQuota(t, DayFile(t, start, cid).name.hi + 1, cid, dry, answers, k + 1);
    }
  }

  lemma ArchivingShedsNothing(p: Policy, w: World, e: Event)
    requires Sound(w) && Archiving(p, e)
    ensures Step(p, w, e).shed == w.shed
  {
    hide Tile, Holds, TimeOrdered;
    if e.Sweep? {
      var (report, _) := Plan(p, w.rows, e.input);
      if report.verdict.Archived? {
        NightUploads(p, w.rows, w.high, e.input);
        TileNoQuota(w.rows, MinId(w.rows), Cutoff(w.rows, Limit(p, e.input)).value, !e.input.apply, e.input.answers, 0);
      }
      var v := Step(p, w, e);
      assert forall id | id in w.rows && id !in v.rows :: id <= report.safe;
    }
  }

  /**
    The retention promise: unless a night stops at the quota guard, runs out of disk or has no
    archiver, every row ever captured is still in the table or in a verified upload.
   */
  lemma {:induction false} NothingIsLost(p: Policy, w: World, events: seq<Event>)
    requires Sound(w) && Conserved(w) && w.shed == {} && AllInOrder(p, w, events)
    requires forall e | e in events :: Archiving(p, e)
    ensures var v := Run(p, w, events);
      forall id | id in v.ever :: id in v.rows || exists n :: Holds(v.remote, n, id, v.ever[id])
  {
    RunConserves(p, w, events);
    RunShedsNothing(p, w, events);
    var v := Run(p, w, events);
    assert forall id | id in v.ever :: Kept(v, id);
  }

  lemma FreshIsSound()
    ensures Sound(FRESH) && Conserved(FRESH)
  {
  }

  /** In particular from an empty table on. */
  lemma NothingIsEverLost(p: Policy, events: seq<Event>)
    requires AllInOrder(p, FRESH, events) && forall e | e in events :: Archiving(p, e)
    ensures var v := Run(p, FRESH, events);
      forall id | id in v.ever :: id in v.rows || exists n :: Holds(v.remote, n, id, v.ever[id])
  {
    hide Sound, Conserved;
    FreshIsSound();
    NothingIsLost(p, FRESH, events);
  }

  lemma {:induction false} RunShedsNothing(p: Policy, w: World, events: seq<Event>)
    requires Sound(w) && Conserved(w) && AllInOrder(p, w, events)
    requires forall e | e in events :: Archiving(p, e)
    ensures Run(p, w, events).shed == w.shed
    decreases |events|
  {
    hide Sound, Conserved, Step, Archiving;
    if events != [] {
      assert events[0] in events;
      ArchivingShedsNothing(p, w, events[0]);
      RunConserves(p, w, [events[0]]);
      assert Run(p, Step(p, w, events[0]), []) == Step(p, w, events[0]);
      assert [events[0]][1..] == [];
      RunShedsNothing(p, Step(p, w, events[0]), events[1..]);
    }
  }

  ghost predicate ContestLive(w: World, contest: int) {
    forall id | id in w.ever && contest <= w.ever[id].day :: id in w.rows
  }

  lemma ContestNight(p: Policy, w: World, input: Input, contest: int)
    requires Sound(w) && ContestLive(w, contest) && Limit(p, input) <= contest
    ensures ContestLive(Step(p, w, Sweep(input)), contest)
  {
    NightDeletesWholeDays(p, Store(w.rows, w.remote), input);
    var kept := Night(p, Store(w.rows, w.remote), input).rows;
    var day :| day <= Limit(p, input) && KeepsFrom(w.rows, kept, day);
    forall id | id in w.ever && contest <= w.ever[id].day ensures id in kept {
      assert id in w.rows && day <= w.rows[id].day;
    }
  }

  /** The night deletes whatever is old enough in a one-day table. */
  predicate Deletes(p: Policy, input: Input) {
    && input.apply && (input.force || !input.marketOpen)
    && (p.archived && input.archiver && input.spaceLeft ==> input.answers(0).Uploaded? || input.answers(0).OverQuota?)
  }

  function OneRow(day: int): World {
    World(map[1 := Row(day, "")], map[], 1, map[1 := Row(day, "")], {})
  }

  lemma OneRowTiles(t: Table, day: int, dry: bool, answers: nat -> Answer)
    requires t == map[1 := Row(day, "")]
    ensures t != map[] && MinId(t) == 1 && Cutoff(t, day + 1) == Some(1)
    ensures forall limit | day < limit :: Cutoff(t, limit) == Some(1)
    ensures var pass := Tile(t, 1, 1, dry, answers, 0);
      dry || answers(0).Uploaded? ==> pass.stop == Finished && pass.lastOk == 1
    ensures !dry && answers(0).OverQuota? ==> Tile(t, 1, 1, dry, answers, 0).stop == Quota
  {
    assert 1 in t;
    assert TimeOrdered(t) by {
      assert NoneOlderAfter(t, 1);
    }
    forall limit | day < limit
      ensures Cutoff(t, limit) == Some(1)
    {
      CutoffSplits(t, limit, Some(1));
    }
    assert FirstFrom(t, 1) == Some(1);
    assert DayFile(t, 1, 1).name.hi == 1;
    assert Tile(t, 2, 1, dry, answers, 1) == Pass([], 1, Finished, map[], 1);
  }

  lemma OneRowIsDeleted(p: Policy, input: Input, day: int)
    requires Deletes(p, input) && day < Limit(p, input)
    ensures Sound(OneRow(day)) && ContestLive(OneRow(day), day)
    ensures !ContestLive(Step(p, OneRow(day), Sweep(input)), day)
  {
    var w := OneRow(day);
    assert 1 in w.rows && NoneOlderAfter(w.rows, 1);
    OneRowTiles(w.rows, day, !input.apply, input.answers);
    hide Tile, Cutoff, MinId;
    assert 1 !in Step(p, w, Sweep(input)).rows;
  }

  /**
    A night that deletes spares the contest rows of every table exactly when its limit is not past
    the contest start.
   */
  lemma ContestNightIff(p: Policy, input: Input, contest: int)
    requires Deletes(p, input)
    ensures (forall w | Sound(w) && ContestLive(w, contest) :: ContestLive(Step(p, w, Sweep(input)), contest))
            <==> Limit(p, input) <= contest
  {
    hide Sound, ContestLive, Step, Limit;
    if Limit(p, input) <= contest {
      forall w | Sound(w) && ContestLive(w, contest)
        ensures ContestLive(Step(p, w, Sweep(input)), contest)
      {
        ContestNight(p, w, input, contest);
      }
    } else {
      OneRowIsDeleted(p, input, contest);
    }
  }

  /** A protected table whose night cannot read the contest file is cut by age alone, contest rows included. */
  lemma UnreadContestIsDeleted(p: Policy, input: Input, contest: int)
    requires p.protect && Deletes(p, input) && input.contest == None && contest < input.now - p.keep
    ensures Sound(OneRow(contest)) && ContestLive(OneRow(contest), contest)
    ensures !ContestLive(Step(p, OneRow(contest), Sweep(input)), contest)
    ensures ContestLive(Step(p, OneRow(contest), Sweep(input.(contest := Some(contest)))), contest)
  {
    hide ContestLive, Sound, Step;
    OneRowIsDeleted(p, input, contest);
    ContestNight(p, OneRow(contest), input.(contest := Some(contest)), contest);
  }

  /** No exit of any night deletes a contest row while every night's limit is at most the contest start. */
  lemma {:induction false} ContestIsProtected(p: Policy, w: World, events: seq<Event>, contest: int)
    requires Sound(w) && Conserved(w) && AllInOrder(p, w, events)
    requires forall e | e in events && e.Sweep? :: Limit(p, e.input) <= contest
    requires ContestLive(w, contest)
    ensures ContestLive(Run(p, w, events), contest)
    decreases |events|
  {
    hide Sound, Conserved, ContestLive;
    if events != [] {
      var e := events[0];
      assert e in events;
      match e {
        case Insert(row) =>
          InsertStep(p, w, row);
          ContestInsert(p, w, row, contest);
        case Sweep(input) =>
          SweepStep(p, w, input);
          ContestNight(p, w, input, contest);
      }
      ContestIsProtected(p, Step(p, w, e), events[1..], contest);
    }
  }

  lemma ContestInsert(p: Policy, w: World, row: Row, contest: int)
    requires ContestLive(w, contest)
    ensures ContestLive(Step(p, w, Insert(row)), contest)
  {
  }

  /**
    A row 0 alone on its day: a cutoff of 0 is falsy, so `cutoff_id(..) or cid` takes the whole range
    and the first file mixes two days.  SQLite assigns ids from 1.
   */
  lemma ZeroIdMixesDays(a: Row, b: Row, limit: int)
    requires a.day < b.day < limit
    ensures var t: Table := map[0 := a, 1 := b];
      && TimeOrdered(t) && IsCutoff(t, limit, Some(1))
      && DayFile(t, 0, 1) == File(FileName(a.day, 0, 1), t)
      && !WholeDay(t, DayFile(t, 0, 1))
  {
    var t: Table := map[0 := a, 1 := b];
    assert 0 in t && 1 in t;
    assert FirstFrom(t, 0) == Some(0);
    assert Cutoff(t, a.day + 1) == Some(0) by {
      CutoffSplits(t, a.day + 1, Some(0));
    }
    assert Between(t, 0, 1) == t;
  }

  // ---------------------------------------------------------------- the job itself

  const BATCH := 5000

  lemma {:induction false} SubsetOfSize(s: set<nat>, n: nat)
    requires n <= |s|
    ensures exists v :: v <= s && |v| == n
  {
    if n == |s| {
      assert s <= s;
    } else {
      var y :| y in s;
      SubsetOfSize(s - {y}, n);
      var v :| v <= s - {y} && |v| == n;
      assert v <= s;
    }
  }

  lemma MapSumAssociates<K, V>(a: map<K, V>, b: map<K, V>, c: map<K, V>)
    ensures (a + b) + c == a + (b + c)
  {
  }

  lemma NothingAdded<K, V>(a: map<K, V>)
    ensures a + map[] == a
  {
  }

  lemma {:induction false} PublishAppend(files: seq<File>, f: File)
    ensures Publish(files + [f]) == Publish(files) + map[f.name := f.body]
  {
    if files == [] {
      assert [f][1..] == [];
    } else {
      PublishAppend(files[1..], f);
      MapSumAssociates(map[files[0].name := files[0].body], Publish(files[1..]), map[f.name := f.body]);
      assert (files + [f])[1..] == files[1..] + [f];
    }
  }

  lemma SubsetCardinality(a: set<nat>, b: set<nat>)
    requires a <= b
    ensures |b - a| == |b| - |a|
  {
  }

  /** What a pass that already uploaded `files` and continues with `rest` amounts to. */
  function Resume(files: seq<File>, rest: Pass): Pass {
    rest.(files := files + rest.files)
  }

  lemma TileUnfolds(t: Table, start: int, cid: nat, dry: bool, answers: nat -> Answer, k: nat, files: seq<File>)
    requires cid in t
    ensures start > cid ==> Tile(t, start, cid, dry, answers, k) == Pass([], start - 1, Finished, map[], k)
    ensures start <= cid ==>
      var f := DayFile(t, start, cid);
      var pass := Tile(t, start, cid, dry, answers, k);
      if f.name.hi < start then pass == Pass([], start - 1, Finished, map[], k)
      else if dry || answers(k).Uploaded? then
        Resume(files, pass) == Resume(files + [f], Tile(t, f.name.hi + 1, cid, dry, answers, k + 1))
      else pass == Halt(answers(k), f.name, k)
    ensures files + [] == files
  {
  }

  /** The archive after uploading `files`, and with the debris of the copy that stopped the pass. */
  function Uploads(remote: Remote, files: seq<File>, junk: Remote): Remote {
    remote + Publish(files) + junk
  }

  lemma UploadsGrow(remote: Remote, files: seq<File>, f: File, junk: Remote)
    ensures Uploads(remote, [], map[]) == remote
    ensures Uploads(remote, files + [f], map[]) == Uploads(remote, files, map[]) + map[f.name := f.body]
    ensures Uploads(remote, files, junk) == Uploads(remote, files, map[]) + junk
  {
    assert Publish([]) == map[];
    hide Publish;
    PublishAppend(files, f);
    MapSumAssociates(remote, Publish(files), map[f.name := f.body]);
    NothingAdded(remote);
    NothingAdded(remote + Publish(files));
    NothingAdded(remote + Publish(files + [f]));
  }

  class RetentionJob {
    var rows: Table
    var remote: Remote

    constructor ()
      ensures rows == map[] && remote == map[]
    {
      rows, remote := map[], map[];
    }

    method SelectFrom(x: int) returns (r: Option<nat>)
      ensures r == FirstFrom(rows, x)
    {
      var later: Table := map id | id in rows && x <= id :: rows[id];
      assert forall id | id in rows :: x <= id ==> id in later;
      if later == map[] {
        r := None;
      } else {
        r := Some(MinId(later));
      }
    }

    /** The binary search over sparse ids. */
    method CutoffId(limit: int) returns (r: Option<nat>)
      requires TimeOrdered(rows)
      ensures r == Cutoff(rows, limit)
    {
      if rows == map[] {
        return None;
      }
      var lo, hi := MinId(rows), MaxId(rows);
      var first := SelectFrom(lo);
      if rows[first.value].day >= limit {
        assert NoneOlderAfter(rows, first.value);
        return None;
      }
      while lo < hi
        invariant lo <= hi <= MaxId(rows)
        invariant FirstFrom(rows, lo).Some? && rows[FirstFrom(rows, lo).value].day < limit
        invariant forall id | id in rows && hi < id :: limit <= rows[id].day
      {
        var mid := (lo + hi + 1) / 2;
        var row := SelectFrom(mid);
        if row.None? {
          assert false;  // MAX(id) is at or after every probe
        } else if rows[row.value].day < limit {
          lo := mid;
        } else {
          assert NoneOlderAfter(rows, row.value);
          hi := mid - 1;
        }
      }
      CutoffSplits(rows, limit, Some(lo));
      return Some(lo);
    }

    /** The file of the day that starts at `start`. */
    method ExportDay(start: int, cid: nat) returns (f: File)
      requires TimeOrdered(rows) && cid in rows && start <= cid
      ensures f == DayFile(rows, start, cid) && f.name.lo == start
    {
      var first := SelectFrom(start);
      var day := rows[first.value].day;
      var next := CutoffId(day + 1);
      var end := OrCid(next, cid);
      if cid < end { end := cid; }
      f := File(FileName(day, start, end), Between(rows, start, end));
    }

    /** Hands one file to the archive. A failed copy may leave debris under the name it tried. */
    method Put(f: File, answer: Answer, days: nat) returns (stop: Stop)
      modifies this`remote
      ensures answer.Uploaded? ==> stop == Finished && remote == old(remote) + map[f.name := f.body]
      ensures !answer.Uploaded? ==> stop == Halt(answer, f.name, days).stop && stop != Finished
      ensures !answer.Uploaded? ==> remote == old(remote) + Halt(answer, f.name, days).junk
    {
      match answer {
        case OverQuota =>
          stop := Quota;
          assert old(remote) + map[] == old(remote);
        case Uploaded =>
          stop, remote := Finished, remote[f.name := f.body];
        case Refused(left) =>
          stop := UploadFailed;
          if left.Some? { remote := remote[f.name := left.value]; }
        case Raised(left) =>
          stop := Error;
          if left.Some? { remote := remote[f.name := left.value]; }
      }
    }

    /** Exports and uploads day by day until the range is covered or the environment says stop. */
    method ArchiveUpto(cid: nat, dry: bool, answers: nat -> Answer)
      returns (ghost pass: Pass, lastOk: int, stop: Stop, days: nat)
      requires TimeOrdered(rows) && cid in rows
      modifies this`remote
      ensures pass == Tile(rows, MinId(rows), cid, dry, answers, 0)
      ensures lastOk == pass.lastOk && stop == pass.stop && days == pass.days
      ensures remote == if dry then old(remote) else Uploads(old(remote), pass.files, pass.junk)
    {
      hide TimeOrdered, DayFile, Halt, Uploads, Tile;
      var start: int := MinId(rows);
      ghost var files: seq<File> := [];
      pass := Tile(rows, start, cid, dry, answers, 0);
      lastOk, stop, days := start - 1, Finished, 0;
      UploadsGrow(remote, files, File(FileName(0, 0, 0), rows), map[]);
      while start <= cid
        invariant lastOk == start - 1 && stop == Finished
        invariant pass == Resume(files, Tile(rows, start, cid, dry, answers, days))
        invariant remote == if dry then old(remote) else Uploads(old(remote), files, map[])
        decreases cid - start
      {
        var f := ExportDay(start, cid);
        TileUnfolds(rows, start, cid, dry, answers, days, files);
        if f.name.hi < start {
          break;
        }
        days := days + 1;
        if !dry {
          stop := Put(f, answers(days - 1), days - 1);
          UploadsGrow(old(remote), files, f, pass.junk);
          if stop != Finished {
            break;
          }
        }
        files := files + [f];
        lastOk, start := f.name.hi, f.name.hi + 1;
      }
      if start > cid {
        TileUnfolds(rows, start, cid, dry, answers, days, files);
      }
    }

    /** DELETE .. LIMIT in committed batches, whichever rows each batch happens to pick. */
    method DeleteUpto(cid: int) returns (done: nat)
      modifies this`rows
      ensures rows == After(old(rows), cid)
      ensures done == |set id | id in old(rows) && id <= cid|
    {
      done := 0;
      ghost var all := set id | id in rows && id <= cid;
      while true
        invariant (set id | id in rows && id <= cid) <= all
        invariant forall id | id in rows :: id in old(rows) && rows[id] == old(rows)[id]
        invariant forall id | id in old(rows) && cid < id :: id in rows
        invariant done == |all| - |set id | id in rows && id <= cid|
        decreases |set id | id in rows && id <= cid|
      {
        var eligible := set id | id in rows && id <= cid;
        SubsetOfSize(eligible, if |eligible| < BATCH then |eligible| else BATCH);
        var batch :| batch <= eligible && |batch| == if |eligible| < BATCH then |eligible| else BATCH;
        rows := rows - batch;
        SubsetCardinality(batch, eligible);
        assert (set id | id in rows && id <= cid) == eligible - batch;
        if |batch| <= 0 {
          break;
        }
        done := done + |batch|;
      }
    }

    /** The limit, the cutoff, and the archive pass or its fallback: which ids the night may delete. */
    method Decide(p: Policy, input: Input) returns (report: Report)
      requires TimeOrdered(rows)
      modifies this`remote
      ensures report == Plan(p, rows, input).0
      ensures remote == if input.apply then old(remote) + Plan(p, rows, input).1 else old(remote)
    {
      hide TimeOrdered, Tile, Publish;
      NothingAdded(remote);
      if input.apply && !input.force && input.marketOpen {
        return Report(Closed, None, -1);
      }
      var limit := Limit(p, input);
      var cid := CutoffId(limit);
      if cid.None? {
        return Report(NothingOld, None, -1);
      }
      var upto: Option<int> := Some(cid.value);
      if !p.archived || !input.archiver {
        return Report(NotArchived, upto, -1);
      }
      if !input.spaceLeft {
        return Report(DiskPanic, upto, -1);
      }
      var pass, lastOk, stop, _ := ArchiveUpto(cid.value, !input.apply, input.answers);
      MapSumAssociates(old(remote), Publish(pass.files), pass.junk);
      upto := match stop
        case Error => None
        case Quota => upto
        case _ => Some(lastOk);
      report := Report(Archived(stop), upto, lastOk);
    }

    /** The body of `run` for one table. */
    method RunNight(p: Policy, input: Input) returns (report: Report, n: nat)
      requires TimeOrdered(rows)
      modifies this
      ensures Store(rows, remote) == Night(p, Store(old(rows), old(remote)), input)
      ensures report == Plan(p, old(rows), input).0
      ensures n == if report.upto.None? then 0 else |set id | id in old(rows) && id <= report.upto.value|
      ensures input.apply && !input.force && input.marketOpen ==>
        rows == old(rows) && remote == old(remote) && report.verdict == Closed && n == 0
      ensures Rightly(p, old(rows), input, report.verdict)
      ensures 0 !in old(rows) || !report.verdict.Archived? ==>
        LeftBy(p, input, Store(old(rows), old(remote)), Store(rows, remote), report.verdict)
      ensures input.apply ==> n == |old(rows).Keys - rows.Keys|
    {
      NightLeaves(p, Store(rows, remote), input);
      ShutIsClosed(p, rows, input);
      hide TimeOrdered, Plan, Rightly, LeftBy;
      report := Decide(p, input);
      n := 0;
      if report.upto.Some? {
        n := |set id | id in rows && id <= report.upto.value|;
        if input.apply {
          n := DeleteUpto(report.upto.value);
        }
      }
      if report.upto.Some? && input.apply {
        assert old(rows).Keys - rows.Keys == set id | id in old(rows) && id <= report.upto.value;
      }
    }
  }
}
