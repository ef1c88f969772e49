/**
  The append-only URL cache (backend/calendar_evidence_acquisition/static_archives.py:72-113).

  Any number of processes share the cache directory; each step of a process is one file-system
  operation or one fetch, and a process may die at any step.  A folder remembers which process made
  it, for the proofs only.  The digest is injective, as in EvidenceLedger.
 */
module SourceCache {
  import opened Wrappers

  const MAX_BYTES := 64 * 1024 * 1024

  type Bytes = seq<nat>
  datatype Url = Url(n: nat)
  datatype Pid = Pid(n: nat)
  datatype Digest = Digest(content: Bytes)

  /** `rest`: every field of the source specification but the URL. */
  datatype Spec = Spec(url: Url, rest: nat)
  datatype Answer = Answer(status: nat, raw: Bytes, error: bool)
  datatype Record = Record(spec: Spec, at: nat, status: nat, sha: Digest, size: nat, error: bool)
  datatype Meta = Absent | Torn | Whole(record: Record)
  datatype Folder = Folder(maker: Pid, raw: Option<Bytes>, meta: Meta)

  datatype Error =
    | Incomplete
    | Corrupt
    | IdentityConflict
    | HashMismatch
    | FolderExists
    | SizeInvalid
    | SourceHashMismatch
    | VersionConflict
  datatype Outcome = Got(record: Record) | Raised(error: Error)

  function RecordOf(spec: Spec, at: nat, a: Answer): Record {
    Record(spec, at, a.status, Digest(a.raw), |a.raw|, a.error)
  }

  /** What an acquire finds in a folder that exists. */
  function Cached(f: Folder, spec: Spec): Outcome {
    match f.meta
    case Absent => Raised(Incomplete)
    case Torn => Raised(Corrupt)
    case Whole(r) =>
      if r.spec != spec then Raised(IdentityConflict)
      else if f.raw.None? then Raised(Corrupt)
      else if Digest(f.raw.value) != r.sha || |f.raw.value| != r.size then Raised(HashMismatch)
      else Got(r)
  }

  // ---------------------------------------------------------------- processes

  datatype Pc =
    | Idle
    | Starting(spec: Spec)
    | Making(spec: Spec)
    | Fetching(spec: Spec)
    | WritingRaw(spec: Spec, answer: Answer)
    | WritingMeta(spec: Spec, record: Record)
    | Done(spec: Spec, outcome: Outcome)

  /** `fetched` logs the transport calls; `results` the outcomes of finished acquires. */
  datatype State = State(folders: map<Url, Folder>, procs: map<Pid, Pc>, fetched: seq<Url>,
      results: seq<(Spec, Outcome)>)

  /** How much of the file a process was writing survives its death. */
  datatype Left = Nothing | Part(kept: nat) | All
  datatype Action = Call(spec: Spec) | Advance(answer: Answer, at: nat) | Die(left: Left)
  datatype Event = Event(pid: Pid, action: Action)

  function PcOf(s: State, p: Pid): Pc {
    if p in s.procs then s.procs[p] else Idle
  }

  function Finished(s: State, p: Pid, spec: Spec, o: Outcome): State {
    s.(procs := s.procs[p := Done(spec, o)], results := s.results + [(spec, o)])
  }

  function Advanced(s: State, p: Pid, a: Answer, at: nat): State {
    match PcOf(s, p)
    case Idle => s
    case Done(_, _) => s
    case Starting(spec) =>
      if spec.url in s.folders then Finished(s, p, spec, Cached(s.folders[spec.url], spec))
      else s.(procs := s.procs[p := Making(spec)])
    case Making(spec) =>
      if spec.url in s.folders then Finished(s, p, spec, Raised(FolderExists))
      else s.(folders := s.folders[spec.url := Folder(p, None, Absent)], procs := s.procs[p := Fetching(spec)])
    case Fetching(spec) =>
      var s' := s.(fetched := s.fetched + [spec.url]);
      if |a.raw| > MAX_BYTES then Finished(s', p, spec, Raised(SizeInvalid))
      else s'.(procs := s.procs[p := WritingRaw(spec, a)])
    case WritingRaw(spec, answer) =>
      var f := if spec.url in s.folders then s.folders[spec.url] else Folder(p, None, Absent);
      s.(folders := s.folders[spec.url := f.(raw := Some(answer.raw))],
          procs := s.procs[p := WritingMeta(spec, RecordOf(spec, at, answer))])
    case WritingMeta(spec, record) =>
      var f := if spec.url in s.folders then s.folders[spec.url] else Folder(p, None, Absent);
      Finished(s.(folders := s.folders[spec.url := f.(meta := Whole(record))]), p, spec, Got(record))
  }

  function Died(s: State, p: Pid, left: Left): State {
    var s' := s.(procs := s.procs[p := Idle]);
    match PcOf(s, p)
    case WritingRaw(spec, answer) =>
      if left.Nothing? || spec.url !in s.folders then s'
      else
        var raw := if left.Part? && left.kept < |answer.raw| then answer.raw[..left.kept] else answer.raw;
        s'.(folders := s.folders[spec.url := s.folders[spec.url].(raw := Some(raw))])
    case WritingMeta(spec, record) =>
      if left.Nothing? || spec.url !in s.folders then s'
      else
        var meta := if left.Part? then Torn else Whole(record);
        s'.(folders := s.folders[spec.url := s.folders[spec.url].(meta := meta)])
    case _ => s'
  }

  predicate Callable(pc: Pc) {
    pc.Idle? || pc.Done?
  }

  function Step(s: State, e: Event): State {
    match e.action
    case Call(spec) => if Callable(PcOf(s, e.pid)) then s.(procs := s.procs[e.pid := Starting(spec)]) else s
    case Advance(a, at) => Advanced(s, e.pid, a, at)
    case Die(left) => Died(s, e.pid, left)
  }

  function Run(s: State, events: seq<Event>): State
    decreases |events|
  {
    if events == [] then s else Run(Step(s, events[0]), events[1..])
  }

  // ---------------------------------------------------------------- the invariant

  function Fetches(log: seq<Url>, u: Url): nat {
    if log == [] then 0 else Fetches(log[..|log| - 1], u) + if log[|log| - 1] == u then 1 else 0
  }

  predicate Holder(pc: Pc, u: Url) {
    (pc.Fetching? || pc.WritingRaw? || pc.WritingMeta?) && pc.spec.url == u
  }

  /** A process between mkdir and its last write owns the folder, and the folder is not complete. */
  ghost predicate HolderOk(s: State, p: Pid, u: Url) {
    Holder(PcOf(s, p), u) ==>
      && u in s.folders && s.folders[u].maker == p && s.folders[u].meta.Absent?
      && Fetches(s.fetched, u) == (if PcOf(s, p).Fetching? then 0 else 1)
      && (PcOf(s, p).WritingMeta? ==>
           RawMatches(s.folders[u], PcOf(s, p).record) && PcOf(s, p).record.spec == PcOf(s, p).spec)
  }

  ghost predicate RawMatches(f: Folder, r: Record) {
    f.raw == Some(r.sha.content) && r.size == |r.sha.content|
  }

  ghost predicate UrlOk(s: State, u: Url) {
    && Fetches(s.fetched, u) <= 1
    && (u !in s.folders ==> Fetches(s.fetched, u) == 0)
    && (u in s.folders && s.folders[u].meta.Whole? ==> RawMatches(s.folders[u], s.folders[u].meta.record))
  }

  /** A record that was handed out is the one in the folder. */
  ghost predicate ResultOk(s: State, i: int) {
    0 <= i < |s.results| && s.results[i].1.Got? ==>
      var u := s.results[i].0.url;
      u in s.folders && s.folders[u].meta == Whole(s.results[i].1.record) &&
        s.results[i].1.record.spec == s.results[i].0
  }

  ghost predicate Inv(s: State) {
    && (forall p, u :: HolderOk(s, p, u))
    && (forall u :: UrlOk(s, u))
    && (forall i :: ResultOk(s, i))
  }

  // ---------------------------------------------------------------- every step keeps it

  lemma LogGrows(log: seq<Url>, v: Url, u: Url)
    ensures Fetches(log + [v], u) == Fetches(log, u) + if v == u then 1 else 0
  {
  }

  lemma StepHolder(s: State, e: Event, p: Pid, u: Url)
    requires HolderOk(s, p, u) && HolderOk(s, e.pid, u) && UrlOk(s, u)
    ensures HolderOk(Step(s, e), p, u)
  {
  }

  lemma StepUrl(s: State, e: Event, u: Url)
    requires HolderOk(s, e.pid, u) && UrlOk(s, u)
    ensures UrlOk(Step(s, e), u)
  {
  }

  lemma StepResult(s: State, e: Event, i: int)
    requires ResultOk(s, i)
    requires 0 <= i < |s.results| ==> HolderOk(s, e.pid, s.results[i].0.url)
    requires var pc := PcOf(s, e.pid); !pc.Idle? ==> HolderOk(s, e.pid, pc.spec.url)
    ensures ResultOk(Step(s, e), i)
  {
  }

  lemma StepKeeps(s: State, e: Event)
    requires Inv(s)
    ensures Inv(Step(s, e))
  {
    hide Step, HolderOk, UrlOk, ResultOk;
    var s' := Step(s, e);
    forall p, u
      ensures HolderOk(s', p, u)
    {
      assert HolderOk(s, p, u) && HolderOk(s, e.pid, u) && UrlOk(s, u);
      StepHolder(s, e, p, u);
    }
    forall u
      ensures UrlOk(s', u)
    {
      assert HolderOk(s, e.pid, u) && UrlOk(s, u);
      StepUrl(s, e, u);
    }
    forall i
      ensures ResultOk(s', i)
    {
      assert ResultOk(s, i);
      if 0 <= i < |s.results| {
        assert HolderOk(s, e.pid, s.results[i].0.url);
      }
      if !PcOf(s, e.pid).Idle? {
        assert HolderOk(s, e.pid, PcOf(s, e.pid).spec.url);
      }
      StepResult(s, e, i);
    }
  }

  lemma {:induction false} RunKeeps(s: State, events: seq<Event>)
    requires Inv(s)
    ensures Inv(Run(s, events))
    decreases |events|
  {
    hide Inv, Step;
    if events != [] {
      StepKeeps(s, events[0]);
      RunKeeps(Step(s, events[0]), events[1..]);
    }
  }

  const EMPTY := State(map[], map[], [], [])

  /** Across all crashes and races a URL is fetched at most once, and everyone is told the same. */
  lemma FetchedAtMostOnce(events: seq<Event>, u: Url)
    ensures Fetches(Run(EMPTY, events).fetched, u) <= 1
    ensures forall i, j {:trigger Run(EMPTY, events).results[i], Run(EMPTY, events).results[j]} ::
      0 <= i < |Run(EMPTY, events).results| && 0 <= j < |Run(EMPTY, events).results| ==>
        Agree(Run(EMPTY, events).results[i], Run(EMPTY, events).results[j])
  {
    assert Inv(EMPTY);
    hide Run, Fetches;
    RunKeeps(EMPTY, events);
    var s := Run(EMPTY, events);
    assert UrlOk(s, u);
    forall i, j | 0 <= i < |s.results| && 0 <= j < |s.results|
      ensures Agree(s.results[i], s.results[j])
    {
      assert ResultOk(s, i) && ResultOk(s, j);
    }
  }

  predicate Agree(a: (Spec, Outcome), b: (Spec, Outcome)) {
    a.1.Got? && b.1.Got? && a.0.url == b.0.url ==> a == b
  }

  // ---------------------------------------------------------------- settled folders

  /** The folder exists and nobody is at work in it. */
  ghost predicate Settled(s: State, u: Url) {
    u in s.folders && forall p :: !Holder(PcOf(s, p), u)
  }

  /** Results of this URL from the n-th on are what the folder says. */
  ghost predicate Answers(s: State, n: nat, u: Url)
    requires u in s.folders
  {
    forall i | n <= i < |s.results| && s.results[i].0.url == u ::
      s.results[i].1 == Cached(s.folders[u], s.results[i].0) || s.results[i].1 == Raised(FolderExists)
  }

  lemma StepSettled(s: State, e: Event, u: Url, n: nat)
    requires u in s.folders && Settled(s, u) && n <= |s.results| && Answers(s, n, u)
    ensures var s' := Step(s, e);
      && u in s'.folders && Settled(s', u) && s'.folders[u] == s.folders[u] && n <= |s'.results| && Answers(s', n, u)
      && Fetches(s'.fetched, u) == Fetches(s.fetched, u)
  {
    hide Fetches, Cached;
    var pc := PcOf(s, e.pid);
    assert !Holder(pc, u);
    if pc.Fetching? {
      LogGrows(s.fetched, pc.spec.url, u);
    }
    var s' := Step(s, e);
    forall p
      ensures !Holder(PcOf(s', p), u)
    {
      assert !Holder(PcOf(s, p), u);
    }
  }

  /**
    A folder nobody is at work in never changes again and its URL is never fetched again: a complete
    one serves every later acquire, one left incomplete by a crash refuses every later acquire.
   */
  lemma {:induction false} SettledForever(s: State, events: seq<Event>, u: Url, n: nat)
    requires u in s.folders && Settled(s, u) && n <= |s.results| && Answers(s, n, u)
    ensures var r := Run(s, events);
      && u in r.folders && Settled(r, u) && r.folders[u] == s.folders[u] && n <= |r.results| && Answers(r, n, u)
      && Fetches(r.fetched, u) == Fetches(s.fetched, u)
    decreases |events|
  {
    hide Settled, Answers, Step, Fetches;
    if events != [] {
      StepSettled(s, events[0], u, n);
      SettledForever(Step(s, events[0]), events[1..], u, n);
    }
  }

  // ---------------------------------------------------------------- one acquire without interruption

  function Acquired(folders: map<Url, Folder>, p: Pid, spec: Spec, a: Answer,
          at: nat): (map<Url, Folder>, bool, Outcome) {
    if spec.url in folders then (folders, false, Cached(folders[spec.url], spec))
    else if |a.raw| > MAX_BYTES then (folders[spec.url := Folder(p, None, Absent)], true, Raised(SizeInvalid))
    else
      var record := RecordOf(spec, at, a);
      (folders[spec.url := Folder(p, Some(a.raw), Whole(record))], true, Got(record))
  }

  function Repeat(e: Event, n: nat): seq<Event> {
    if n == 0 then [] else [e] + Repeat(e, n - 1)
  }

  lemma RunOnce(s: State, e: Event, n: nat)
    requires n > 0
    ensures Run(s, Repeat(e, n)) == Run(Step(s, e), Repeat(e, n - 1))
  {
  }

  lemma {:induction false} DoneStays(s: State, e: Event, n: nat)
    requires PcOf(s, e.pid).Done? && e.action.Advance?
    ensures Run(s, Repeat(e, n)) == s
  {
    if n > 0 {
      RunOnce(s, e, n);
      DoneStays(s, e, n - 1);
    }
  }

  /** The steps of a process that is never interrupted add up to the acquire as one function. */
  lemma SoloRun(s: State, p: Pid, spec: Spec, a: Answer, at: nat)
    requires Callable(PcOf(s, p))
    ensures var r := Run(Step(s, Event(p, Call(spec))), Repeat(Event(p, Advance(a, at)), 5));
      var (folders, fetched, outcome) := Acquired(s.folders, p, spec, a, at);
      && r.folders == folders && r.fetched == (if fetched then s.fetched + [spec.url] else s.fetched)
      && r.results == s.results + [(spec, outcome)]
  {
    hide Run, Repeat, Cached, RecordOf;
    var e := Event(p, Advance(a, at));
    var s0 := Step(s, Event(p, Call(spec)));
    var s1 := Step(s0, e);
    RunOnce(s0, e, 5);
    if spec.url in s.folders {
      DoneStays(s1, e, 4);
    } else {
      var s2 := Step(s1, e);
      var s3 := Step(s2, e);
      RunOnce(s1, e, 4);
      RunOnce(s2, e, 3);
      if |a.raw| > MAX_BYTES {
        DoneStays(s3, e, 2);
      } else {
        var s4 := Step(s3, e);
        var s5 := Step(s4, e);
        RunOnce(s3, e, 2);
        RunOnce(s4, e, 1);
        DoneStays(s5, e, 0);
      }
    }
  }

  /**
    A first acquire records the specification, the time, and the status, digest, size and error of what
    was fetched; every later one of that URL gets the same record if it is for the same specification, is
    refused otherwise, and fetches nothing. More than 64 MiB are refused, then and for good.
   */
  lemma RecordIsServed(folders: map<Url, Folder>, p: Pid, spec: Spec, a: Answer, at: nat, q: Pid, again: Spec,
          b: Answer, later: nat)
    requires spec.url !in folders && again.url == spec.url
    ensures var (made, asked, outcome) := Acquired(folders, p, spec, a, at);
      && asked
      && outcome == (if |a.raw| > 67108864 then Raised(SizeInvalid)
                     else Got(Record(spec, at, a.status, Digest(a.raw), |a.raw|, a.error)))
      && Acquired(made, q, again, b, later) ==
           (made, false, if |a.raw| > 67108864 then Raised(Incomplete)
                         else if again == spec then outcome else Raised(IdentityConflict))
      && forall u | u != spec.url :: u in folders <==> u in made && (u in folders ==> made[u] == folders[u])
  {
  }

  /** A complete folder is served exactly while its bytes are the recorded ones. */
  lemma DamageIsSeen(f: Folder, r: Record)
    requires f.meta == Whole(r)
    ensures Cached(f, r.spec) == Got(r) <==> f.raw == Some(r.sha.content) && r.size == |r.sha.content|
    ensures f.raw.None? ==> Cached(f, r.spec) == Raised(Corrupt)
    ensures f.raw.Some? && f.raw.value != r.sha.content ==> Cached(f, r.spec) == Raised(HashMismatch)
  {
  }

  /** The folder is complete: its metadata say r and its bytes are r's. */
  ghost predicate Complete(s: State, r: Record) {
    var u := r.spec.url;
    u in s.folders && s.folders[u] == Folder(s.folders[u].maker, Some(r.sha.content), Whole(r))
      && r.size == |r.sha.content|
  }

  /** Nobody is about to make the folder. */
  ghost predicate NoneMaking(s: State, u: Url) {
    forall p {:trigger PcOf(s, p)} :: PcOf(s, p).Making? ==> PcOf(s, p).spec.url != u
  }

  /**
    From any reachable state on in which the record's folder is complete and nobody is about to make it:
    whatever happens, every later acquire of that specification gets that record, and one of the URL under
    another specification a conflict.
   */
  lemma {:induction false} CompleteIsServed(s: State, events: seq<Event>, r: Record, i: nat)
    requires Inv(s) && Complete(s, r) && NoneMaking(s, r.spec.url) && |s.results| <= i
    requires i < |Run(s, events).results| && Run(s, events).results[i].0.url == r.spec.url
    ensures Run(s, events).results[i].1 ==
      if Run(s, events).results[i].0 == r.spec then Got(r) else Raised(IdentityConflict)
    decreases |events|
  {
    hide Inv, Complete, NoneMaking, Step;
    if events != [] {
      var t := Step(s, events[0]);
      StepKeeps(s, events[0]);
      StepServes(s, events[0], r);
      if |t.results| <= i {
        CompleteIsServed(t, events[1..], r, i);
      } else {
        ResultsGrow(t, events[1..]);
      }
    }
  }

  lemma StepServes(s: State, e: Event, r: Record)
    requires Inv(s) && Complete(s, r) && NoneMaking(s, r.spec.url)
    ensures var t := Step(s, e);
      && Complete(t, r) && NoneMaking(t, r.spec.url)
      && |s.results| <= |t.results| <= |s.results| + 1
      && (|s.results| < |t.results| && t.results[|s.results|].0.url == r.spec.url ==>
            t.results[|s.results|].1 ==
              if t.results[|s.results|].0 == r.spec then Got(r) else Raised(IdentityConflict))
  {
    assert HolderOk(s, e.pid, r.spec.url);
    assert UrlOk(s, r.spec.url);
    hide Inv, Fetches, UrlOk;
    var t := Step(s, e);
    forall p
      ensures PcOf(t, p).Making? ==> PcOf(t, p).spec.url != r.spec.url
    {
      assert PcOf(s, p) == PcOf(s, p);
    }
  }

  lemma {:induction false} ResultsGrow(s: State, events: seq<Event>)
    ensures s.results <= Run(s, events).results
    decreases |events|
  {
    if events != [] {
      ResultsGrow(Step(s, events[0]), events[1..]);
    }
  }

  /** How many of its own steps an acquire has taken when it dies, and what its last write leaves. */
  function Crashed(s: State, p: Pid, spec: Spec, a: Answer, at: nat, n: nat, left: Left): State {
    Run(Step(s, Event(p, Call(spec))), Repeat(Event(p, Advance(a, at)), n) + [Event(p, Die(left))])
  }

  lemma {:induction false} RunJoins(s: State, a: seq<Event>, e: Event)
    ensures Run(s, a + [e]) == Step(Run(s, a), e)
    decreases |a|
  {
    if a == [] {
      assert [] + [e] == [e] && [e][1..] == [];
      assert Run(Step(s, e), []) == Step(s, e);
    } else {
      assert (a + [e])[1..] == a[1..] + [e];
      RunJoins(Step(s, a[0]), a[1..], e);
    }
  }

  /**
    A process alone with a new URL that dies after making the folder (step 2) or fetching (3): the URL is
    incomplete; in the write of the metadata (4): incomplete, corrupt or served, by what is left of them.
   */
  lemma CrashedAcquire(s: State, p: Pid, spec: Spec, a: Answer, at: nat, n: nat, left: Left, q: Pid, b: Answer,
          later: nat)
    requires Callable(PcOf(s, p)) && spec.url !in s.folders && |a.raw| <= MAX_BYTES && 2 <= n <= 4
    ensures var r := Crashed(s, p, spec, a, at, n, left);
      && PcOf(r, p).Idle?
      && r.fetched == (if n == 2 then s.fetched else s.fetched + [spec.url])
      && Acquired(r.folders, q, spec, b, later) ==
           (r.folders, false,
            if n < 4 || left == Nothing then Raised(Incomplete)
            else if left.Part? then Raised(Corrupt)
            else Got(Record(spec, at, a.status, Digest(a.raw), |a.raw|, a.error)))
  {
    var e := Event(p, Advance(a, at));
    var s0 := Step(s, Event(p, Call(spec)));
    RunJoins(s0, Repeat(e, n), Event(p, Die(left)));
    assert RecordOf(spec, at, a) == Record(spec, at, a.status, Digest(a.raw), |a.raw|, a.error);
    hide Step, Acquired, RecordOf;
    FirstSteps(s, p, spec, a, at, n);
    DiesAt(s, Run(s0, Repeat(e, n)), p, spec, a, at, n, left);
    hide Run, Repeat, AtStep;
    FoundLater(Crashed(s, p, spec, a, at, n, left).folders, q, spec, b, later);
  }

  /** Where an acquire of a new URL stands after n of its steps. */
  ghost predicate AtStep(s: State, t: State, p: Pid, spec: Spec, a: Answer, at: nat, n: nat) {
    && spec.url in t.folders && t.folders[spec.url].meta == Absent
    && (n == 2 ==> PcOf(t, p) == Fetching(spec) && t.fetched == s.fetched)
    && (n == 3 ==> PcOf(t, p) == WritingRaw(spec, a) && t.fetched == s.fetched + [spec.url])
    && (n == 4 ==>
          && PcOf(t, p) == WritingMeta(spec, RecordOf(spec, at, a)) && t.fetched == s.fetched + [spec.url]
          && t.folders[spec.url].raw == Some(a.raw))
  }

  lemma FirstSteps(s: State, p: Pid, spec: Spec, a: Answer, at: nat, n: nat)
    requires Callable(PcOf(s, p)) && spec.url !in s.folders && |a.raw| <= MAX_BYTES && 2 <= n <= 4
    ensures var r := Run(Step(s, Event(p, Call(spec))), Repeat(Event(p, Advance(a, at)), n));
      AtStep(s, r, p, spec, a, at, n)
  {
    hide Run, Repeat, RecordOf;
    var e := Event(p, Advance(a, at));
    var s0 := Step(s, Event(p, Call(spec)));
    var s1 := Step(s0, e);
    var s2 := Step(s1, e);
    RunOnce(s0, e, n);
    RunOnce(s1, e, n - 1);
    if n == 2 {
      RunNone(s2, e);
    } else {
      var s3 := Step(s2, e);
      RunOnce(s2, e, n - 2);
      if n == 3 {
        RunNone(s3, e);
      } else {
        RunOnce(s3, e, 1);
        RunNone(Step(s3, e), e);
      }
    }
  }

  lemma RunNone(s: State, e: Event)
    ensures Run(s, Repeat(e, 0)) == s
  {
  }

  lemma DiesAt(s: State, t: State, p: Pid, spec: Spec, a: Answer, at: nat, n: nat, left: Left)
    requires AtStep(s, t, p, spec, a, at, n) && 2 <= n <= 4
    ensures var r := Step(t, Event(p, Die(left)));
      && PcOf(r, p).Idle? && spec.url in r.folders
      && r.fetched == (if n == 2 then s.fetched else s.fetched + [spec.url])
      && var f := r.folders[spec.url];
         if n < 4 || left == Nothing then f.meta == Absent
         else if left.Part? then f.meta == Torn
         else f.meta == Whole(RecordOf(spec, at, a)) && f.raw == Some(a.raw)
  {
    hide RecordOf;
  }

  lemma FoundLater(folders: map<Url, Folder>, q: Pid, spec: Spec, b: Answer, later: nat)
    requires spec.url in folders
    ensures var f := folders[spec.url];
      && (f.meta == Absent ==> Acquired(folders, q, spec, b, later) == (folders, false, Raised(Incomplete)))
      && (f.meta == Torn ==> Acquired(folders, q, spec, b, later) == (folders, false, Raised(Corrupt)))
      && forall r: Record |
           f.meta == Whole(r) && f.raw == Some(r.sha.content) && r.size == |r.sha.content| && r.spec == spec ::
           Acquired(folders, q, spec, b, later) == (folders, false, Got(r))
  {
  }

  class SourceCache {
    const pid: Pid
    var folders: map<Url, Folder>
    var fetched: seq<Url>

    constructor (pid: Pid)
      ensures this.pid == pid && folders == map[] && fetched == []
    {
      this.pid := pid;
      folders, fetched := map[], [];
    }

    /** `answer` is what the transport would say; it is asked only for a URL without a folder. */
    method Acquire(spec: Spec, answer: Answer, at: nat) returns (outcome: Outcome)
      modifies this
      ensures var (after, asked, o) := Acquired(old(folders), pid, spec, answer, at);
        folders == after && outcome == o && fetched == (if asked then old(fetched) + [spec.url] else old(fetched))
    {
      if spec.url in folders {
        return Cached(folders[spec.url], spec);
      }
      ghost var before := folders;
      folders := folders[spec.url := Folder(pid, None, Absent)];
      fetched := fetched + [spec.url];
      if |answer.raw| > MAX_BYTES {
        return Raised(SizeInvalid);
      }
      var record := RecordOf(spec, at, answer);
      folders := folders[spec.url := folders[spec.url].(raw := Some(answer.raw))];
      folders := folders[spec.url := folders[spec.url].(meta := Whole(record))];
      assert folders == before[spec.url := Folder(pid, Some(answer.raw), Whole(record))];
      return Got(record);
    }

    /** Known bytes stand in for the transport's answer; what is returned records exactly those bytes. */
    method Retain(spec: Spec, raw: Bytes, sha: Digest, status: nat, error: bool, at: nat) returns (outcome: Outcome)
      modifies this
      ensures Digest(raw) != sha ==> outcome == Raised(SourceHashMismatch) && folders == old(folders)
      ensures Digest(raw) == sha ==> folders == Acquired(old(folders), pid, spec, Answer(status, raw, error), at).0
      ensures outcome.Got? ==>
        outcome.record.sha.content == raw && outcome.record.status == status && outcome.record.spec == spec
      ensures Digest(raw) == sha && |raw| <= MAX_BYTES && spec.url !in old(folders) ==> outcome.Got?
    {
      if Digest(raw) != sha {
        return Raised(SourceHashMismatch);
      }
      outcome := Acquire(spec, Answer(status, raw, error), at);
      if outcome.Got? && (outcome.record.sha != sha || outcome.record.status != status) {
        outcome := Raised(VersionConflict);
      }
    }
  }
}
