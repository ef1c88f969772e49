/**
  The append-only evidence store (backend/calendar_evidence_acquisition/evidence_engine.py).

  The SHA-256 digest is taken to be injective: a digest value carries the content it stands for.
  The parser is outside the model: a request carries the inventory and the dates it found.  The file
  lock makes ingests run one at a time, so an interleaving is a sequence of ingests, each of which
  may stop at any write; a write that is cut short leaves a prefix of its bytes behind.
 */
module EvidenceLedger {
  import opened Wrappers

  const MAX_BYTES := 64 * 1024 * 1024

  type Bytes = seq<nat>
  datatype Digest = Digest(content: Bytes)

  /** What the identity hash covers beside the digest: `rest` is url, route, fields, segment and report. */
  datatype Identity = Identity(exchange: nat, day: nat, rest: nat)
  datatype EntryId = EntryId(sha: Digest, identity: Identity)

  datatype Request = Request(raw: Bytes, claimed: Option<Digest>, identity: Identity, inventory: Bytes, dates: seq<nat>,
      rejected: bool) {
    function Sha(): Digest { Digest(raw) }
    function Id(): EntryId { EntryId(Sha(), identity) }
  }

  /** `compared`: the inventories whose reconciliation gave the entry its status. */
  datatype Entry = Entry(id: EntryId, inventorySha: Digest, acquired: nat, dates: seq<nat>, rejected: bool,
      compared: seq<Bytes>)

  datatype Ledger = Missing | Foreign | Entries(entries: seq<Entry>)
  datatype Rejection = Torn | Whole(entry: Entry)
  datatype Disk = Disk(raws: map<Digest, Bytes>, inventories: map<EntryId, Bytes>, rejections: map<EntryId, Rejection>,
      ledger: Ledger)

  datatype Error = SourceSize | SourceHash | RetainedSource | RetainedInventory | FileMissing | Schema
  datatype Outcome = Returned(entry: Entry) | Raised(error: Error) | Crashed

  /** Where an ingest is cut off, and how much of the write it was in survives. */
  datatype Point = RawWrite | InventoryWrite | FinalWrite
  datatype Crash = Never | At(point: Point, kept: nat)

  // ---------------------------------------------------------------- the pieces of an ingest

  /** The file as `_immutable` leaves it, or None if it holds other bytes. */
  function Immutable<K(==)>(files: map<K, Bytes>, path: K, data: Bytes): Option<map<K, Bytes>> {
    if path !in files then Some(files[path := data])
    else if files[path] == data then Some(files)
    else None
  }

  /** The file after a crash inside `_immutable`: a new file keeps some of its first bytes. */
  function CutOff<K(==)>(files: map<K, Bytes>, path: K, data: Bytes, kept: nat): map<K, Bytes> {
    if path in files then files else files[path := if kept < |data| then data[..kept] else data]
  }

  datatype Check = Verified(inventories: seq<Bytes>) | Failed(error: Error)

  function VerifyEntry(d: Disk, e: Entry): Check {
    if e.id.sha !in d.raws then Failed(FileMissing)
    else if Digest(d.raws[e.id.sha]) != e.id.sha then Failed(RetainedSource)
    else if e.id !in d.inventories then Failed(FileMissing)
    else if Digest(d.inventories[e.id]) != e.inventorySha then Failed(RetainedInventory)
    else Verified([d.inventories[e.id]])
  }

  function VerifyAll(d: Disk, es: seq<Entry>): Check {
    if es == [] then Verified([])
    else
      var first := VerifyEntry(d, es[0]);
      if first.Failed? then first
      else
        var rest := VerifyAll(d, es[1..]);
        if rest.Failed? then rest else Verified(first.inventories + rest.inventories)
  }

  function Find(entries: seq<Entry>, key: EntryId): (r: Option<Entry>)
    ensures r.Some? ==> r.value in entries && r.value.id == key
    ensures r.None? ==> forall e | e in entries :: e.id != key
  {
    if entries == [] then None
    else if entries[0].id == key then Some(entries[0])
    else Find(entries[1..], key)
  }

  function SameDay(entries: seq<Entry>, identity: Identity): seq<Entry> {
    if entries == [] then []
    else
      var own := entries[0].id.identity;
      (if own.exchange == identity.exchange && own.day == identity.day then [entries[0]] else [])
      + SameDay(entries[1..], identity)
  }

  function NewEntry(req: Request, now: nat, prior: seq<Bytes>): Entry {
    Entry(req.Id(), Digest(req.inventory), now, req.dates, req.rejected, prior + [req.inventory])
  }

  function EntriesOf(ledger: Ledger): seq<Entry> {
    if ledger.Entries? then ledger.entries else []
  }

  predicate Barred(req: Request) {
    req.rejected || req.dates == []
  }

  // ---------------------------------------------------------------- one ingest

  function Validate(req: Request): Option<Error> {
    if req.raw == [] || |req.raw| > MAX_BYTES then Some(SourceSize)
    else if req.claimed.Some? && req.claimed.value != req.Sha() then Some(SourceHash)
    else None
  }

  function Finish(d: Disk, req: Request, e: Entry, crash: Crash): (Disk, Outcome) {
    if Barred(req) then
      if req.Id() in d.rejections then (d, Returned(e))
      else if crash.At? && crash.point == FinalWrite then
        (d.(rejections := d.rejections[req.Id() := if crash.kept == 0 then Torn else Whole(e)]), Crashed)
      else (d.(rejections := d.rejections[req.Id() := Whole(e)]), Returned(e))
    else
      var done := d.(ledger := Entries(EntriesOf(d.ledger) + [e]));
      if crash.At? && crash.point == FinalWrite then (if crash.kept == 0 then d else done, Crashed)
      else (done, Returned(e))
  }

  function Register(d: Disk, req: Request, now: nat, crash: Crash): (Disk, Outcome) {
    if crash.At? && crash.point == InventoryWrite then
      (d.(inventories := CutOff(d.inventories, req.Id(), req.inventory, crash.kept)), Crashed)
    else
      var stored := Immutable(d.inventories, req.Id(), req.inventory);
      if stored.None? then (d, Raised(RetainedSource))
      else
        var d2 := d.(inventories := stored.value);
        var prior := VerifyAll(d2, SameDay(EntriesOf(d.ledger), req.identity));
        if prior.Failed? then (d2, Raised(prior.error))
        else Finish(d2, req, NewEntry(req, now, prior.inventories), crash)
  }

  function LookUp(d: Disk, req: Request): Option<Outcome> {
    if d.ledger.Foreign? then Some(Raised(Schema))
    else
      var found := Find(EntriesOf(d.ledger), req.Id());
      if found.None? then None
      else
        var check := VerifyEntry(d, found.value);
        Some(if check.Failed? then Raised(check.error) else Returned(found.value))
  }

  function IngestOn(d: Disk, req: Request, now: nat, crash: Crash): (Disk, Outcome) {
    if Validate(req).Some? then (d, Raised(Validate(req).value))
    else if crash.At? && crash.point == RawWrite then
      (d.(raws := CutOff(d.raws, req.Sha(), req.raw, crash.kept)), Crashed)
    else
      var stored := Immutable(d.raws, req.Sha(), req.raw);
      if stored.None? then (d, Raised(RetainedSource))
      else
        var d1 := d.(raws := stored.value);
        var known := LookUp(d1, req);
        if known.Some? then (d1, known.value) else Register(d1, req, now, crash)
  }

  function DryRun(d: Disk, req: Request, now: nat): Outcome {
    if Validate(req).Some? then Raised(Validate(req).value)
    else
      var known := LookUp(d, req);
      if known.Some? then known.value
      else
        var prior := VerifyAll(d, SameDay(EntriesOf(d.ledger), req.identity));
        if prior.Failed? then Raised(prior.error) else Returned(NewEntry(req, now, prior.inventories))
  }

  // ---------------------------------------------------------------- what the store keeps

  ghost predicate Holds(d: Disk, e: Entry) {
    && e.id.sha in d.raws && d.raws[e.id.sha] == e.id.sha.content
    && e.id in d.inventories && d.inventories[e.id] == e.inventorySha.content
  }

  function Contents(es: seq<Entry>): seq<Bytes> {
    if es == [] then [] else [es[0].inventorySha.content] + Contents(es[1..])
  }

  /** The n-th entry: its files are there, its key is new, and it was compared with all earlier ones of its day. */
  ghost predicate EntryOk(d: Disk, entries: seq<Entry>, n: nat)
    requires n < |entries|
  {
    var e := entries[n];
    && Holds(d, e) && !e.rejected && e.dates != []
    && Find(entries[..n], e.id).None?
    && e.compared == Contents(SameDay(entries[..n], e.id.identity)) + [e.inventorySha.content]
  }

  ghost predicate Sound(d: Disk) {
    var entries := EntriesOf(d.ledger);
    forall n: nat | n < |entries| :: EntryOk(d, entries, n)
  }

  /** Files and entries only ever get added. */
  ghost predicate Extends(d: Disk, d': Disk) {
    && (forall k | k in d.raws :: k in d'.raws && d'.raws[k] == d.raws[k])
    && (forall k | k in d.inventories :: k in d'.inventories && d'.inventories[k] == d.inventories[k])
    && (forall k | k in d.rejections :: k in d'.rejections && d'.rejections[k] == d.rejections[k])
    && (d.ledger.Foreign? ==> d'.ledger == d.ledger)
    && EntriesOf(d.ledger) <= EntriesOf(d'.ledger)
  }

  lemma FinishExtends(d: Disk, req: Request, e: Entry, crash: Crash)
    requires !d.ledger.Foreign?
    ensures Extends(d, Finish(d, req, e, crash).0)
  {
  }

  lemma ExtendsTransitive(a: Disk, b: Disk, c: Disk)
    requires Extends(a, b) && Extends(b, c)
    ensures Extends(a, c)
  {
  }

  lemma RegisterExtends(d: Disk, req: Request, now: nat, crash: Crash)
    requires !d.ledger.Foreign?
    ensures Extends(d, Register(d, req, now, crash).0)
  {
    hide Finish, VerifyAll, SameDay, NewEntry;
    var stored := Immutable(d.inventories, req.Id(), req.inventory);
    if stored.Some? {
      var d2 := d.(inventories := stored.value);
      var prior := VerifyAll(d2, SameDay(EntriesOf(d.ledger), req.identity));
      if prior.Verified? {
        FinishExtends(d2, req, NewEntry(req, now, prior.inventories), crash);
      }
    }
  }

  lemma IngestExtends(d: Disk, req: Request, now: nat, crash: Crash)
    ensures Extends(d, IngestOn(d, req, now, crash).0)
  {
    hide Register, Find, VerifyEntry;
    var stored := Immutable(d.raws, req.Sha(), req.raw);
    if stored.Some? && LookUp(d.(raws := stored.value), req).None? {
      RegisterExtends(d.(raws := stored.value), req, now, crash);
    }
  }

  // ---------------------------------------------------------------- soundness

  lemma {:induction false} VerifyAllContents(d: Disk, es: seq<Entry>)
    ensures VerifyAll(d, es).Verified? ==> VerifyAll(d, es).inventories == Contents(es)
    ensures (forall e | e in es :: Holds(d, e)) ==> VerifyAll(d, es).Verified?
  {
    if es != [] {
      VerifyAllContents(d, es[1..]);
      assert es[0] in es;
      assert forall e | e in es[1..] :: e in es;
    }
  }

  lemma {:induction false} SameDayIsIn(es: seq<Entry>, identity: Identity)
    ensures forall e | e in SameDay(es, identity) :: e in es
  {
    if es != [] {
      SameDayIsIn(es[1..], identity);
      assert es[0] in es;
      assert forall e | e in es[1..] :: e in es;
    }
  }

  lemma SoundHolds(d: Disk, e: Entry)
    requires Sound(d) && e in EntriesOf(d.ledger)
    ensures Holds(d, e) && VerifyEntry(d, e) == Verified([e.inventorySha.content])
  {
    hide Find, SameDay, Contents;
    var entries := EntriesOf(d.ledger);
    var n: nat :| n < |entries| && entries[n] == e;
    assert EntryOk(d, entries, n);
  }

  /** In a sound store every earlier entry of the day verifies. */
  lemma SoundDay(d: Disk, identity: Identity)
    requires Sound(d)
    ensures VerifyAll(d, SameDay(EntriesOf(d.ledger), identity)) ==
      Verified(Contents(SameDay(EntriesOf(d.ledger), identity)))
  {
    hide Sound, VerifyAll, Contents, SameDay;
    var es := SameDay(EntriesOf(d.ledger), identity);
    SameDayIsIn(EntriesOf(d.ledger), identity);
    forall e | e in es
      ensures Holds(d, e)
    {
      SoundHolds(d, e);
    }
    VerifyAllContents(d, es);
  }

  ghost predicate SameLedger(d: Disk, d': Disk) {
    d.ledger == d'.ledger && Extends(d, d')
  }

  lemma SoundStays(d: Disk, d': Disk)
    requires Sound(d) && SameLedger(d, d')
    ensures Sound(d')
  {
    hide Find, SameDay, Contents;
    var entries := EntriesOf(d.ledger);
    forall n: nat | n < |entries|
      ensures EntryOk(d', entries, n)
    {
      assert EntryOk(d, entries, n);
    }
  }

  lemma SoundAppends(d: Disk, e: Entry)
    requires Sound(d) && !d.ledger.Foreign? && Holds(d, e) && !e.rejected && e.dates != []
    requires Find(EntriesOf(d.ledger), e.id).None?
    requires e.compared == Contents(SameDay(EntriesOf(d.ledger), e.id.identity)) + [e.inventorySha.content]
    ensures Sound(d.(ledger := Entries(EntriesOf(d.ledger) + [e])))
  {
    hide Find, SameDay, Contents;
    var entries := EntriesOf(d.ledger);
    var grown := entries + [e];
    var d' := d.(ledger := Entries(grown));
    forall n: nat | n < |grown|
      ensures EntryOk(d', grown, n)
    {
      if n < |entries| {
        assert EntryOk(d, entries, n);
        assert grown[..n] == entries[..n];
      } else {
        assert grown[..n] == entries;
      }
    }
  }

  lemma FinishSound(d: Disk, req: Request, e: Entry, crash: Crash)
    requires Sound(d) && !d.ledger.Foreign? && Holds(d, e) && Find(EntriesOf(d.ledger), e.id).None?
    requires e.rejected == req.rejected && e.dates == req.dates
    requires e.compared == Contents(SameDay(EntriesOf(d.ledger), e.id.identity)) + [e.inventorySha.content]
    ensures Sound(Finish(d, req, e, crash).0)
  {
    hide Sound, Find, SameDay, Contents;
    if Barred(req) {
      SoundStays(d, Finish(d, req, e, crash).0);
    } else {
      SoundAppends(d, e);
    }
  }

  lemma RegisterSound(d: Disk, req: Request, now: nat, crash: Crash)
    requires Sound(d) && !d.ledger.Foreign? && Find(EntriesOf(d.ledger), req.Id()).None?
    requires req.Sha() in d.raws && d.raws[req.Sha()] == req.raw
    ensures Sound(Register(d, req, now, crash).0)
  {
    hide Sound, Finish, VerifyAll, Find, SameDay, Contents;
    var stored := Immutable(d.inventories, req.Id(), req.inventory);
    if crash.At? && crash.point == InventoryWrite {
      SoundStays(d, Register(d, req, now, crash).0);
    } else if stored.Some? {
      var d2 := d.(inventories := stored.value);
      SoundStays(d, d2);
      var es := SameDay(EntriesOf(d.ledger), req.identity);
      var prior := VerifyAll(d2, es);
      VerifyAllContents(d2, es);
      if prior.Verified? {
        FinishSound(d2, req, NewEntry(req, now, prior.inventories), crash);
      }
    }
  }

  /** One ingest, cut off anywhere, keeps the store sound. */
  lemma IngestSound(d: Disk, req: Request, now: nat, crash: Crash)
    requires Sound(d)
    ensures Sound(IngestOn(d, req, now, crash).0)
  {
    hide Sound, Register, Find, VerifyEntry;
    var stored := Immutable(d.raws, req.Sha(), req.raw);
    if crash.At? && crash.point == RawWrite {
      SoundStays(d, IngestOn(d, req, now, crash).0);
    } else if stored.Some? {
      var d1 := d.(raws := stored.value);
      SoundStays(d, d1);
      if LookUp(d1, req).None? {
        RegisterSound(d1, req, now, crash);
      }
    }
  }

  // ---------------------------------------------------------------- runs

  datatype Event = Event(req: Request, now: nat, crash: Crash)

  function Run(d: Disk, events: seq<Event>): Disk
    decreases |events|
  {
    if events == [] then d
    else Run(IngestOn(d, events[0].req, events[0].now, events[0].crash).0, events[1..])
  }

  /** However ingests and crashes follow each other, the store stays sound and only grows. */
  lemma {:induction false} RunSound(d: Disk, events: seq<Event>)
    requires Sound(d)
    ensures Sound(Run(d, events)) && Extends(d, Run(d, events))
    decreases |events|
  {
    if events != [] {
      hide Sound, IngestOn, EntriesOf;
      var e := events[0];
      var d1 := IngestOn(d, e.req, e.now, e.crash).0;
      IngestSound(d, e.req, e.now, e.crash);
      IngestExtends(d, e.req, e.now, e.crash);
      RunSound(d1, events[1..]);
      ExtendsTransitive(d, d1, Run(d1, events[1..]));
    }
  }

  lemma {:induction false} FindFirst(entries: seq<Entry>, n: nat)
    requires n < |entries| && Find(entries[..n], entries[n].id).None?
    ensures Find(entries, entries[n].id) == Some(entries[n])
  {
    if n > 0 {
      assert entries[..n][0] == entries[0] && entries[..n][1..] == entries[1..][..n - 1];
      FindFirst(entries[1..], n - 1);
    }
  }

  /** Looking up an id in a sound ledger finds its only entry. */
  lemma SoundFinds(d: Disk, e: Entry)
    requires Sound(d) && e in EntriesOf(d.ledger)
    ensures Find(EntriesOf(d.ledger), e.id) == Some(e)
  {
    hide Find, SameDay, Contents, Holds;
    var entries := EntriesOf(d.ledger);
    var n: nat :| n < |entries| && entries[n] == e;
    assert EntryOk(d, entries, n);
    FindFirst(entries, n);
  }

  lemma IdsAreUnique(d: Disk, i: nat, j: nat)
    requires Sound(d) && i < j < |EntriesOf(d.ledger)|
    ensures EntriesOf(d.ledger)[i].id != EntriesOf(d.ledger)[j].id
  {
    hide Find, SameDay, Contents, Holds;
    var entries := EntriesOf(d.ledger);
    assert EntryOk(d, entries, j);
    assert entries[..j][i] == entries[i];
  }

  /** From an empty store, after any run: unique ids, and files that match every recorded digest. */
  lemma LedgerIsSound(events: seq<Event>)
    ensures var d := Run(Disk(map[], map[], map[], Missing), events);
      && Sound(d)
      && (forall e | e in EntriesOf(d.ledger) :: Holds(d, e))
      && (forall i, j | 0 <= i < j < |EntriesOf(d.ledger)| :: EntriesOf(d.ledger)[i].id != EntriesOf(d.ledger)[j].id)
  {
    hide Run, Holds, Find, SameDay, Contents;
    var empty := Disk(map[], map[], map[], Missing);
    RunSound(empty, events);
    var d := Run(empty, events);
    hide Sound;
    forall e | e in EntriesOf(d.ledger)
      ensures Holds(d, e)
    {
      SoundHolds(d, e);
    }
    forall i, j | 0 <= i < j < |EntriesOf(d.ledger)|
      ensures EntriesOf(d.ledger)[i].id != EntriesOf(d.ledger)[j].id
    {
      IdsAreUnique(d, i, j);
    }
  }

  // ---------------------------------------------------------------- which entries are compared

  predicate OneDay(a: Identity, b: Identity) {
    a.exchange == b.exchange && a.day == b.day
  }

  ghost predicate Picked(ix: seq<nat>, m: nat) {
    exists i :: 0 <= i < |ix| && ix[i] == m
  }

  /** `ix` picks out, in ledger order, exactly the entries with that exchange and trading day. */
  ghost predicate PicksDay(entries: seq<Entry>, identity: Identity, ix: seq<nat>) {
    && (forall i | 0 <= i < |ix| :: ix[i] < |entries|)
    && (forall i, j | 0 <= i < j < |ix| :: ix[i] < ix[j])
    && forall m: nat | m < |entries| :: Picked(ix, m) <==> OneDay(entries[m].id.identity, identity)
  }

  lemma Associates<T>(a: seq<T>, b: seq<T>, c: seq<T>)
    ensures (a + b) + c == a + (b + c)
  {
  }

  lemma Tail<T>(a: seq<T>, b: seq<T>)
    requires a != []
    ensures (a + b)[0] == a[0] && (a + b)[1..] == a[1..] + b
  {
  }

  function OnDay(e: Entry, identity: Identity): seq<Entry> {
    if OneDay(e.id.identity, identity) then [e] else []
  }

  lemma SameDayUnfolds(entries: seq<Entry>, identity: Identity)
    requires entries != []
    ensures SameDay(entries, identity) == OnDay(entries[0], identity) + SameDay(entries[1..], identity)
  {
  }

  lemma {:induction false} SameDayAdds(entries: seq<Entry>, e: Entry, identity: Identity)
    ensures SameDay(entries + [e], identity) == SameDay(entries, identity) + OnDay(e, identity)
  {
    if entries == [] {
      assert [] + [e] == [e] && [e][1..] == [];
    } else {
      Tail(entries, [e]);
      SameDayUnfolds(entries + [e], identity);
      SameDayUnfolds(entries, identity);
      hide SameDay, OnDay;
      SameDayAdds(entries[1..], e, identity);
      Associates(OnDay(entries[0], identity), SameDay(entries[1..], identity), OnDay(e, identity));
    }
  }

  lemma {:induction false} SameDayPicks(entries: seq<Entry>, identity: Identity) returns (ix: seq<nat>)
    ensures PicksDay(entries, identity, ix)
    ensures |SameDay(entries, identity)| == |ix|
    ensures forall i | 0 <= i < |ix| :: SameDay(entries, identity)[i] == entries[ix[i]]
  {
    if entries == [] {
      ix := [];
    } else {
      var n := |entries| - 1;
      var front := SameDayPicks(entries[..n], identity);
      SameDayAdds(entries[..n], entries[n], identity);
      assert entries == entries[..n] + [entries[n]];
      ix := if OneDay(entries[n].id.identity, identity) then front + [n] else front;
      hide SameDay, PicksDay;
      PicksMore(entries, identity, front, ix);
    }
  }

  lemma PicksMore(entries: seq<Entry>, identity: Identity, front: seq<nat>, ix: seq<nat>)
    requires entries != [] && PicksDay(entries[..|entries| - 1], identity, front)
    requires var n := |entries| - 1; ix == if OneDay(entries[n].id.identity, identity) then front + [n] else front
    ensures PicksDay(entries, identity, ix)
  {
    var n := |entries| - 1;
    hide OneDay, Picked;
    forall m: nat | m < |entries|
      ensures Picked(ix, m) <==> OneDay(entries[m].id.identity, identity)
    {
      PickedMore(front, ix, n, m);
      if m < n {
        assert entries[..n][m] == entries[m];
      }
    }
  }

  lemma PickedMore(front: seq<nat>, ix: seq<nat>, n: nat, m: nat)
    requires (ix == front || ix == front + [n]) && forall i | 0 <= i < |front| :: front[i] < n
    ensures m < n ==> (Picked(ix, m) <==> Picked(front, m))
    ensures Picked(ix, n) <==> ix == front + [n]
  {
    if i :| 0 <= i < |front| && front[i] == m {
      assert ix[i] == m;
    }
    if ix == front + [n] {
      assert ix[|front|] == n;
    }
  }

  lemma {:induction false} ContentsAt(es: seq<Entry>)
    ensures |Contents(es)| == |es| && forall i | 0 <= i < |es| :: Contents(es)[i] == es[i].inventorySha.content
  {
    if es != [] {
      ContentsAt(es[1..]);
    }
  }

  /** The inventories of the picked entries, then the own one. */
  ghost predicate ComparedWith(compared: seq<Bytes>, entries: seq<Entry>, ix: seq<nat>, own: Bytes)
    requires forall i | 0 <= i < |ix| :: ix[i] < |entries|
  {
    && |compared| == |ix| + 1 && compared[|ix|] == own
    && forall i | 0 <= i < |ix| :: compared[i] == entries[ix[i]].inventorySha.content
  }

  lemma ComparedByIndex(entries: seq<Entry>, identity: Identity, own: Bytes) returns (ix: seq<nat>)
    ensures PicksDay(entries, identity, ix)
    ensures ComparedWith(Contents(SameDay(entries, identity)) + [own], entries, ix, own)
  {
    ix := SameDayPicks(entries, identity);
    ContentsAt(SameDay(entries, identity));
  }

  /**
    From an empty store, after any run: every entry was compared with the recorded inventories of
    exactly the earlier entries of its exchange and trading day, in ledger order, and then its own.
   */
  lemma LedgerComparesTheDay(events: seq<Event>, n: nat)
    requires n < |EntriesOf(Run(Disk(map[], map[], map[], Missing), events).ledger)|
    ensures var d := Run(Disk(map[], map[], map[], Missing), events);
      var entries := EntriesOf(d.ledger);
      var e := entries[n];
      && (forall m | 0 <= m <= n :: entries[m].id in d.inventories &&
           d.inventories[entries[m].id] == entries[m].inventorySha.content)
      && exists ix :: PicksDay(entries[..n], e.id.identity, ix) &&
           ComparedWith(e.compared, entries[..n], ix, e.inventorySha.content)
  {
    hide Run, Holds, Find, SameDay, Contents, PicksDay;
    LedgerIsSound(events);
    var d := Run(Disk(map[], map[], map[], Missing), events);
    var entries := EntriesOf(d.ledger);
    assert EntryOk(d, entries, n);
    forall m | 0 <= m <= n
      ensures Holds(d, entries[m])
    {
      assert EntryOk(d, entries, m);
    }
    HoldInventories(d, entries, n);
    var ix := ComparedByIndex(entries[..n], entries[n].id.identity, entries[n].inventorySha.content);
  }

  lemma HoldInventories(d: Disk, entries: seq<Entry>, n: nat)
    requires n < |entries| && forall m | 0 <= m <= n :: Holds(d, entries[m])
    ensures forall m | 0 <= m <= n ::
      entries[m].id in d.inventories && d.inventories[entries[m].id] == entries[m].inventorySha.content
  {
  }

  lemma VerifiedIffHolds(d: Disk, e: Entry)
    ensures VerifyEntry(d, e).Verified? <==> Holds(d, e)
    ensures Holds(d, e) ==> VerifyEntry(d, e) == Verified([e.inventorySha.content])
  {
  }

  /** Why an entry does not verify: a missing file, other raw bytes, or another inventory, the raw file first. */
  lemma FailureIs(d: Disk, e: Entry)
    ensures var raw, inv := e.id.sha in d.raws, e.id in d.inventories;
      && (VerifyEntry(d, e) == Failed(RetainedSource) <==> raw && d.raws[e.id.sha] != e.id.sha.content)
      && (VerifyEntry(d, e) == Failed(RetainedInventory) <==>
            raw && d.raws[e.id.sha] == e.id.sha.content && inv && d.inventories[e.id] != e.inventorySha.content)
      && (VerifyEntry(d, e) == Failed(FileMissing) <==> !raw || (d.raws[e.id.sha] == e.id.sha.content && !inv))
  {
  }

  lemma {:induction false} AllVerifiedIff(d: Disk, es: seq<Entry>)
    ensures VerifyAll(d, es).Verified? <==> forall i | 0 <= i < |es| :: Holds(d, es[i])
  {
    if es != [] {
      hide VerifyEntry, Holds;
      AllVerifiedIff(d, es[1..]);
      VerifiedIffHolds(d, es[0]);
      assert forall i | 1 <= i < |es| :: es[i] == es[1..][i - 1];
    }
  }

  /** Every entry of the exchange and trading day has the files its digests name. */
  ghost predicate DayIntact(d: Disk, entries: seq<Entry>, identity: Identity) {
    forall m | 0 <= m < |entries| && OneDay(entries[m].id.identity, identity) :: Holds(d, entries[m])
  }

  lemma DayVerifiedIff(d: Disk, entries: seq<Entry>, identity: Identity)
    ensures VerifyAll(d, SameDay(entries, identity)).Verified? <==> DayIntact(d, entries, identity)
  {
    var ix := SameDayPicks(entries, identity);
    var es := SameDay(entries, identity);
    AllVerifiedIff(d, es);
    hide Holds, SameDay, VerifyAll;
    if forall i | 0 <= i < |es| :: Holds(d, es[i]) {
      forall m | 0 <= m < |entries| && OneDay(entries[m].id.identity, identity)
        ensures Holds(d, entries[m])
      {
        assert Picked(ix, m);
        var i :| 0 <= i < |ix| && ix[i] == m;
        assert Holds(d, es[i]);
      }
    }
    if DayIntact(d, entries, identity) {
      forall i | 0 <= i < |es|
        ensures Holds(d, es[i])
      {
        assert Picked(ix, ix[i]);
      }
    }
  }

  /** The recorded inventories of the day's entries, in ledger order. */
  ghost predicate ListsDay(inventories: seq<Bytes>, entries: seq<Entry>, identity: Identity, ix: seq<nat>) {
    && PicksDay(entries, identity, ix) && |inventories| == |ix|
    && forall i | 0 <= i < |ix| :: inventories[i] == entries[ix[i]].inventorySha.content
  }

  lemma PriorIsTheDay(d: Disk, entries: seq<Entry>, identity: Identity)
    ensures var prior := VerifyAll(d, SameDay(entries, identity));
      && (prior.Verified? <==> DayIntact(d, entries, identity))
      && (prior.Verified? ==> exists ix :: ListsDay(prior.inventories, entries, identity, ix))
  {
    DayVerifiedIff(d, entries, identity);
    VerifyAllContents(d, SameDay(entries, identity));
    var ix := SameDayPicks(entries, identity);
    ContentsAt(SameDay(entries, identity));
    hide VerifyAll, SameDay, Contents, DayIntact, PicksDay;
    assert ListsDay(Contents(SameDay(entries, identity)), entries, identity, ix);
  }

  // ---------------------------------------------------------------- what an ingest answers

  /** Re-ingesting returns the stored entry and writes nothing. */
  lemma KnownIsReturned(d: Disk, req: Request, now: nat, e: Entry)
    requires Sound(d) && e in EntriesOf(d.ledger) && req.Id() == e.id && Validate(req).None?
    ensures IngestOn(d, req, now, Never) == (d, Returned(e)) && DryRun(d, req, now) == Returned(e)
  {
    hide Sound, Find, VerifyEntry, Register;
    SoundFinds(d, e);
    SoundHolds(d, e);
    assert d.raws[req.Sha()] == req.raw;
    assert d.(raws := d.raws) == d;
  }

  predicate Fits<K(==)>(files: map<K, Bytes>, path: K, data: Bytes) {
    path in files ==> files[path] == data
  }

  /** The store after an ingest that went through. */
  function Ingested(d: Disk, req: Request, e: Entry): Disk {
    var stored := d.(raws := d.raws[req.Sha() := req.raw], inventories := d.inventories[req.Id() := req.inventory]);
    if !Barred(req) then stored.(ledger := Entries(EntriesOf(d.ledger) + [e]))
    else if req.Id() in d.rejections then stored
    else stored.(rejections := d.rejections[req.Id() := Whole(e)])
  }

  ghost predicate Fresh(d: Disk, req: Request) {
    Validate(req).None? && !d.ledger.Foreign? && Find(EntriesOf(d.ledger), req.Id()).None?
  }

  function EntryFor(d: Disk, req: Request, now: nat): Entry {
    NewEntry(req, now, Contents(SameDay(EntriesOf(d.ledger), req.identity)))
  }

  lemma PutSame<K, V>(m: map<K, V>, k: K)
    requires k in m
    ensures m[k := m[k]] == m
  {
  }

  lemma ImmutableFits<K>(files: map<K, Bytes>, path: K, data: Bytes)
    ensures Immutable(files, path, data) == if Fits(files, path, data) then Some(files[path := data]) else None
  {
    if path in files && files[path] == data {
      PutSame(files, path);
    }
  }

  /** A new request goes through exactly when its two files are absent or already hold its bytes. */
  lemma NewIsIngested(d: Disk, req: Request, now: nat)
    requires Sound(d) && Fresh(d, req)
    ensures IngestOn(d, req, now, Never).1.Returned? <==>
      Fits(d.raws, req.Sha(), req.raw) && Fits(d.inventories, req.Id(), req.inventory)
    ensures IngestOn(d, req, now, Never).1.Returned? ==>
      IngestOn(d, req, now, Never) == (Ingested(d, req, EntryFor(d, req, now)), Returned(EntryFor(d, req, now)))
    ensures !IngestOn(d, req, now, Never).1.Returned? ==> IngestOn(d, req, now, Never).1 == Raised(RetainedSource)
  {
    hide Sound, Find, VerifyEntry, VerifyAll, SameDay, Contents, Validate, NewEntry;
    ImmutableFits(d.raws, req.Sha(), req.raw);
    ImmutableFits(d.inventories, req.Id(), req.inventory);
    if Fits(d.raws, req.Sha(), req.raw) && Fits(d.inventories, req.Id(), req.inventory) {
      var d2 := d.(raws := d.raws[req.Sha() := req.raw], inventories := d.inventories[req.Id() := req.inventory]);
      SoundStays(d, d2);
      SoundDay(d2, req.identity);
    }
  }

  /**
    In any store, damaged ones included: new evidence whose own two files fit goes through exactly when
    every entry of its exchange and trading day still has the files its digests name; entries of other
    days play no part. It is compared with exactly those.
   */
  lemma FreshIffDayIntact(d: Disk, req: Request, now: nat)
    requires Fresh(d, req) && Fits(d.raws, req.Sha(), req.raw) && Fits(d.inventories, req.Id(), req.inventory)
    ensures var written := d.(raws := d.raws[req.Sha() := req.raw],
                              inventories := d.inventories[req.Id() := req.inventory]);
      IngestOn(d, req, now, Never).1.Returned? <==> DayIntact(written, EntriesOf(d.ledger), req.identity)
    ensures IngestOn(d, req, now, Never).1.Returned? ==>
      var e := IngestOn(d, req, now, Never).1.entry;
      && e.id == EntryId(Digest(req.raw), req.identity) && e.inventorySha == Digest(req.inventory)
      && e.acquired == now && e.dates == req.dates && e.rejected == req.rejected
      && exists ix :: PicksDay(EntriesOf(d.ledger), req.identity, ix) &&
           ComparedWith(e.compared, EntriesOf(d.ledger), ix, req.inventory)
  {
    hide Find, VerifyEntry, VerifyAll, SameDay, Contents, Validate, PicksDay, ComparedWith, DayIntact;
    ImmutableFits(d.raws, req.Sha(), req.raw);
    ImmutableFits(d.inventories, req.Id(), req.inventory);
    var d2 := d.(raws := d.raws[req.Sha() := req.raw], inventories := d.inventories[req.Id() := req.inventory]);
    var es := SameDay(EntriesOf(d.ledger), req.identity);
    DayVerifiedIff(d2, EntriesOf(d.ledger), req.identity);
    VerifyAllContents(d2, es);
    var ix := ComparedByIndex(EntriesOf(d.ledger), req.identity, req.inventory);
  }

  lemma ReturnedWasValid(d: Disk, req: Request, now: nat)
    requires IngestOn(d, req, now, Never).1.Returned?
    ensures Validate(req).None? && !d.ledger.Foreign?
  {
  }

  /** A dry run gives the entry an ingest would, but for the date, and sees no file that would refuse it. */
  lemma DryRunAgrees(d: Disk, req: Request, now: nat, later: nat)
    requires Sound(d) && IngestOn(d, req, now, Never).1.Returned?
    ensures DryRun(d, req, later).Returned?
    ensures DryRun(d, req, later).entry.(acquired := now) == IngestOn(d, req, now, Never).1.entry.(acquired := now)
    ensures Find(EntriesOf(d.ledger), req.Id()).None? ==> DryRun(d, req, later).entry.acquired == later
  {
    hide Sound, IngestOn, VerifyAll, SameDay, Contents, VerifyEntry;
    ReturnedWasValid(d, req, now);
    var found := Find(EntriesOf(d.ledger), req.Id());
    if found.Some? {
      KnownIsReturned(d, req, now, found.value);
      KnownIsReturned(d, req, later, found.value);
    } else {
      NewIsIngested(d, req, now);
      SoundDay(d, req.identity);
    }
  }

  /** Once accepted, the same evidence gets the same entry back, whatever happened in between. */
  lemma AcceptedForGood(d: Disk, req: Request, now: nat, events: seq<Event>, again: Request, later: nat)
    requires Sound(d) && IngestOn(d, req, now, Never).1.Returned? && !Barred(req)
    requires again.Id() == req.Id() && Validate(again).None?
    ensures var d' := Run(IngestOn(d, req, now, Never).0, events);
      IngestOn(d', again, later, Never) == (d', IngestOn(d, req, now, Never).1)
  {
    hide Sound, IngestOn, Run, Find;
    var d1 := IngestOn(d, req, now, Never).0;
    var e := IngestOn(d, req, now, Never).1.entry;
    IngestSound(d, req, now, Never);
    assert e in EntriesOf(d1.ledger) && e.id == req.Id() by {
      ReturnedIsStored(d, req, now);
    }
    RunSound(d1, events);
    KnownIsReturned(Run(d1, events), again, later, e);
  }

  lemma ReturnedIsStored(d: Disk, req: Request, now: nat)
    requires Sound(d) && IngestOn(d, req, now, Never).1.Returned? && !Barred(req)
    ensures var (d1, o) := IngestOn(d, req, now, Never); o.entry in EntriesOf(d1.ledger) && o.entry.id == req.Id()
  {
  }

  /** Empty evidence or more than 64 MiB, and bytes that are not the claimed ones, are refused without a trace. */
  lemma InvalidIsRefused(d: Disk, req: Request, now: nat, crash: Crash)
    ensures req.raw == [] || |req.raw| > 67108864 ==>
      IngestOn(d, req, now, crash) == (d, Raised(SourceSize)) && DryRun(d, req, now) == Raised(SourceSize)
    ensures 0 < |req.raw| <= 67108864 && req.claimed.Some? && req.claimed.value.content != req.raw ==>
      IngestOn(d, req, now, crash) == (d, Raised(SourceHash)) && DryRun(d, req, now) == Raised(SourceHash)
    ensures 0 < |req.raw| <= 67108864 && (req.claimed.None? || req.claimed.value.content == req.raw) ==>
      Validate(req).None?
  {
  }

  /** A ledger of another schema refuses everything that is valid. */
  lemma ForeignIsRefused(d: Disk, req: Request, now: nat)
    requires Validate(req).None? && d.ledger.Foreign?
    ensures DryRun(d, req, now) == Raised(Schema)
    ensures Fits(d.raws, req.Sha(), req.raw) ==> IngestOn(d, req, now, Never).1 == Raised(Schema)
  {
  }

  /**
    In any store, damaged ones included: known evidence gets its entry back exactly when the files that the
    entry's digests name are there, and the ledger stays as it is.
   */
  lemma KnownIffIntact(d: Disk, req: Request, now: nat, e: Entry)
    requires Validate(req).None? && !d.ledger.Foreign? && Find(EntriesOf(d.ledger), req.Id()) == Some(e)
    requires Fits(d.raws, req.Sha(), req.raw)
    ensures var written := d.(raws := d.raws[req.Sha() := req.raw]);
      && (IngestOn(d, req, now, Never) == (written, Returned(e)) <==> Holds(written, e))
      && (DryRun(d, req, now) == Returned(e) <==> Holds(d, e))
      && IngestOn(d, req, now, Never).0.ledger == d.ledger
      && (IngestOn(d, req, now, Never).1.Returned? || IngestOn(d, req, now, Never).1.Raised?)
      && (!Holds(written, e) ==>
            VerifyEntry(written, e).Failed? && IngestOn(d, req, now, Never).1 == Raised(VerifyEntry(written, e).error))
  {
    ImmutableFits(d.raws, req.Sha(), req.raw);
    VerifiedIffHolds(d.(raws := d.raws[req.Sha() := req.raw]), e);
    VerifiedIffHolds(d, e);
    hide Find, VerifyEntry, Validate, Holds;
  }

  // ---------------------------------------------------------------- after a crash

  /** The crash left a file that exists but does not hold its bytes. */
  predicate Tears(d: Disk, req: Request, crash: Crash) {
    crash.At? &&
    match crash.point
    case RawWrite => req.Sha() !in d.raws && crash.kept < |req.raw|
    case InventoryWrite => req.Id() !in d.inventories && crash.kept < |req.inventory|
    case FinalWrite => false
  }

  /** A retry after a crash succeeds exactly when no write was cut short. */
  lemma RetrySucceedsIffNotTorn(d: Disk, req: Request, now: nat, crash: Crash, later: nat)
    requires Sound(d) && Fresh(d, req) && IngestOn(d, req, now, Never).1.Returned? && crash.At?
    ensures IngestOn(IngestOn(d, req, now, crash).0, req, later, Never).1.Returned? <==> !Tears(d, req, crash)
  {
    hide Sound, IngestOn, VerifyAll, SameDay, Contents, VerifyEntry, Find;
    var d1 := IngestOn(d, req, now, crash).0;
    NewIsIngested(d, req, now);
    IngestSound(d, req, now, crash);
    CrashLeaves(d, req, now, crash);
    if Find(EntriesOf(d1.ledger), req.Id()).Some? {
      KnownIsReturned(d1, req, later, Find(EntriesOf(d1.ledger), req.Id()).value);
    } else {
      NewIsIngested(d1, req, later);
    }
  }

  lemma CrashLeaves(d: Disk, req: Request, now: nat, crash: Crash)
    requires Sound(d) && Fresh(d, req) && crash.At?
    requires Fits(d.raws, req.Sha(), req.raw) && Fits(d.inventories, req.Id(), req.inventory)
    ensures var d1 := IngestOn(d, req, now, crash).0;
      && !d1.ledger.Foreign?
      && (Fits(d1.raws, req.Sha(), req.raw) && Fits(d1.inventories, req.Id(), req.inventory) <==> !Tears(d, req, crash))
      && (Tears(d, req, crash) ==> d1.ledger == d.ledger)
  {
    hide Sound, Find, VerifyAll, SameDay, Contents, Validate, VerifyEntry;
    ImmutableFits(d.raws, req.Sha(), req.raw);
    ImmutableFits(d.inventories, req.Id(), req.inventory);
  }

  /** The ledger is replaced as a whole: a crash in that write leaves the old one or the new one, nothing between. */
  lemma CommitIsAtomic(d: Disk, req: Request, now: nat, kept: nat)
    requires Sound(d) && Fresh(d, req) && IngestOn(d, req, now, Never).1.Returned? && !Barred(req)
    ensures var (done, outcome) := IngestOn(d, req, now, Never);
      IngestOn(d, req, now, At(FinalWrite, kept)) == (if kept == 0 then done.(ledger := d.ledger) else done, Crashed)
  {
    hide Sound, Find, VerifyAll, SameDay, Contents, Validate, VerifyEntry;
  }

  /** A rejection is written once: a crash in that write leaves a torn file or the whole record. */
  lemma RejectionIsKept(d: Disk, req: Request, now: nat, kept: nat)
    requires Sound(d) && Fresh(d, req) && IngestOn(d, req, now, Never).1.Returned? && Barred(req)
    ensures var (done, outcome) := IngestOn(d, req, now, Never);
      && done.ledger == d.ledger
      && (req.Id() in d.rejections ==>
            done.rejections == d.rejections && IngestOn(d, req, now, At(FinalWrite, kept)) == (done, outcome))
      && (req.Id() !in d.rejections ==>
            && done.rejections == d.rejections[req.Id() := Whole(outcome.entry)]
            && IngestOn(d, req, now, At(FinalWrite, kept)) ==
                 (if kept == 0 then done.(rejections := d.rejections[req.Id() := Torn]) else done, Crashed))
  {
    hide Sound, Find, VerifyAll, SameDay, Contents, Validate, VerifyEntry;
    NewIsIngested(d, req, now);
  }

  /** A torn raw file is never repaired: every later ingest of those bytes is refused. */
  lemma TornRawIsForever(d: Disk, events: seq<Event>, req: Request, now: nat)
    requires Sound(d) && Validate(req).None? && !Fits(d.raws, req.Sha(), req.raw)
    ensures IngestOn(Run(d, events), req, now, Never).1 == Raised(RetainedSource)
  {
    hide Sound, Run;
    RunSound(d, events);
  }

  // ---------------------------------------------------------------- the engine

  class EvidenceEngine {
    var raws: map<Digest, Bytes>
    var inventories: map<EntryId, Bytes>
    var rejections: map<EntryId, Rejection>
    var ledger: Ledger

    constructor ()
      ensures Now() == Disk(map[], map[], map[], Missing)
    {
      raws, inventories, rejections, ledger := map[], map[], map[], Missing;
    }

    function Now(): Disk
      reads this
    {
      Disk(raws, inventories, rejections, ledger)
    }

    /** The stored entry with this id, if any, in ledger order. */
    method Stored(entries: seq<Entry>, id: EntryId) returns (found: Option<Entry>)
      ensures found == Find(entries, id)
    {
      var i := 0;
      while i < |entries|
        invariant 0 <= i <= |entries|
        invariant Find(entries, id) == Find(entries[i..], id)
      {
        assert entries[i..][0] == entries[i] && entries[i..][1..] == entries[i + 1..];
        if entries[i].id == id {
          return Some(entries[i]);
        }
        i := i + 1;
      }
      return None;
    }

    /** The inventories of the day's earlier entries, each verified before it is used. */
    method Prior(entries: seq<Entry>, identity: Identity) returns (prior: Check)
      ensures prior == VerifyAll(Now(), SameDay(entries, identity))
      ensures prior.Verified? <==> DayIntact(Now(), entries, identity)
      ensures prior.Verified? ==> exists ix :: ListsDay(prior.inventories, entries, identity, ix)
    {
      PriorIsTheDay(Now(), entries, identity);
      hide VerifyEntry, SameDay, DayIntact, ListsDay;
      var sameDay := SameDay(entries, identity);
      var found: seq<Bytes> := [];
      var i := 0;
      while i < |sameDay|
        invariant 0 <= i <= |sameDay|
        invariant VerifyAll(Now(), sameDay) == Joined(found, VerifyAll(Now(), sameDay[i..]))
      {
        assert sameDay[i..][0] == sameDay[i] && sameDay[i..][1..] == sameDay[i + 1..];
        var check := VerifyEntry(Now(), sameDay[i]);
        if check.Failed? {
          return check;
        }
        found := found + check.inventories;
        i := i + 1;
      }
      assert sameDay[i..] == [] && found + [] == found;
      return Verified(found);
    }

    /** `acquired` is the clock's answer; `crash` says where, if anywhere, the process dies. */
    method Ingest(req: Request, acquired: nat, dryRun: bool, crash: Crash) returns (outcome: Outcome)
      modifies this
      ensures dryRun ==> Now() == old(Now()) && outcome == DryRun(old(Now()), req, acquired)
      ensures !dryRun ==> (Now(), outcome) == IngestOn(old(Now()), req, acquired, crash)
    {
      hide VerifyAll, SameDay, Find, VerifyEntry;
      if Validate(req).Some? {
        return Raised(Validate(req).value);
      }
      if !dryRun {
        if crash.At? && crash.point == RawWrite {
          raws := CutOff(raws, req.Sha(), req.raw, crash.kept);
          return Crashed;
        }
        if req.Sha() !in raws {
          raws := raws[req.Sha() := req.raw];
        } else if raws[req.Sha()] != req.raw {
          return Raised(RetainedSource);
        }
      }
      if ledger.Foreign? {
        return Raised(Schema);
      }
      var entries := EntriesOf(ledger);
      var known := Stored(entries, req.Id());
      if known.Some? {
        var check := VerifyEntry(Now(), known.value);
        return if check.Failed? then Raised(check.error) else Returned(known.value);
      }
      if !dryRun {
        if crash.At? && crash.point == InventoryWrite {
          inventories := CutOff(inventories, req.Id(), req.inventory, crash.kept);
          return Crashed;
        }
        if req.Id() !in inventories {
          inventories := inventories[req.Id() := req.inventory];
        } else if inventories[req.Id()] != req.inventory {
          return Raised(RetainedSource);
        }
      }
      var prior := Prior(entries, req.identity);
      if prior.Failed? {
        return Raised(prior.error);
      }
      var entry := NewEntry(req, acquired, prior.inventories);
      if dryRun {
        return Returned(entry);
      }
      if Barred(req) {
        if req.Id() !in rejections {
          if crash.At? && crash.point == FinalWrite {
            rejections := rejections[req.Id() := if crash.kept == 0 then Torn else Whole(entry)];
            return Crashed;
          }
          rejections := rejections[req.Id() := Whole(entry)];
        }
        return Returned(entry);
      }
      if crash.At? && crash.point == FinalWrite && crash.kept == 0 {
        return Crashed;
      }
      ledger := Entries(entries + [entry]);
      return if crash.At? && crash.point == FinalWrite then Crashed else Returned(entry);
    }
  }

  function Joined(found: seq<Bytes>, rest: Check): Check {
    if rest.Failed? then rest else Verified(found + rest.inventories)
  }
}
