/**
  Merging and guarding the runner's configuration (backend/app/scalper.py:112-119, 198-249).

  Reading and writing JSON text is the identity here.  The default configuration is a parameter of
  which only the execution fields are fixed; the server's environment check is a boolean input.
 */
module ConfigMerge {
  import opened Wrappers

  type Key = string
  datatype Json =
    | Null
    | Bool(b: bool)
    | Number(n: real)
    | Str(s: string)
    | List(items: seq<Json>)
    | Dict(fields: Config)
  type Config = map<Key, Json>

  // ---------------------------------------------------------------- _deep_merge

  function Merge(base: Config, over: Config): (r: Config)
    ensures r.Keys == base.Keys + over.Keys
    decreases Dict(over)
  {
    map k | k in base.Keys + over.Keys :: MergedAt(base, over, k)
  }

  function MergedAt(base: Config, over: Config, k: Key): Json
    requires k in base || k in over
    decreases Dict(over), 0
  {
    if k !in over then base[k]
    else if over[k].Dict? && k in base && base[k].Dict? then Dict(Merge(base[k].fields, over[k].fields))
    else over[k]
  }

  lemma MergeAt(base: Config, over: Config, k: Key)
    requires k in base || k in over
    ensures k in Merge(base, over) && Merge(base, over)[k] == MergedAt(base, over, k)
  {
  }

  /** Nothing of `x` is left after merging `y` over it. */
  ghost predicate Covers(x: Config, y: Config)
    decreases Dict(y)
  {
    forall k | k in x :: CoversAt(x, y, k)
  }

  ghost predicate CoversAt(x: Config, y: Config, k: Key)
    requires k in x
    decreases Dict(y), 0
  {
    k in y && (x[k].Dict? && y[k].Dict? ==> Covers(x[k].fields, y[k].fields))
  }

  /** A merge leaves exactly the patch when, and only when, the patch covers the base. */
  lemma {:induction false} CoveredIff(x: Config, y: Config)
    ensures Merge(x, y) == y <==> Covers(x, y)
    decreases Dict(y)
  {
    hide Merge;
    forall k | k in x || k in y
      ensures k in x && k in y ==> (MergedAt(x, y, k) == y[k] <==> CoversAt(x, y, k))
      ensures k in Merge(x, y) && Merge(x, y)[k] == MergedAt(x, y, k)
      ensures k in x && k !in y ==> !CoversAt(x, y, k)
    {
      MergeAt(x, y, k);
      if k in x && k in y && x[k].Dict? && y[k].Dict? {
        CoveredIff(x[k].fields, y[k].fields);
      }
    }
    hide CoversAt;
    if Covers(x, y) {
      assert forall k | k in x :: CoversAt(x, y, k);
      assert Merge(x, y).Keys == y.Keys;
    }
    if Merge(x, y) == y {
      forall k | k in x
        ensures CoversAt(x, y, k)
      {
        assert k in Merge(x, y);
      }
    }
  }

  lemma SameConfig(x: Config, y: Config)
    requires x.Keys == y.Keys && forall k | k in x :: x[k] == y[k]
    ensures x == y
  {
  }

  /** Merging the same patch twice is merging it once. */
  lemma {:induction false} Idempotent(base: Config, over: Config)
    ensures Merge(Merge(base, over), over) == Merge(base, over)
    decreases Dict(over)
  {
    hide Merge, Covers;
    var once := Merge(base, over);
    var twice := Merge(once, over);
    forall k | k in once
      ensures k in twice && twice[k] == once[k]
    {
      MergeAt(base, over, k);
      MergeAt(once, over, k);
      if k in over && over[k].Dict? {
        if k in base && base[k].Dict? {
          Idempotent(base[k].fields, over[k].fields);
        } else {
          SelfCovered(over[k].fields);
        }
      }
    }
    SameConfig(once, twice);
  }

  lemma {:induction false} SelfCovered(x: Config)
    ensures Merge(x, x) == x
    decreases Dict(x)
  {
    hide Merge;
    forall k | k in x
      ensures CoversAt(x, x, k)
    {
      if x[k].Dict? {
        SelfCovered(x[k].fields);
        CoveredIff(x[k].fields, x[k].fields);
      }
    }
    CoveredIff(x, x);
  }

  /** No key goes from an object through a non-object back to an object that does not cover the first. */
  ghost predicate NoClash(a: Config, b: Config, c: Config)
    decreases Dict(c)
  {
    forall k | k in c :: NoClashAt(a, b, c, k)
  }

  ghost predicate NoClashAt(a: Config, b: Config, c: Config, k: Key)
    requires k in c
    decreases Dict(c), 0
  {
    c[k].Dict? && k in b && k in a && a[k].Dict? ==>
      if b[k].Dict? then NoClash(a[k].fields, b[k].fields, c[k].fields) else Covers(a[k].fields, c[k].fields)
  }

  lemma {:induction false} AssociativeAt(a: Config, b: Config, c: Config, k: Key)
    requires k in a || k in b || k in c
    ensures k in Merge(Merge(a, b), c) && k in Merge(a, Merge(b, c))
    ensures k in c ==> (Merge(Merge(a, b), c)[k] == Merge(a, Merge(b, c))[k] <==> NoClashAt(a, b, c, k))
    ensures k !in c ==> Merge(Merge(a, b), c)[k] == Merge(a, Merge(b, c))[k]
    decreases Dict(c), 0
  {
    hide Merge, Covers, NoClash;
    MergeAt(Merge(a, b), c, k);
    MergeAt(a, Merge(b, c), k);
    if k in a || k in b {
      MergeAt(a, b, k);
    }
    if k in b || k in c {
      MergeAt(b, c, k);
    }
    if k in c && c[k].Dict? && k in a && a[k].Dict? {
      CoveredIff(a[k].fields, c[k].fields);
      if k in b && b[k].Dict? {
        AssociativeIff(a[k].fields, b[k].fields, c[k].fields);
      }
    }
  }

  /** Patching in two steps is patching with the merged patch exactly when no object clashes. */
  lemma {:induction false} AssociativeIff(a: Config, b: Config, c: Config)
    ensures Merge(Merge(a, b), c) == Merge(a, Merge(b, c)) <==> NoClash(a, b, c)
    decreases Dict(c)
  {
    hide Merge, NoClashAt;
    var left, right := Merge(Merge(a, b), c), Merge(a, Merge(b, c));
    assert left.Keys == right.Keys;
    forall k | k in left
      ensures k in c ==> (left[k] == right[k] <==> NoClashAt(a, b, c, k))
      ensures k !in c ==> left[k] == right[k]
    {
      AssociativeAt(a, b, c, k);
    }
    if NoClash(a, b, c) {
      SameConfig(left, right);
    } else {
      var k :| k in c && !NoClashAt(a, b, c, k);
      assert k in left;
    }
  }

  // ---------------------------------------------------------------- get_config and set_config

  const SECRET: Key := "live_confirm_token"
  const MODE: Key := "execution_mode"
  const ENABLED: Key := "execution_enabled"
  const AUTO_EXIT: Key := "execution_auto_exit"
  const BROKER_EXITS: Key := "execution_place_broker_exits"

  /** The default configuration, as far as it matters here. */
  ghost predicate Defaults(d: Config) {
    && SECRET !in d
    && MODE in d && d[MODE] == Str("PAPER")
    && ENABLED in d && d[ENABLED] == Bool(false)
    && AUTO_EXIT in d && d[AUTO_EXIT] == Bool(false)
    && BROKER_EXITS in d && d[BROKER_EXITS] == Bool(false)
  }

  /** `str.upper` on the letters that occur in a mode. */
  function UpperChar(c: char): char {
    if 'a' <= c <= 'z' then c - 32 as char
    else if c == '\U{131}' then 'I'
    else if c == '\U{17F}' then 'S'
    else c
  }

  function Upper(s: string): string {
    seq(|s|, i requires 0 <= i < |s| => UpperChar(s[i]))
  }

  predicate IsMode(s: string) {
    s == "PAPER" || s == "SHADOW" || s == "LIVE"
  }

  predicate Truthy(j: Json) {
    match j
    case Null => false
    case Bool(b) => b
    case Number(n) => n != 0.0
    case Str(s) => s != ""
    case List(items) => items != []
    case Dict(fields) => fields != map[]
  }

  function At(cfg: Config, k: Key): Json {
    if k in cfg then cfg[k] else Null
  }

  /** The stored object without the legacy secret; nothing stored, or nothing readable, is {}. */
  function Loaded(stored: Option<Config>): Config {
    if stored.Some? then stored.value - {SECRET} else map[]
  }

  function Get(d: Config, stored: Option<Config>): Config {
    Merge(d, Loaded(stored))
  }

  datatype Error = SecretGiven | UnknownField | BadMode | NotBoolean | ExitsNeedLive | DisableFirst | LiveBlocked
  datatype Result = Saved(cfg: Config) | Refused(error: Error)

  function Checked(current: Config, merged: Config, safeguards: bool): Result {
    if !At(merged, MODE).Str? || !IsMode(Upper(At(merged, MODE).s)) then Refused(BadMode)
    else
      var mode := Upper(At(merged, MODE).s);
      var cfg := merged[MODE := Str(mode)];
      if !At(cfg, ENABLED).Bool? || !At(cfg, AUTO_EXIT).Bool? || !At(cfg, BROKER_EXITS).Bool? then Refused(NotBoolean)
      else if (At(cfg, AUTO_EXIT).b || At(cfg, BROKER_EXITS).b) && mode != "LIVE" then Refused(ExitsNeedLive)
      else if Truthy(At(current, ENABLED)) && At(cfg, ENABLED).b && At(current, MODE) != Str(mode) then
        Refused(DisableFirst)
      else if mode == "LIVE" && At(cfg, ENABLED).b && !safeguards then Refused(LiveBlocked)
      else Saved(cfg)
  }

  function Set(d: Config, stored: Option<Config>, patch: Config, safeguards: bool): Result {
    if SECRET in patch then Refused(SecretGiven)
    else if !(patch.Keys <= d.Keys) then Refused(UnknownField)
    else Checked(Get(d, stored), Merge(Get(d, stored), patch), safeguards)
  }

  // ---------------------------------------------------------------- when a patch is saved

  /** The letters of the mode, each in either case; dotless i and long s count too. */
  ghost predicate Spells(s: string, mode: string) {
    |s| == |mode| && forall i | 0 <= i < |s| :: SpellsAt(s[i], mode[i])
  }

  predicate SpellsAt(c: char, letter: char) {
    || c == letter || c as int == letter as int + 32
    || (c == '\U{131}' && letter == 'I') || (c == '\U{17F}' && letter == 'S')
  }

  predicate Capitals(mode: string) {
    forall i | 0 <= i < |mode| :: 'A' <= mode[i] <= 'Z'
  }

  lemma UpperIff(s: string, mode: string)
    requires Capitals(mode)
    ensures Upper(s) == mode <==> Spells(s, mode)
  {
    forall i | 0 <= i < |s| && i < |mode|
      ensures UpperChar(s[i]) == mode[i] <==> SpellsAt(s[i], mode[i])
    {
    }
    if Upper(s) == mode {
      assert forall i | 0 <= i < |s| :: Upper(s)[i] == UpperChar(s[i]);
    }
  }

  /** Whichever mode the merged value spells, if any. */
  ghost predicate SpellsMode(j: Json, mode: string) {
    j.Str? && Spells(j.s, mode) && (mode == "PAPER" || mode == "SHADOW" || mode == "LIVE")
  }

  ghost predicate SpellsNone(j: Json) {
    forall mode :: !SpellsMode(j, mode)
  }

  ghost predicate Has(cfg: Config, k: Key, j: Json) {
    k in cfg && cfg[k] == j
  }

  ghost predicate IsSwitch(cfg: Config, k: Key) {
    k in cfg && cfg[k].Bool?
  }

  /** Present, and neither null, false, zero nor empty. */
  ghost predicate Holds(cfg: Config, k: Key) {
    && k in cfg && cfg[k] != Null && cfg[k] != Bool(false) && cfg[k] != Number(0.0)
    && cfg[k] != Str("") && cfg[k] != List([]) && cfg[k] != Dict(map[])
  }

  ghost predicate AllSwitches(merged: Config) {
    && IsSwitch(merged, "execution_enabled") && IsSwitch(merged, "execution_auto_exit")
    && IsSwitch(merged, "execution_place_broker_exits")
  }

  ghost predicate ExitsAllowed(merged: Config, mode: string) {
    mode == "LIVE" ||
      !(Has(merged, "execution_auto_exit", Bool(true)) || Has(merged, "execution_place_broker_exits", Bool(true)))
  }

  ghost predicate ModeKept(current: Config, merged: Config, mode: string) {
    Holds(current, "execution_enabled") && Has(merged, "execution_enabled", Bool(true)) ==>
      Has(current, "execution_mode", Str(mode))
  }

  /** The five checks on what a patch makes of the current configuration, its mode being spelled as `mode`. */
  ghost predicate Passes(current: Config, merged: Config, safeguards: bool, mode: string) {
    && "execution_mode" in merged && SpellsMode(merged["execution_mode"], mode)
    && AllSwitches(merged) && ExitsAllowed(merged, mode) && ModeKept(current, merged, mode)
    && (mode == "LIVE" && Has(merged, "execution_enabled", Bool(true)) ==> safeguards)
  }

  lemma CheckedIff(current: Config, merged: Config, safeguards: bool, mode: string)
    requires IsMode(mode)
    ensures var r := Checked(current, merged, safeguards);
      && (r.Saved? && Has(r.cfg, MODE, Str(mode)) <==> Passes(current, merged, safeguards, mode))
      && (r.Saved? ==> MODE in r.cfg && r.cfg == merged[MODE := r.cfg[MODE]])
  {
    assert Capitals(mode);
    if At(merged, MODE).Str? {
      UpperIff(At(merged, MODE).s, mode);
    }
    assert MODE != ENABLED && MODE != AUTO_EXIT && MODE != BROKER_EXITS;
    hide Upper, Spells;
  }

  /**
    A patch is saved exactly when it has no secret and no unknown field, and what it makes of the current
    configuration spells a mode, has boolean switches, exits automatically in LIVE only, does not change
    the mode of an enabled execution and enables LIVE only with the safeguards; what is saved is that,
    with the mode in capitals.
   */
  lemma SavedIff(d: Config, stored: Option<Config>, patch: Config, safeguards: bool, mode: string)
    requires IsMode(mode)
    ensures var r, merged := Set(d, stored, patch, safeguards), Merge(Get(d, stored), patch);
      && (r.Saved? && Has(r.cfg, "execution_mode", Str(mode)) <==>
            "live_confirm_token" !in patch && patch.Keys <= d.Keys && Passes(Get(d, stored), merged, safeguards, mode))
      && (r.Saved? ==> "execution_mode" in r.cfg && r.cfg == merged["execution_mode" := r.cfg["execution_mode"]])
  {
    hide Merge, Get, Checked, Passes, IsMode;
    CheckedIff(Get(d, stored), Merge(Get(d, stored), patch), safeguards, mode);
  }

  lemma BadlySpelled(current: Config, merged: Config, safeguards: bool)
    ensures Checked(current, merged, safeguards) == Refused(BadMode) <==>
      SpellsNone(At(merged, "execution_mode"))
  {
    var j := At(merged, MODE);
    if j.Str? {
      UpperIff(j.s, "PAPER");
      UpperIff(j.s, "SHADOW");
      UpperIff(j.s, "LIVE");
      hide Upper, Spells;
      if IsMode(Upper(j.s)) {
        assert SpellsMode(j, Upper(j.s));
      }
    }
  }

  /** A mode that spells none of the three is refused as such, unless the patch is refused before that. */
  lemma BadModeIff(d: Config, stored: Option<Config>, patch: Config, safeguards: bool)
    ensures Set(d, stored, patch, safeguards) == Refused(BadMode) <==>
      && "live_confirm_token" !in patch && patch.Keys <= d.Keys
      && SpellsNone(At(Merge(Get(d, stored), patch), "execution_mode"))
  {
    hide Merge, Get, Checked, SpellsNone;
    BadlySpelled(Get(d, stored), Merge(Get(d, stored), patch), safeguards);
  }

  /** Which of the two early refusals a patch gets, before anything is read. */
  lemma RefusedEarly(d: Config, stored: Option<Config>, patch: Config, safeguards: bool)
    ensures Set(d, stored, patch, safeguards) == Refused(SecretGiven) <==> "live_confirm_token" in patch
    ensures Set(d, stored, patch, safeguards) == Refused(UnknownField) <==>
      "live_confirm_token" !in patch && !(patch.Keys <= d.Keys)
  {
    hide Merge, Get, Upper;
  }

  /** A patch that spells a mode is refused by the first of the other four checks it fails. */
  lemma RefusedBy(current: Config, merged: Config, safeguards: bool, mode: string)
    requires IsMode(mode) && "execution_mode" in merged && SpellsMode(merged["execution_mode"], mode)
    ensures var r := Checked(current, merged, safeguards);
      && (r == Refused(NotBoolean) <==> !AllSwitches(merged))
      && (r == Refused(ExitsNeedLive) <==> AllSwitches(merged) && !ExitsAllowed(merged, mode))
      && (r == Refused(DisableFirst) <==>
            AllSwitches(merged) && ExitsAllowed(merged, mode) && !ModeKept(current, merged, mode))
      && (r == Refused(LiveBlocked) <==>
            && AllSwitches(merged) && ExitsAllowed(merged, mode) && ModeKept(current, merged, mode)
            && mode == "LIVE" && Has(merged, "execution_enabled", Bool(true)) && !safeguards)
  {
    assert Capitals(mode);
    UpperIff(merged[MODE].s, mode);
    assert MODE != ENABLED && MODE != AUTO_EXIT && MODE != BROKER_EXITS;
    hide Upper, Spells;
  }

  // ---------------------------------------------------------------- what a saved configuration satisfies

  predicate On(cfg: Config, k: Key) {
    At(cfg, k) == Bool(true)
  }

  /** A valid mode, boolean switches, automatic exits only in LIVE, no secret. */
  ghost predicate Guarded(cfg: Config) {
    && SECRET !in cfg
    && At(cfg, MODE).Str? && IsMode(At(cfg, MODE).s)
    && At(cfg, ENABLED).Bool? && At(cfg, AUTO_EXIT).Bool? && At(cfg, BROKER_EXITS).Bool?
    && (On(cfg, AUTO_EXIT) || On(cfg, BROKER_EXITS) ==> At(cfg, MODE) == Str("LIVE"))
  }

  lemma SavedIsGuarded(d: Config, stored: Option<Config>, patch: Config, safeguards: bool)
    requires Defaults(d) && Set(d, stored, patch, safeguards).Saved?
    ensures Guarded(Set(d, stored, patch, safeguards).cfg)
    ensures var cfg := Set(d, stored, patch, safeguards).cfg; On(cfg, ENABLED) && At(cfg, MODE) == Str("LIVE") ==>
      safeguards
  {
  }

  /** Reading a guarded configuration gives its mode and switches back unchanged. */
  lemma GetKeepsGuards(d: Config, cfg: Config, k: Key)
    requires Guarded(cfg) && (k == MODE || k == ENABLED || k == AUTO_EXIT || k == BROKER_EXITS)
    ensures At(Get(d, Some(cfg)), k) == At(cfg, k)
  {
    hide Merge;
    assert cfg - {SECRET} == cfg;
    MergeAt(d, cfg, k);
  }

  /** Two configurations saved one after the other and both enabled have the same mode. */
  lemma EnabledKeepsMode(d: Config, cfg: Config, patch: Config, safeguards: bool)
    requires Defaults(d) && Guarded(cfg) && Set(d, Some(cfg), patch, safeguards).Saved?
    requires On(cfg, ENABLED) && On(Set(d, Some(cfg), patch, safeguards).cfg, ENABLED)
    ensures At(Set(d, Some(cfg), patch, safeguards).cfg, MODE) == At(cfg, MODE)
  {
    hide Upper, Merge, Get;
    GetKeepsGuards(d, cfg, MODE);
    GetKeepsGuards(d, cfg, ENABLED);
  }

  // ---------------------------------------------------------------- runs of set_config

  datatype Attempt = Attempt(patch: Config, safeguards: bool)

  /** What is stored after the attempts; a refused one stores nothing. */
  function After(d: Config, stored: Option<Config>, attempts: seq<Attempt>): Option<Config> {
    if attempts == [] then stored
    else
      var n := |attempts| - 1;
      var before := After(d, stored, attempts[..n]);
      var r := Set(d, before, attempts[n].patch, attempts[n].safeguards);
      if r.Saved? then Some(r.cfg) else before
  }

  ghost predicate WellStored(stored: Option<Config>) {
    stored.Some? ==> Guarded(stored.value)
  }

  lemma {:induction false} RunIsGuarded(d: Config, stored: Option<Config>, attempts: seq<Attempt>)
    requires Defaults(d) && WellStored(stored)
    ensures WellStored(After(d, stored, attempts))
  {
    hide Set, Guarded, Defaults;
    if attempts != [] {
      var n := |attempts| - 1;
      RunIsGuarded(d, stored, attempts[..n]);
      if Set(d, After(d, stored, attempts[..n]), attempts[n].patch, attempts[n].safeguards).Saved? {
        SavedIsGuarded(d, After(d, stored, attempts[..n]), attempts[n].patch, attempts[n].safeguards);
      }
    }
  }

  ghost predicate EnabledIn(stored: Option<Config>, mode: Json) {
    stored.Some? && On(stored.value, ENABLED) && At(stored.value, MODE) == mode
  }

  ghost predicate DisabledAfter(d: Config, stored: Option<Config>, attempts: seq<Attempt>, k: nat)
    requires k <= |attempts|
  {
    var s := After(d, stored, attempts[..k]);
    s.Some? && !On(s.value, ENABLED)
  }

  lemma TakeStep(d: Config, stored: Option<Config>, attempts: seq<Attempt>, n: nat)
    requires n < |attempts|
    ensures var before := After(d, stored, attempts[..n]);
      var r := Set(d, before, attempts[n].patch, attempts[n].safeguards);
      After(d, stored, attempts[..n + 1]) == if r.Saved? then Some(r.cfg) else before
  {
    hide Set;
    assert attempts[..n + 1][..n] == attempts[..n];
  }

  /** Enabled execution changes its mode only by way of a configuration in which it is disabled. */
  lemma {:induction false} ModeChangesThroughDisabled(d: Config, stored: Option<Config>, attempts: seq<Attempt>,
          i: nat, j: nat, from: Json, to: Json)
    requires Defaults(d) && WellStored(stored) && i < j <= |attempts| && from != to
    requires EnabledIn(After(d, stored, attempts[..i]), from) && EnabledIn(After(d, stored, attempts[..j]), to)
    ensures exists k | i < k < j :: DisabledAfter(d, stored, attempts, k)
    decreases j
  {
    hide Set, After, Defaults, Guarded;
    var before := After(d, stored, attempts[..j - 1]);
    RunIsGuarded(d, stored, attempts[..j - 1]);
    TakeStep(d, stored, attempts, j - 1);
    if before.Some? && On(before.value, ENABLED) {
      if Set(d, before, attempts[j - 1].patch, attempts[j - 1].safeguards).Saved? {
        EnabledKeepsMode(d, before.value, attempts[j - 1].patch, attempts[j - 1].safeguards);
      }
      assert EnabledIn(before, to);
      ModeChangesThroughDisabled(d, stored, attempts, i, j - 1, from, to);
    } else {
      StoredStays(d, stored, attempts, i, j - 1);
      assert DisabledAfter(d, stored, attempts, j - 1);
    }
  }

  lemma {:induction false} StoredStays(d: Config, stored: Option<Config>, attempts: seq<Attempt>, i: nat, j: nat)
    requires i <= j <= |attempts| && After(d, stored, attempts[..i]).Some?
    ensures After(d, stored, attempts[..j]).Some?
    decreases j
  {
    hide Set, After;
    if i < j {
      StoredStays(d, stored, attempts, i, j - 1);
      TakeStep(d, stored, attempts, j - 1);
    }
  }

  // ---------------------------------------------------------------- get after set

  lemma {:induction false} MergeCovers(x: Config, y: Config)
    ensures Covers(x, Merge(x, y))
    decreases Dict(y)
  {
    hide Merge;
    forall k | k in x
      ensures CoversAt(x, Merge(x, y), k)
    {
      MergeAt(x, y, k);
      if x[k].Dict? {
        SelfCovered(x[k].fields);
        CoveredIff(x[k].fields, x[k].fields);
        if k in y && y[k].Dict? {
          MergeCovers(x[k].fields, y[k].fields);
        }
      }
    }
  }

  lemma {:induction false} TwoMergesCoverAt(d: Config, s: Config, p: Config, k: Key)
    requires k in d
    ensures CoversAt(d, Merge(Merge(d, s), p), k) <==> (k in p ==> NoClashAt(d, s, p, k))
    decreases Dict(p), 0
  {
    hide Merge, Covers, NoClash;
    MergeAt(d, s, k);
    MergeAt(Merge(d, s), p, k);
    if d[k].Dict? {
      SelfCovered(d[k].fields);
      CoveredIff(d[k].fields, d[k].fields);
      if k in s && s[k].Dict? {
        MergeCovers(d[k].fields, s[k].fields);
      }
      if k in p && p[k].Dict? {
        MergeCovers(d[k].fields, p[k].fields);
        if k in s && s[k].Dict? {
          TwoMergesCoverIff(d[k].fields, s[k].fields, p[k].fields);
        }
      }
    }
  }

  /** A stored object and a patch merged over the defaults still cover them exactly when no object clashes. */
  lemma {:induction false} TwoMergesCoverIff(d: Config, s: Config, p: Config)
    ensures Covers(d, Merge(Merge(d, s), p)) <==> NoClash(d, s, p)
    decreases Dict(p)
  {
    hide Merge, CoversAt, NoClashAt;
    forall k | k in d
      ensures CoversAt(d, Merge(Merge(d, s), p), k) <==> (k in p ==> NoClashAt(d, s, p, k))
    {
      TwoMergesCoverAt(d, s, p, k);
    }
    forall k | k in p && k !in d
      ensures NoClashAt(d, s, p, k)
    {
      OnlyDictsClash(d, s, p, k);
    }
  }

  lemma OnlyDictsClash(d: Config, s: Config, p: Config, k: Key)
    requires k in p && k !in d
    ensures NoClashAt(d, s, p, k)
  {
  }

  lemma ModeCovers(d: Config, cfg: Config, mode: Json)
    requires Defaults(d) && MODE in cfg
    ensures Covers(d, cfg[MODE := mode]) <==> Covers(d, cfg)
  {
    forall k | k in d
      ensures CoversAt(d, cfg[MODE := mode], k) <==> CoversAt(d, cfg, k)
    {
    }
  }

  /**
    What is read after a save is what was saved exactly when no object of the defaults was stored as
    something else and is patched as an object that does not cover it.
   */
  lemma GetAfterSetIff(d: Config, stored: Option<Config>, patch: Config, safeguards: bool)
    requires Defaults(d) && Set(d, stored, patch, safeguards).Saved?
    ensures var cfg := Set(d, stored, patch, safeguards).cfg;
      Get(d, Some(cfg)) == cfg <==> NoClash(d, Loaded(stored), patch)
  {
    var cfg := Set(d, stored, patch, safeguards).cfg;
    var merged := Merge(Get(d, stored), patch);
    hide Merge, Covers, NoClash, Upper;
    SavedIsGuarded(d, stored, patch, safeguards);
    assert cfg - {SECRET} == cfg;
    CoveredIff(d, cfg);
    assert MODE in merged && cfg == merged[MODE := cfg[MODE]];
    ModeCovers(d, merged, cfg[MODE]);
    TwoMergesCoverIff(d, Loaded(stored), patch);
  }

  /** The patch replaces no object of the defaults by something else. */
  ghost predicate KeepsDicts(d: Config, patch: Config)
    decreases Dict(d)
  {
    forall k | k in d && k in patch :: KeepsDictsAt(d, patch, k)
  }

  ghost predicate KeepsDictsAt(d: Config, patch: Config, k: Key)
    requires k in d && k in patch
    decreases Dict(d), 0
  {
    d[k].Dict? ==> patch[k].Dict? && KeepsDicts(d[k].fields, patch[k].fields)
  }

  lemma {:induction false} KeepingDoesNotClash(d: Config, s: Config, p: Config)
    requires KeepsDicts(d, s)
    ensures NoClash(d, s, p)
    decreases Dict(p)
  {
    forall k | k in p
      ensures NoClashAt(d, s, p, k)
    {
      if p[k].Dict? && k in s && k in d && d[k].Dict? {
        assert KeepsDictsAt(d, s, k);
        KeepingDoesNotClash(d[k].fields, s[k].fields, p[k].fields);
      }
    }
  }

  lemma {:induction false} MergeKeeps(d: Config, x: Config, y: Config)
    requires KeepsDicts(d, x) && KeepsDicts(d, y)
    ensures KeepsDicts(d, Merge(x, y))
    decreases Dict(d)
  {
    hide Merge;
    forall k | k in d && k in Merge(x, y)
      ensures KeepsDictsAt(d, Merge(x, y), k)
    {
      MergeAt(x, y, k);
      if k in x {
        assert KeepsDictsAt(d, x, k);
      }
      if k in y {
        assert KeepsDictsAt(d, y, k);
      }
      if d[k].Dict? && k in x && k in y {
        MergeKeeps(d[k].fields, x[k].fields, y[k].fields);
      }
    }
  }

  lemma {:induction false} SelfKeeps(d: Config)
    ensures KeepsDicts(d, d)
    decreases Dict(d)
  {
    forall k | k in d
      ensures KeepsDictsAt(d, d, k)
    {
      if d[k].Dict? {
        SelfKeeps(d[k].fields);
      }
    }
  }

  lemma ModeKeeps(d: Config, cfg: Config, mode: Json)
    requires Defaults(d) && KeepsDicts(d, cfg)
    ensures KeepsDicts(d, cfg[MODE := mode])
  {
    forall k | k in d && k in cfg[MODE := mode]
      ensures KeepsDictsAt(d, cfg[MODE := mode], k)
    {
      if k != MODE {
        assert KeepsDictsAt(d, cfg, k);
      }
    }
  }

  ghost predicate Keeping(d: Config, stored: Option<Config>) {
    stored.Some? ==> KeepsDicts(d, stored.value)
  }

  lemma LoadedKeeps(d: Config, stored: Option<Config>)
    requires Keeping(d, stored)
    ensures KeepsDicts(d, Loaded(stored))
  {
    forall k | k in d && k in Loaded(stored)
      ensures KeepsDictsAt(d, Loaded(stored), k)
    {
      assert KeepsDictsAt(d, stored.value, k);
    }
  }

  /** With patches that keep the objects of the defaults, reading after a save gives exactly what was saved. */
  lemma SetKeepsShape(d: Config, stored: Option<Config>, patch: Config, safeguards: bool)
    requires Defaults(d) && Keeping(d, stored) && KeepsDicts(d, patch) && Set(d, stored, patch, safeguards).Saved?
    ensures var cfg := Set(d, stored, patch, safeguards).cfg; Keeping(d, Some(cfg)) && Get(d, Some(cfg)) == cfg
  {
    hide Merge, Covers, NoClash, KeepsDicts, Upper, Defaults;
    LoadedKeeps(d, stored);
    SelfKeeps(d);
    MergeKeeps(d, d, Loaded(stored));
    MergeKeeps(d, Get(d, stored), patch);
    var cfg := Set(d, stored, patch, safeguards).cfg;
    ModeKeeps(d, Merge(Get(d, stored), patch), cfg[MODE]);
    KeepingDoesNotClash(d, Loaded(stored), patch);
    GetAfterSetIff(d, stored, patch, safeguards);
  }

  /** Over any run of such patches, whatever is stored last is read back unchanged. */
  lemma {:induction false} RunReadsBack(d: Config, attempts: seq<Attempt>)
    requires Defaults(d) && forall a | a in attempts :: KeepsDicts(d, a.patch)
    ensures var s := After(d, None, attempts); Keeping(d, s) && (s.Some? ==> Get(d, s) == s.value)
  {
    hide Set, Get, KeepsDicts, Defaults;
    if attempts != [] {
      var n := |attempts| - 1;
      assert attempts[n] in attempts && forall a | a in attempts[..n] :: a in attempts;
      RunReadsBack(d, attempts[..n]);
      var before := After(d, None, attempts[..n]);
      if Set(d, before, attempts[n].patch, attempts[n].safeguards).Saved? {
        SetKeepsShape(d, before, attempts[n].patch, attempts[n].safeguards);
      }
    }
  }

  lemma EmptyCoversNothing(x: Config, y: Config, field: Key)
    requires field in x && field !in y
    ensures !Covers(x, y)
  {
  }

  /** An object of the defaults once replaced by a number: a later object patch is not what is read back. */
  lemma FlippedKindIsNotReadBack(d: Config, cfg: Config, k: Key, field: Key)
    requires Defaults(d) && k in d && d[k].Dict? && field in d[k].fields
    requires Guarded(cfg) && !On(cfg, ENABLED) && k in cfg && cfg[k] == Number(5.0)
    ensures var r := Set(d, Some(cfg), map[k := Dict(map[])], true); r.Saved? && Get(d, Some(r.cfg)) != r.cfg
  {
    assert k != SECRET && k != MODE && k != ENABLED && k != AUTO_EXIT && k != BROKER_EXITS;
    hide Merge, Covers, Upper, Defaults;
    var patch: Config := map[k := Dict(map[])];
    var current := Get(d, Some(cfg));
    var r := Set(d, Some(cfg), patch, true);
    GuardsSurvive(d, cfg, patch, MODE);
    GuardsSurvive(d, cfg, patch, ENABLED);
    GuardsSurvive(d, cfg, patch, AUTO_EXIT);
    GuardsSurvive(d, cfg, patch, BROKER_EXITS);
    UpperModes(At(cfg, MODE).s);
    assert r.Saved?;
    hide Guarded;
    EmptyCoversNothing(d[k].fields, patch[k].fields, field);
    assert !NoClashAt(d, Loaded(Some(cfg)), patch, k);
    GetAfterSetIff(d, Some(cfg), patch, true);
  }

  lemma GuardsSurvive(d: Config, cfg: Config, patch: Config, k: Key)
    requires Guarded(cfg) && k !in patch && (k == MODE || k == ENABLED || k == AUTO_EXIT || k == BROKER_EXITS)
    ensures At(Merge(Get(d, Some(cfg)), patch), k) == At(cfg, k)
  {
    hide Merge, Get;
    GetKeepsGuards(d, cfg, k);
    MergeAt(Get(d, Some(cfg)), patch, k);
  }

  lemma UpperModes(s: string)
    requires IsMode(s)
    ensures Upper(s) == s
  {
  }

  // ---------------------------------------------------------------- the store

  class ConfigStore {
    const defaults: Config
    var stored: Option<Config>

    constructor (defaults: Config)
      ensures this.defaults == defaults && stored == None
    {
      this.defaults := defaults;
      stored := None;
    }

    /** A legacy secret that is not null is erased from the store on the way, unless the write fails. */
    method GetConfig(writable: bool) returns (cfg: Config)
      modifies this
      ensures cfg == Get(defaults, old(stored))
      ensures stored ==
        if writable && old(stored).Some? && At(old(stored).value, SECRET) != Null then Some(Loaded(old(stored)))
        else old(stored)
    {
      var loaded: Config := map[];
      if stored.Some? {
        loaded := stored.value - {SECRET};
        if At(stored.value, SECRET) != Null && writable {
          stored := Some(loaded);
        }
      }
      return Merge(defaults, loaded);
    }

    method SetConfig(patch: Config, safeguards: bool, writable: bool) returns (r: Result)
      modifies this
      ensures r == Set(defaults, old(stored), patch, safeguards)
      ensures r.Saved? ==> stored == Some(r.cfg)
      ensures r.Refused? ==> Loaded(stored) == Loaded(old(stored))
    {
      hide Merge, Upper;
      if SECRET in patch {
        return Refused(SecretGiven);
      }
      if !(patch.Keys <= defaults.Keys) {
        return Refused(UnknownField);
      }
      var current := GetConfig(writable);
      r := Checked(current, Merge(current, patch), safeguards);
      if r.Saved? {
        stored := Some(r.cfg);
      }
      assert Loaded(old(stored)) - {SECRET} == Loaded(old(stored));
    }
  }
}
