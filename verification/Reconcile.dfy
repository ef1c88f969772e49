/**
  Conflict grouping over parsed inventories
  (backend/calendar_evidence_acquisition/official_eod.py:277-294).

  The order of keys and claims in the report is left out: groups are maps, not ordered dictionaries.
 */
module Reconcile {
  import opened Wrappers

  datatype Key = Key(exchange: string, segment: string, day: string, contract: string)
  datatype Claim = Claim(underlying: string, instrument: string, expiry: string, maturity: Option<string>,
      actualExpiry: Option<string>)
  datatype Provenance = Provenance(url: string, sha256: string, row: nat)

  datatype Row = Row(key: Key, claim: Claim, number: nat)
  datatype Inventory = Inventory(url: string, sha256: string, rows: seq<Row>)

  type Claims = map<Claim, seq<Provenance>>
  type Groups = map<Key, Claims>

  /** One row with a contract identifier, and where it was read. */
  datatype Cite = Cite(key: Key, claim: Claim, from: Provenance)

  function CiteOf(inv: Inventory, r: Row): Cite {
    Cite(r.key, r.claim, Provenance(inv.url, inv.sha256, r.number))
  }

  function RowCites(inv: Inventory, rows: seq<Row>): seq<Cite> {
    if rows == [] then []
    else
      RowCites(inv, rows[..|rows| - 1]) +
      var r := rows[|rows| - 1];
      if r.key.contract == "" then [] else [CiteOf(inv, r)]
  }

  function Cites(invs: seq<Inventory>): seq<Cite> {
    if invs == [] then [] else Cites(invs[..|invs| - 1]) + RowCites(invs[|invs| - 1], invs[|invs| - 1].rows)
  }

  // ---------------------------------------------------------------- what a report must say

  /** The provenance of one claim about one key, in reading order. */
  function Sources(cites: seq<Cite>, key: Key, claim: Claim): seq<Provenance> {
    if cites == [] then []
    else
      var c := cites[|cites| - 1];
      Sources(cites[..|cites| - 1], key, claim) + if c.key == key && c.claim == claim then [c.from] else []
  }

  predicate Claimed(cites: seq<Cite>, key: Key, claim: Claim) {
    Sources(cites, key, claim) != []
  }

  /** Two rows share the key but differ in what they claim. */
  ghost predicate Disputed(cites: seq<Cite>, key: Key) {
    exists a, b :: a != b && Claimed(cites, key, a) && Claimed(cites, key, b)
  }

  ghost predicate ClaimsOf(claims: Claims, cites: seq<Cite>, key: Key) {
    forall v :: (v in claims <==> Claimed(cites, key, v)) && (v in claims ==> claims[v] == Sources(cites, key, v))
  }

  ghost predicate Collected(groups: Groups, cites: seq<Cite>) {
    forall k :: if k in groups then ClaimsOf(groups[k], cites, k) else ClaimsOf(map[], cites, k)
  }

  ghost predicate Reports(conflicts: Groups, cites: seq<Cite>) {
    forall k :: (k in conflicts <==> Disputed(cites, k)) && (k in conflicts ==> ClaimsOf(conflicts[k], cites, k))
  }

  // ---------------------------------------------------------------- the report

  function Filed(groups: Groups, c: Cite): Groups {
    var claims := if c.key in groups then groups[c.key] else map[];
    groups[c.key := claims[c.claim := (if c.claim in claims then claims[c.claim] else []) + [c.from]]]
  }

  lemma FiledCollects(groups: Groups, cites: seq<Cite>, c: Cite)
    requires Collected(groups, cites)
    ensures Collected(Filed(groups, c), cites + [c])
  {
  }

  lemma TwoAtLeast<K, V>(m: map<K, V>, a: K, b: K)
    requires a != b && a in m && b in m
    ensures |m| > 1
  {
    SubsetSmaller({a, b}, m.Keys);
    assert |{a, b}| == 2;
  }

  lemma TwoKeys<K(!new), V>(m: map<K, V>)
    ensures |m| > 1 <==> exists a, b :: a != b && a in m && b in m
  {
    forall a, b | a != b && a in m && b in m
      ensures |m| > 1
    {
      TwoAtLeast(m, a, b);
    }
    if |m| > 1 {
      var a :| a in m.Keys;
      var rest := m.Keys - {a};
      assert |rest| == |m.Keys| - 1;
      var b :| b in rest;
      assert a != b && a in m && b in m;
    }
  }

  lemma {:induction false} SubsetSmaller<K>(s: set<K>, t: set<K>)
    requires s <= t
    ensures |s| <= |t|
  {
    if s != {} {
      var x :| x in s;
      SubsetSmaller(s - {x}, t - {x});
    }
  }

  function Conflicts(groups: Groups): Groups {
    map k | k in groups && |groups[k]| > 1 :: groups[k]
  }

  lemma ConflictsReport(groups: Groups, cites: seq<Cite>)
    requires Collected(groups, cites)
    ensures Reports(Conflicts(groups), cites)
  {
    hide Claimed;
    var conflicts := Conflicts(groups);
    forall k
      ensures (k in conflicts <==> Disputed(cites, k)) && (k in conflicts ==> ClaimsOf(conflicts[k], cites, k))
    {
      if k in groups {
        assert ClaimsOf(groups[k], cites, k);
        TwoKeys(groups[k]);
      } else {
        assert ClaimsOf(map[], cites, k);
      }
    }
  }

  lemma NextRow(inv: Inventory, rows: seq<Row>, j: nat)
    requires j < |rows|
    ensures var r := rows[j];
      RowCites(inv, rows[..j + 1]) ==
        if r.key.contract == "" then RowCites(inv, rows[..j])
        else RowCites(inv, rows[..j]) + [CiteOf(inv, r)]
  {
    assert rows[..j + 1][..j] == rows[..j];
    assert RowCites(inv, rows[..j]) + [] == RowCites(inv, rows[..j]);
  }

  lemma NextInventory(invs: seq<Inventory>, i: nat)
    requires i < |invs|
    ensures Cites(invs[..i + 1]) == Cites(invs[..i]) + RowCites(invs[i], invs[i].rows[..|invs[i].rows|])
  {
    assert invs[..i + 1][..i] == invs[..i];
    assert invs[i].rows[..|invs[i].rows|] == invs[i].rows;
  }

  lemma NothingRead(invs: seq<Inventory>)
    ensures Cites(invs[..0]) == [] && Collected(map[], [])
  {
  }

  lemma NoRows(inv: Inventory, cites: seq<Cite>)
    ensures cites + RowCites(inv, inv.rows[..0]) == cites
  {
  }

  lemma Assoc<T>(a: seq<T>, b: seq<T>, c: seq<T>)
    ensures a + b + c == a + (b + c)
  {
  }

  /** A conflict is reported exactly for the keys two rows dispute, with every claim and all its provenance. */
  method Report(invs: seq<Inventory>) returns (conflicting: bool, conflicts: Groups)
    ensures Reports(conflicts, Cites(invs))
    ensures conflicting <==> exists k :: Disputed(Cites(invs), k)
  {
    var groups: Groups := map[];
    NothingRead(invs);
    hide Cites, RowCites, CiteOf, Conflicts, Collected, Reports, ClaimsOf, Claimed, Filed, Disputed;
    var i := 0;
    while i < |invs|
      invariant 0 <= i <= |invs| && Collected(groups, Cites(invs[..i]))
    {
      var inv := invs[i];
      var j := 0;
      NoRows(inv, Cites(invs[..i]));
      while j < |inv.rows|
        invariant 0 <= j <= |inv.rows| && Collected(groups, Cites(invs[..i]) + RowCites(inv, inv.rows[..j]))
      {
        var row := inv.rows[j];
        NextRow(inv, inv.rows, j);
        if row.key.contract != "" {
          FiledCollects(groups, Cites(invs[..i]) + RowCites(inv, inv.rows[..j]), CiteOf(inv, row));
          groups := Filed(groups, CiteOf(inv, row));
          Assoc(Cites(invs[..i]), RowCites(inv, inv.rows[..j]), [CiteOf(inv, row)]);
        }
        j := j + 1;
      }
      NextInventory(invs, i);
      i := i + 1;
    }
    assert invs[..i] == invs;
    conflicts := Conflicts(groups);
    ConflictsReport(groups, Cites(invs));
    conflicting := conflicts != map[];
    VerdictIsDispute(conflicts, Cites(invs));
  }

  lemma VerdictIsDispute(conflicts: Groups, cites: seq<Cite>)
    requires Reports(conflicts, cites)
    ensures conflicts != map[] <==> exists k :: Disputed(cites, k)
  {
  }

  // ---------------------------------------------------------------- order and growth

  /** Every row is counted once in the provenance of its key and claim, and nothing else is. */
  lemma {:induction false} SourcesCount(cites: seq<Cite>, key: Key, claim: Claim, p: Provenance)
    ensures multiset(Sources(cites, key, claim))[p] == multiset(cites)[Cite(key, claim, p)]
  {
    if cites != [] {
      hide Sources;
      var n := |cites| - 1;
      SourcesCount(cites[..n], key, claim, p);
      FrontAndLast(cites);
      SourcesLast(cites, key, claim);
      OneMore(cites[..n], cites[n], Cite(key, claim, p));
      OneMore(Sources(cites[..n], key, claim), cites[n].from, p);
    }
  }

  lemma SourcesLast(cites: seq<Cite>, key: Key, claim: Claim)
    requires cites != []
    ensures var n := |cites| - 1; var c := cites[n];
      Sources(cites, key, claim) ==
        if c.key == key && c.claim == claim then Sources(cites[..n], key, claim) + [c.from]
        else Sources(cites[..n], key, claim)
  {
    var n := |cites| - 1;
    assert Sources(cites[..n], key, claim) + [] == Sources(cites[..n], key, claim);
  }

  lemma OneMore<T>(xs: seq<T>, y: T, x: T)
    ensures multiset(xs + [y])[x] == multiset(xs)[x] + if x == y then 1 else 0
  {
  }

  /** The same rows in any order, and split over inventories in any way, give the same conflicts. */
  lemma OrderDoesNotMatter(a: seq<Cite>, b: seq<Cite>, key: Key)
    requires multiset(a) == multiset(b)
    ensures Disputed(a, key) <==> Disputed(b, key)
    ensures forall v :: multiset(Sources(a, key, v)) == multiset(Sources(b, key, v))
  {
    hide Sources;
    forall v
      ensures multiset(Sources(a, key, v)) == multiset(Sources(b, key, v)) &&
        (Claimed(a, key, v) <==> Claimed(b, key, v))
    {
      forall p
        ensures multiset(Sources(a, key, v))[p] == multiset(Sources(b, key, v))[p]
      {
        SourcesCount(a, key, v, p);
        SourcesCount(b, key, v, p);
      }
      assert |multiset(Sources(a, key, v))| == |Sources(a, key, v)|;
      assert |multiset(Sources(b, key, v))| == |Sources(b, key, v)|;
    }
  }

  lemma {:induction false} CitesAppend(a: seq<Inventory>, b: seq<Inventory>)
    ensures Cites(a + b) == Cites(a) + Cites(b)
  {
    hide RowCites;
    if b == [] {
      assert a + b == a;
    } else {
      var n := |b| - 1;
      assert (a + b)[..|a + b| - 1] == a + b[..n] && (a + b)[|a + b| - 1] == b[n];
      CitesAppend(a, b[..n]);
      assert (Cites(a) + Cites(b[..n])) + RowCites(b[n], b[n].rows) ==
        Cites(a) + (Cites(b[..n]) + RowCites(b[n], b[n].rows));
    }
  }

  lemma {:induction false} SourcesAppend(a: seq<Cite>, b: seq<Cite>, key: Key, claim: Claim)
    ensures Sources(a + b, key, claim) == Sources(a, key, claim) + Sources(b, key, claim)
  {
    if b == [] {
      assert a + b == a;
    } else {
      var n := |b| - 1;
      assert (a + b)[..|a + b| - 1] == a + b[..n];
      SourcesAppend(a, b[..n], key, claim);
    }
  }

  lemma CancelOne<T>(a: multiset<T>, b: multiset<T>, x: T)
    requires a + multiset{x} == b + multiset{x}
    ensures a == b
  {
    assert (a + multiset{x}) - multiset{x} == a;
    assert (b + multiset{x}) - multiset{x} == b;
  }

  /** The same element taken out of two permutations leaves permutations. */
  lemma TakeOut<T>(a: seq<T>, b: seq<T>) returns (i: nat)
    requires multiset(a) == multiset(b) && a != []
    ensures i < |b| && b[i] == a[|a| - 1]
    ensures b == b[..i] + [b[i]] + b[i + 1..] && multiset(a[..|a| - 1]) == multiset(b[..i] + b[i + 1..])
  {
    var n := |a| - 1;
    assert a == a[..n] + [a[n]];
    assert a[n] in multiset(b);
    i :| 0 <= i < |b| && b[i] == a[n];
    assert b == b[..i] + [b[i]] + b[i + 1..];
    CancelOne(multiset(a[..n]), multiset(b[..i] + b[i + 1..]), a[n]);
  }

  lemma {:induction false} CitesPermute(a: seq<Inventory>, b: seq<Inventory>)
    requires multiset(a) == multiset(b)
    ensures multiset(Cites(a)) == multiset(Cites(b))
  {
    if a == [] {
      assert |multiset(b)| == |b|;
    } else {
      hide RowCites;
      var n := |a| - 1;
      var i := TakeOut(a, b);
      CitesPermute(a[..n], b[..i] + b[i + 1..]);
      OneInventory(b[i]);
      hide Cites;
      CitesAppend(b[..i], b[i + 1..]);
      CitesAppend(b[..i], [b[i]]);
      CitesAppend(b[..i] + [b[i]], b[i + 1..]);
      CitesAppend(a[..n], [a[n]]);
      FrontAndLast(a);
    }
  }

  lemma {:induction false} ClaimedBySome(invs: seq<Inventory>, key: Key, claim: Claim)
    ensures Claimed(Cites(invs), key, claim) <==>
      exists inv | inv in invs :: Claimed(RowCites(inv, inv.rows), key, claim)
  {
    hide RowCites, Sources;
    if invs == [] {
      EmptyClaimsNothing(key, claim);
    } else {
      var n := |invs| - 1;
      ClaimedBySome(invs[..n], key, claim);
      SourcesAppend(Cites(invs[..n]), RowCites(invs[n], invs[n].rows), key, claim);
      FrontAndLast(invs);
      assert invs[n] in invs && forall inv | inv in invs[..n] :: inv in invs;
      assert forall inv | inv in invs :: inv in invs[..n] || inv == invs[n];
    }
  }

  lemma EmptyClaimsNothing(key: Key, claim: Claim)
    ensures !Claimed([], key, claim)
  {
  }

  /**
    The verdict on a key does not depend on the order of the inventories, nor do the claims and their
    provenance but for its order.
   */
  lemma InventoriesInAnyOrder(a: seq<Inventory>, b: seq<Inventory>, key: Key)
    requires multiset(a) == multiset(b)
    ensures Disputed(Cites(a), key) <==> Disputed(Cites(b), key)
    ensures forall v :: multiset(Sources(Cites(a), key, v)) == multiset(Sources(Cites(b), key, v))
  {
    hide Disputed, Sources, Cites;
    CitesPermute(a, b);
    OrderDoesNotMatter(Cites(a), Cites(b), key);
  }

  /** Adding inventories, wherever they are put, removes no conflict. */
  lemma InventoriesOnlyAdd(a: seq<Inventory>, b: seq<Inventory>, key: Key)
    requires Disputed(Cites(a), key) && forall inv | inv in a :: inv in b
    ensures Disputed(Cites(b), key)
  {
    hide Cites, RowCites, Sources, Claimed;
    var x, y :| x != y && Claimed(Cites(a), key, x) && Claimed(Cites(a), key, y);
    forall v
      ensures Claimed(Cites(a), key, v) ==> Claimed(Cites(b), key, v)
    {
      ClaimedBySome(a, key, v);
      ClaimedBySome(b, key, v);
    }
  }

  /** How often a cite is read from an inventory: as often as the row it stands for. */
  function RowCount(inv: Inventory, rows: seq<Row>, c: Cite): nat {
    if c.key.contract != "" && c.from.url == inv.url && c.from.sha256 == inv.sha256
    then multiset(rows)[Row(c.key, c.claim, c.from.row)] else 0
  }

  lemma RowCountLast(inv: Inventory, rows: seq<Row>, r: Row, c: Cite)
    ensures RowCount(inv, rows + [r], c) ==
      RowCount(inv, rows, c) + if r.key.contract != "" && CiteOf(inv, r) == c then 1 else 0
  {
  }

  lemma FrontAndLast<T>(xs: seq<T>)
    requires xs != []
    ensures xs[..|xs| - 1] + [xs[|xs| - 1]] == xs
  {
  }

  lemma RowCitesLast(inv: Inventory, rows: seq<Row>, r: Row, c: Cite)
    ensures multiset(RowCites(inv, rows + [r]))[c] ==
      multiset(RowCites(inv, rows))[c] + if r.key.contract != "" && CiteOf(inv, r) == c then 1 else 0
  {
  }

  lemma {:induction false} RowCitesCount(inv: Inventory, rows: seq<Row>, c: Cite)
    ensures multiset(RowCites(inv, rows))[c] == RowCount(inv, rows, c)
  {
    if rows != [] {
      hide RowCount, CiteOf, RowCites;
      var n := |rows| - 1;
      RowCitesCount(inv, rows[..n], c);
      RowCountLast(inv, rows[..n], rows[n], c);
      RowCitesLast(inv, rows[..n], rows[n], c);
      FrontAndLast(rows);
    }
  }

  lemma OneInventory(inv: Inventory)
    ensures Cites([inv]) == RowCites(inv, inv.rows)
  {
  }

  /** The rows of an inventory may come in any order. */
  lemma RowsInAnyOrder(before: seq<Inventory>, inv: Inventory, rows: seq<Row>, after: seq<Inventory>, key: Key)
    requires multiset(rows) == multiset(inv.rows)
    ensures Disputed(Cites(before + [inv] + after), key) <==>
      Disputed(Cites(before + [inv.(rows := rows)] + after), key)
  {
    hide Disputed, Sources, Cites, RowCites;
    var other := inv.(rows := rows);
    OneInventory(inv);
    OneInventory(other);
    forall c
      ensures multiset(RowCites(inv, inv.rows))[c] == multiset(RowCites(other, rows))[c]
    {
      RowCitesCount(inv, inv.rows, c);
      RowCitesCount(other, rows, c);
    }
    CitesAppend(before + [inv], after);
    CitesAppend(before, [inv]);
    CitesAppend(before + [other], after);
    CitesAppend(before, [other]);
    OrderDoesNotMatter(Cites(before + [inv] + after), Cites(before + [other] + after), key);
  }
}
