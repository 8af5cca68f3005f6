// The config-free content comparison: table by table, by multiset of row hashes, with a
// signature shortcut and two memo caches.
module ContentDiff {
  import opened Options
  import opened Lineage
  import opened Authority

  /** md5 of a row's text, and the digest of a table's sorted row hashes. */
  datatype Hashing = Hashing(md5: string -> string, agg: multiset<string> -> string)

  ghost predicate CollisionFree(h: Hashing) {
    && (forall r, s {:trigger SameMD5(h, r, s)} :: SameMD5(h, r, s) ==> r == s)
    && (forall m, n {:trigger SameAgg(h, m, n)} :: SameAgg(h, m, n) ==> m == n)
  }

  predicate SameMD5(h: Hashing, r: string, s: string) {
    h.md5(r) == h.md5(s)
  }

  predicate SameAgg(h: Hashing, m: multiset<string>, n: multiset<string>) {
    h.agg(m) == h.agg(n)
  }

  /** What the instances hold: pod -> table -> rows (as text). */
  type Database = map<string, map<string, seq<string>>>

  predicate HasTable(db: Database, pod: string, tbl: string) {
    pod in db && tbl in db[pod]
  }

  function Rows(db: Database, pod: string, tbl: string): seq<string> {
    if HasTable(db, pod, tbl) then db[pod][tbl] else []
  }

  function HashAll(h: Hashing, rows: seq<string>): multiset<string> {
    if rows == [] then multiset{} else HashAll(h, rows[..|rows| - 1]) + multiset{h.md5(rows[|rows| - 1])}
  }

  datatype Sig = Sig(count: int, hash: string)

  function SigOf(h: Hashing, rows: seq<string>): Sig {
    Sig(|rows|, h.agg(HashAll(h, rows)))
  }

  // ----- hashes stand for rows -----

  lemma {:induction false} HashCounts(h: Hashing, rows: seq<string>, r: string)
    requires CollisionFree(h)
    ensures HashAll(h, rows)[h.md5(r)] == multiset(rows)[r]
    ensures |HashAll(h, rows)| == |rows|
  {
    if rows != [] {
      HashCounts(h, rows[..|rows| - 1], r);
      assert SameMD5(h, rows[|rows| - 1], r) ==> rows[|rows| - 1] == r;
      assert rows == rows[..|rows| - 1] + [rows[|rows| - 1]];
    }
  }

  lemma {:induction false} HashesComeFromRows(h: Hashing, rows: seq<string>, x: string)
    requires x in HashAll(h, rows)
    ensures exists r :: r in rows && x == h.md5(r)
  {
    var last := rows[|rows| - 1];
    if x == h.md5(last) {
      assert last in rows;
    } else {
      HashesComeFromRows(h, rows[..|rows| - 1], x);
      var r :| r in rows[..|rows| - 1] && x == h.md5(r);
      assert r in rows;
    }
  }

  /** Comparing hash multisets is comparing row multisets. */
  lemma HashesDecideInclusion(h: Hashing, a: seq<string>, b: seq<string>)
    requires CollisionFree(h)
    ensures HashAll(h, b) <= HashAll(h, a) <==> multiset(b) <= multiset(a)
  {
    if HashAll(h, b) <= HashAll(h, a) {
      forall r ensures multiset(b)[r] <= multiset(a)[r] {
        HashCounts(h, a, r);
        HashCounts(h, b, r);
      }
    }
    if multiset(b) <= multiset(a) {
      forall x ensures HashAll(h, b)[x] <= HashAll(h, a)[x] {
        if x in HashAll(h, b) {
          HashesComeFromRows(h, b, x);
          var r :| r in b && x == h.md5(r);
          HashCounts(h, a, r);
          HashCounts(h, b, r);
        }
      }
    }
  }

  // ----- one table -----

  datatype TableDivergence = TableDivergence(tbl: string, aMissing: int, bMissing: int)

  /** How many copies `from` holds beyond `other`, one distinct hash at a time, in any order. */
  method CountExtra(from: multiset<string>, other: multiset<string>) returns (n: int)
    ensures n == |from - other|
  {
    n := 0;
    var rest := from;
    while rest != multiset{}
      invariant forall x :: x in rest ==> rest[x] == from[x]
      invariant n + |rest - other| == |from - other|
      decreases |rest|
    {
      var x :| x in rest;
      var extra := from[x] as int - other[x] as int;
      assert rest[x := 0] - other == (rest - other)[x := 0];
      if extra > 0 {
        n := n + extra;
      }
      rest := rest[x := 0];
    }
  }

  method DiffTable(tbl: string, ah: multiset<string>, bh: multiset<string>) returns (d: TableDivergence)
    ensures d == TableDivergence(tbl, |bh - ah|, |ah - bh|)
  {
    var aMissing := CountExtra(bh, ah);
    var bMissing := CountExtra(ah, bh);
    d := TableDivergence(tbl, aMissing, bMissing);
  }

  lemma CardinalityOfDifference(a: multiset<string>, b: multiset<string>)
    ensures |b| - |a| == |b - a| - |a - b|
    ensures |b - a| == 0 <==> b <= a
  {
    assert a == (a - b) + (a * b);
    assert b == (b - a) + (a * b);
    if |b - a| == 0 {
      assert b - a == multiset{};
      forall x ensures b[x] <= a[x] { assert (b - a)[x] == 0; }
    }
    assert b <= a ==> b - a == multiset{};
  }

  /** A table's missing counts account exactly for the difference in row counts, and are zero
      exactly when one side's rows include the other's. */
  lemma MissingCountsAreExact(h: Hashing, a: seq<string>, b: seq<string>)
    requires CollisionFree(h)
    ensures var aMissing, bMissing := |HashAll(h, b) - HashAll(h, a)|, |HashAll(h, a) - HashAll(h, b)|;
            && |b| - |a| == aMissing - bMissing
            && (aMissing == 0 <==> multiset(b) <= multiset(a))
            && (bMissing == 0 <==> multiset(a) <= multiset(b))
  {
    CardinalityOfDifference(HashAll(h, a), HashAll(h, b));
    CardinalityOfDifference(HashAll(h, b), HashAll(h, a));
    HashesDecideInclusion(h, a, b);
    HashesDecideInclusion(h, b, a);
    HashCounts(h, a, "");
    HashCounts(h, b, "");
  }

  // ----- all tables -----

  function DivergencesOf(db: Database, h: Hashing, a: string, b: string, tables: seq<string>): seq<TableDivergence> {
    if tables == [] then []
    else AddTo(DivergencesOf(db, h, a, b, tables[..|tables| - 1]), DivergenceIn(db, h, a, b, tables[|tables| - 1]))
  }

  function AddTo(divs: seq<TableDivergence>, d: Option<TableDivergence>): seq<TableDivergence> {
    if d.Some? then divs + [d.value] else divs
  }

  function DivergenceIn(db: Database, h: Hashing, a: string, b: string, tbl: string): Option<TableDivergence> {
    var ah, bh := HashAll(h, Rows(db, a, tbl)), HashAll(h, Rows(db, b, tbl));
    if ah == bh then None else Some(TableDivergence(tbl, |bh - ah|, |ah - bh|))
  }

  predicate TableAbsent(db: Database, a: string, b: string, tables: seq<string>) {
    exists i :: 0 <= i < |tables| && !(HasTable(db, a, tables[i]) && HasTable(db, b, tables[i]))
  }

  predicate ALacks(divs: seq<TableDivergence>) {
    exists i :: 0 <= i < |divs| && divs[i].aMissing > 0
  }

  predicate BLacks(divs: seq<TableDivergence>) {
    exists i :: 0 <= i < |divs| && divs[i].bMissing > 0
  }

  method RelationFromDivergences(divs: seq<TableDivergence>) returns (r: ContentRelation)
    ensures r == RelationOf(divs)
  {
    if divs == [] { return SameContent; }
    var aLacks, bLacks := false, false;
    for i := 0 to |divs|
      invariant aLacks <==> exists j :: 0 <= j < i && divs[j].aMissing > 0
      invariant bLacks <==> exists j :: 0 <= j < i && divs[j].bMissing > 0
    {
      if divs[i].aMissing > 0 { aLacks := true; }
      if divs[i].bMissing > 0 { bLacks := true; }
    }
    if aLacks && bLacks { return Crossed; }
    if bLacks { return AContainsB; }
    if aLacks { return BContainsA; }
    r := SameContent;
  }

  function RelationOf(divs: seq<TableDivergence>): ContentRelation {
    if ALacks(divs) && BLacks(divs) then Crossed
    else if BLacks(divs) then AContainsB
    else if ALacks(divs) then BContainsA
    else SameContent
  }

  /** b's rows of a table are, as a multiset, among a's. */
  predicate Inside(db: Database, a: string, b: string, t: string) {
    multiset(Rows(db, b, t)) <= multiset(Rows(db, a, t))
  }

  /** Every listed table of b is, as a multiset of rows, inside a's. */
  predicate Includes(db: Database, a: string, b: string, tables: seq<string>) {
    forall i :: 0 <= i < |tables| ==> Inside(db, a, b, tables[i])
  }

  lemma TableDecides(db: Database, h: Hashing, a: string, b: string, t: string)
    requires CollisionFree(h)
    ensures var d := DivergenceIn(db, h, a, b, t);
            && ((d.Some? && d.value.aMissing > 0) <==> !Inside(db, a, b, t))
            && ((d.Some? && d.value.bMissing > 0) <==> !Inside(db, b, a, t))
  {
    MissingCountsAreExact(h, Rows(db, a, t), Rows(db, b, t));
    EqualHashesAgree(HashAll(h, Rows(db, a, t)), HashAll(h, Rows(db, b, t)));
  }

  lemma EqualHashesAgree(ah: multiset<string>, bh: multiset<string>)
    ensures ah == bh ==> |bh - ah| == 0 && |ah - bh| == 0
  {}

  lemma {:induction false} DivergencesDecide(db: Database, h: Hashing, a: string, b: string, tables: seq<string>)
    requires CollisionFree(h)
    ensures ALacks(DivergencesOf(db, h, a, b, tables)) <==> !Includes(db, a, b, tables)
    ensures BLacks(DivergencesOf(db, h, a, b, tables)) <==> !Includes(db, b, a, tables)
  {
    if tables != [] {
      var init, t := tables[..|tables| - 1], tables[|tables| - 1];
      DivergencesDecide(db, h, a, b, init);
      assert tables == init + [t];
      OneMoreTable(db, h, a, b, init, t);
    }
  }

  lemma OneMoreTable(db: Database, h: Hashing, a: string, b: string, init: seq<string>, t: string)
    requires CollisionFree(h)
    ensures var divs, all := DivergencesOf(db, h, a, b, init), DivergencesOf(db, h, a, b, init + [t]);
            && (ALacks(all) <==> ALacks(divs) || !Inside(db, a, b, t))
            && (BLacks(all) <==> BLacks(divs) || !Inside(db, b, a, t))
    ensures Includes(db, a, b, init + [t]) <==> Includes(db, a, b, init) && Inside(db, a, b, t)
    ensures Includes(db, b, a, init + [t]) <==> Includes(db, b, a, init) && Inside(db, b, a, t)
  {
    assert (init + [t])[..|init|] == init;
    TableDecides(db, h, a, b, t);
    LastTable(db, a, b, init, t);
    LastTable(db, b, a, init, t);
    LastDivergence(DivergencesOf(db, h, a, b, init), DivergenceIn(db, h, a, b, t));
  }

  lemma LastDivergence(divs: seq<TableDivergence>, d: Option<TableDivergence>)
    ensures ALacks(AddTo(divs, d)) <==> ALacks(divs) || (d.Some? && d.value.aMissing > 0)
    ensures BLacks(AddTo(divs, d)) <==> BLacks(divs) || (d.Some? && d.value.bMissing > 0)
  {
    if d.Some? {
      var all := divs + [d.value];
      assert all[|divs|] == d.value && forall i :: 0 <= i < |divs| ==> all[i] == divs[i];
    }
  }

  lemma LastTable(db: Database, a: string, b: string, init: seq<string>, t: string)
    ensures Includes(db, a, b, init + [t]) <==>
            Includes(db, a, b, init) && Inside(db, a, b, t)
  {
    var all := init + [t];
    assert all[|init|] == t && forall i :: 0 <= i < |init| ==> all[i] == init[i];
  }

  /** The verdict is exactly multiset inclusion over all listed tables, in both directions. */
  lemma VerdictIsInclusion(db: Database, h: Hashing, a: string, b: string, tables: seq<string>)
    requires CollisionFree(h)
    ensures match RelationOf(DivergencesOf(db, h, a, b, tables))
            case SameContent => Includes(db, a, b, tables) && Includes(db, b, a, tables)
            case AContainsB => Includes(db, a, b, tables) && !Includes(db, b, a, tables)
            case BContainsA => Includes(db, b, a, tables) && !Includes(db, a, b, tables)
            case Crossed => !Includes(db, a, b, tables) && !Includes(db, b, a, tables)
            case Unknown => false
  {
    DivergencesDecide(db, h, a, b, tables);
  }

  // ----- tables nobody listed -----

  /** Every row of b is on a, in any table. */
  ghost predicate HoldsAll(db: Database, a: string, b: string) {
    forall t :: Inside(db, a, b, t)
  }

  /** Only what was listed is kept of b's tables. */
  function Listed(rows: map<string, seq<string>>, tables: seq<string>): map<string, seq<string>> {
    map t | t in rows && t in tables :: rows[t]
  }

  /** The tables are listed on whichever instance answers first. That list is enough, whatever
      the other side holds, exactly when every table in which b has rows is on it. */
  lemma ListMustNameEveryTable(a: string, b: string, rows: map<string, seq<string>>, tables: seq<string>)
    requires a != b
    ensures (forall other: map<string, seq<string>> ::
               Includes(map[a := other, b := rows], a, b, tables) ==> HoldsAll(map[a := other, b := rows], a, b)) <==>
            (forall t :: t in rows && rows[t] != [] ==> t in tables)
  {
    if forall t :: t in rows && rows[t] != [] ==> t in tables {
      forall other: map<string, seq<string>> | Includes(map[a := other, b := rows], a, b, tables)
        ensures HoldsAll(map[a := other, b := rows], a, b)
      {
        ListedTablesSuffice(map[a := other, b := rows], a, b, tables);
      }
    } else {
      var t :| t in rows && rows[t] != [] && t !in tables;
      UnlistedTableHides(a, b, rows, tables, t);
    }
  }

  lemma ListedTablesSuffice(db: Database, a: string, b: string, tables: seq<string>)
    requires Includes(db, a, b, tables) && forall t :: Rows(db, b, t) != [] ==> t in tables
    ensures HoldsAll(db, a, b)
  {
    forall t ensures Inside(db, a, b, t) {
      if t in tables {
        var i :| 0 <= i < |tables| && tables[i] == t;
        assert Inside(db, a, b, tables[i]);
      }
    }
  }

  /** A row of b in a table that is not on the list is invisible to the comparison. */
  lemma UnlistedTableHides(a: string, b: string, rows: map<string, seq<string>>, tables: seq<string>, t: string)
    requires a != b && t in rows && rows[t] != [] && t !in tables
    ensures var db := map[a := Listed(rows, tables), b := rows];
            Includes(db, a, b, tables) && !HoldsAll(db, a, b)
  {
    var db := map[a := Listed(rows, tables), b := rows];
    forall i | 0 <= i < |tables| ensures Inside(db, a, b, tables[i]) {
      assert Rows(db, b, tables[i]) == Rows(db, a, tables[i]);
    }
    assert Rows(db, a, t) == [] && rows[t][0] in multiset(Rows(db, b, t));
    assert !Inside(db, a, b, t);
  }

  /** a has two rows in t; b has one of them, and a row in a table u that a lacks. */
  function ForkedAway(a: string, b: string, t: string, u: string, first: string, second: string,
                      paid: string): Database {
    map[a := map[t := [first, second]], b := map[t := [first], u := [paid]]]
  }

  lemma ForkedAwayIsHidden(h: Hashing, a: string, b: string, t: string, u: string, first: string, second: string,
                           paid: string)
    requires CollisionFree(h) && a != b && t != u && first != second
    ensures var db := ForkedAway(a, b, t, u, first, second, paid);
            && RelationOf(DivergencesOf(db, h, a, b, [t])) == AContainsB && !TableAbsent(db, a, b, [t])
            && !HoldsAll(db, a, b)
  {
    var db := ForkedAway(a, b, t, u, first, second, paid);
    ForkedAwayRows(a, b, t, u, first, second, paid);
    MoreRows(first, second, paid);
    OneTableDecides(db, h, a, b, t);
    assert !Inside(db, a, b, u);
  }

  lemma MoreRows(first: string, second: string, paid: string)
    requires first != second
    ensures multiset([first]) <= multiset([first, second]) && !(multiset([first, second]) <= multiset([first]))
    ensures !(multiset([paid]) <= multiset([]))
  {
    assert multiset([first])[second] == 0 && multiset([first, second])[second] == 1;
    assert multiset([paid])[paid] == 1;
  }

  lemma ForkedAwayRows(a: string, b: string, t: string, u: string, first: string, second: string, paid: string)
    requires a != b && t != u
    ensures var db := ForkedAway(a, b, t, u, first, second, paid);
            && Rows(db, a, t) == [first, second] && Rows(db, b, t) == [first]
            && Rows(db, a, u) == [] && Rows(db, b, u) == [paid] && HasTable(db, a, t) && HasTable(db, b, t)
  {}

  lemma OneTableDecides(db: Database, h: Hashing, a: string, b: string, t: string)
    requires CollisionFree(h) && Inside(db, a, b, t) && !Inside(db, b, a, t)
    ensures RelationOf(DivergencesOf(db, h, a, b, [t])) == AContainsB
  {
    assert [t][0] == t;
    assert Includes(db, a, b, [t]) && !Includes(db, b, a, [t]) by { assert !Inside(db, b, a, [t][0]); }
    VerdictIsInclusion(db, h, a, b, [t]);
  }

  /** The list came from "pg-1", which lacks a table that "pg-2" has filled since the fork:
      "pg-1" is reported to contain "pg-2". */
  lemma ListingHidesATable(h: Hashing) returns (db: Database, tables: seq<string>)
    requires CollisionFree(h)
    ensures "pg-1" in db && forall t :: t in tables <==> t in db["pg-1"]
    ensures RelationOf(DivergencesOf(db, h, "pg-1", "pg-2", tables)) == AContainsB &&
            !TableAbsent(db, "pg-1", "pg-2", tables)
    ensures !HoldsAll(db, "pg-1", "pg-2")
  {
    assert |"orders"| != |"invoices"| && "pg-1"[3] != "pg-2"[3] && |"first"| != |"second"|;
    db, tables := ForkedAway("pg-1", "pg-2", "orders", "invoices", "first", "second", "paid"), ["orders"];
    ForkedAwayIsHidden(h, "pg-1", "pg-2", "orders", "invoices", "first", "second", "paid");
  }

  // ----- the memoised comparison -----

  class PairwiseDiff {
    const db: Database
    const h: Hashing
    /** The n-th query of the run fails. */
    const fails: nat -> bool
    var queries: nat
    var sig: map<string, map<string, Sig>>
    var hashCache: map<string, map<string, multiset<string>>>

    constructor (db: Database, h: Hashing, fails: nat -> bool)
      ensures Valid() && this.db == db && this.h == h && this.fails == fails && queries == 0
    {
      this.db, this.h, this.fails := db, h, fails;
      queries, sig, hashCache := 0, map[], map[];
    }

    ghost predicate IsSig(key: string, tbl: string, s: Sig) {
      HasTable(db, key, tbl) && s == SigOf(h, Rows(db, key, tbl))
    }

    ghost predicate AreHashes(key: string, tbl: string, m: multiset<string>) {
      HasTable(db, key, tbl) && m == HashAll(h, Rows(db, key, tbl))
    }

    /** Whatever is cached is what the query returns. */
    ghost predicate Valid()
      reads this
    {
      && (forall k, t {:trigger sig[k][t]} :: k in sig && t in sig[k] ==> IsSig(k, t, sig[k][t]))
      && (forall k, t {:trigger hashCache[k][t]} :: k in hashCache && t in hashCache[k] ==>
           AreHashes(k, t, hashCache[k][t]))
    }

    method CachedSig(key: string, tbl: string) returns (r: Option<Sig>)
      requires Valid()
      modifies this`queries, this`sig
      ensures Valid()
      ensures r.Some? ==> HasTable(db, key, tbl) && r.value == SigOf(h, Rows(db, key, tbl))
      ensures r.None? <==>
                !(key in old(sig) && tbl in old(sig)[key]) && (!HasTable(db, key, tbl) || fails(old(queries)))
      ensures queries == if key in old(sig) && tbl in old(sig)[key] then old(queries) else old(queries) + 1
    {
      if key !in sig {
        sig := sig[key := map[]];
      }
      if tbl in sig[key] { return Some(sig[key][tbl]); }
      queries := queries + 1;
      if fails(queries - 1) || !HasTable(db, key, tbl) { return None; }
      var s := SigOf(h, db[key][tbl]);
      sig := sig[key := sig[key][tbl := s]];
      r := Some(s);
    }

    method CachedHashes(key: string, tbl: string) returns (r: Option<multiset<string>>)
      requires Valid()
      modifies this`queries, this`hashCache
      ensures Valid()
      ensures r.Some? ==> HasTable(db, key, tbl) && r.value == HashAll(h, Rows(db, key, tbl))
      ensures r.None? <==>
                !(key in old(hashCache) && tbl in old(hashCache)[key]) &&
                  (!HasTable(db, key, tbl) || fails(old(queries)))
      ensures queries == if key in old(hashCache) && tbl in old(hashCache)[key] then old(queries) else old(queries) + 1
    {
      if key !in hashCache {
        hashCache := hashCache[key := map[]];
      }
      if tbl in hashCache[key] { return Some(hashCache[key][tbl]); }
      queries := queries + 1;
      if fails(queries - 1) || !HasTable(db, key, tbl) { return None; }
      var m := HashAll(h, db[key][tbl]);
      hashCache := hashCache[key := hashCache[key][tbl := m]];
      r := Some(m);
    }

    /** One table of one pair: its divergence, if it has any. */
    method CompareTable(a: string, b: string, tbl: string) returns (ok: bool, d: Option<TableDivergence>)
      requires Valid() && CollisionFree(h)
      modifies this
      ensures Valid() && queries >= old(queries)
      ensures ok ==> d == DivergenceIn(db, h, a, b, tbl)
      ensures !ok ==>
                (exists q :: old(queries) <= q < queries && fails(q)) || !HasTable(db, a, tbl) || !HasTable(db, b, tbl)
    {
      var sa := this.CachedSig(a, tbl);
      if sa.None? { return false, None; }
      var sb := this.CachedSig(b, tbl);
      if sb.None? { return false, None; }
      if sa == sb {
        EqualSigsAgree(h, Rows(db, a, tbl), Rows(db, b, tbl));
        return true, None;
      }
      var ah := this.CachedHashes(a, tbl);
      if ah.None? { return false, None; }
      var bh := this.CachedHashes(b, tbl);
      if bh.None? { return false, None; }
      var div := DiffTable(tbl, ah.value, bh.value);
      EqualSigsAgree(h, Rows(db, a, tbl), Rows(db, b, tbl));
      ok, d := true, if div.aMissing > 0 || div.bMissing > 0 then Some(div) else None;
    }

    /** One pair over all tables: whatever is cached, an answer is the cache-free answer, and
        there is none only if a query failed or a table is absent on one side. */
    method GenericCompare(a: string, b: string, tables: seq<string>)
      returns (r: Option<(ContentRelation, seq<TableDivergence>)>)
      requires Valid() && CollisionFree(h)
      modifies this
      ensures Valid() && queries >= old(queries)
      ensures r.Some? ==> r.value.1 == DivergencesOf(db, h, a, b, tables) && r.value.0 == RelationOf(r.value.1)
      ensures r.None? ==> (exists q :: old(queries) <= q < queries && fails(q)) || TableAbsent(db, a, b, tables)
    {
      var divergences: seq<TableDivergence> := [];
      for i := 0 to |tables|
        invariant Valid() && queries >= old(queries)
        invariant divergences == DivergencesOf(db, h, a, b, tables[..i])
      {
        assert tables[..i + 1][..i] == tables[..i];
        var ok, d := CompareTable(a, b, tables[i]);
        if !ok { return None; }
        if d.Some? {
          divergences := divergences + [d.value];
        }
      }
      assert tables[..|tables|] == tables;
      var relation := RelationFromDivergences(divergences);
      r := Some((relation, divergences));
    }

    method ComparePair(pair: (string, string), tables: seq<string>) returns (r: ContentRelation)
      requires Valid() && CollisionFree(h)
      modifies this
      ensures Valid() && IsAnswer(pair, tables, r) && (NeverFails() ==> IsDecided(pair, tables, r))
    {
      var rep := GenericCompare(pair.0, pair.1, tables);
      r := if rep.None? then Unknown else rep.value.0;
    }

    /** The pairwise walk: every answered pair gets the answer a fresh comparison would give,
        whatever was compared before it. */
    method CompareAll(pairs: seq<(string, string)>, tables: seq<string>) returns (rs: seq<ContentRelation>)
      requires Valid() && CollisionFree(h)
      modifies this
      ensures Valid() && |rs| == |pairs|
      ensures forall i :: 0 <= i < |pairs| ==> IsAnswer(pairs[i], tables, rs[i])
      ensures NeverFails() ==> forall i :: 0 <= i < |pairs| ==> IsDecided(pairs[i], tables, rs[i])
    {
      rs := [];
      for i := 0 to |pairs|
        invariant Valid() && |rs| == i
        invariant forall k :: 0 <= k < i ==> IsAnswer(pairs[k], tables, rs[k])
        invariant NeverFails() ==> forall k :: 0 <= k < i ==> IsDecided(pairs[k], tables, rs[k])
      {
        var r := ComparePair(pairs[i], tables);
        rs := rs + [r];
      }
    }

    /** Either no answer, or the answer of a comparison without caches. */
    ghost predicate IsAnswer(pair: (string, string), tables: seq<string>, r: ContentRelation) {
      r == Unknown || r == RelationOf(DivergencesOf(db, h, pair.0, pair.1, tables))
    }

    ghost predicate IsDecided(pair: (string, string), tables: seq<string>, r: ContentRelation) {
      r == Unknown ==> TableAbsent(db, pair.0, pair.1, tables)
    }

    ghost predicate NeverFails() {
      forall q :: !fails(q)
    }
  }

  /** The signature shortcut is exact: equal signatures mean equal tables. */
  lemma EqualSigsAgree(h: Hashing, a: seq<string>, b: seq<string>)
    requires CollisionFree(h)
    ensures SigOf(h, a) == SigOf(h, b) <==> HashAll(h, a) == HashAll(h, b)
    ensures HashAll(h, a) == HashAll(h, b) <==>
            |HashAll(h, b) - HashAll(h, a)| == 0 && |HashAll(h, a) - HashAll(h, b)| == 0
  {
    assert SameAgg(h, HashAll(h, a), HashAll(h, b)) ==> HashAll(h, a) == HashAll(h, b);
    HashCounts(h, a, "");
    HashCounts(h, b, "");
    CardinalityOfDifference(HashAll(h, a), HashAll(h, b));
    CardinalityOfDifference(HashAll(h, b), HashAll(h, a));
  }

  // ----- as a comparator for the authority decision -----

  /** The comparator the authority decision receives: no answer without a connection to both,
      without a table list, for a table one side lacks, or after a failed query; `unreadable`
      are the pairs with a failed query. */
  function DiffComparator(db: Database, h: Hashing, tables: seq<string>,
                          unreadable: (string, string) -> bool): Comparator {
    (a: Instance, b: Instance) =>
      if a.pod !in db || b.pod !in db || tables == [] || unreadable(a.pod, b.pod) ||
        TableAbsent(db, a.pod, b.pod, tables)
      then Unknown
      else RelationOf(DivergencesOf(db, h, a.pod, b.pod, tables))
  }

  function RowExtent(db: Database, tables: seq<string>): Extent {
    (x: Instance, y: Instance) => Includes(db, y.pod, x.pod, tables)
  }

  lemma IncludesIsPreorder(db: Database, a: string, b: string, c: string, tables: seq<string>)
    ensures Includes(db, a, a, tables)
    ensures Includes(db, a, b, tables) && Includes(db, b, c, tables) ==> Includes(db, a, c, tables)
  {}

  /** On any collected instances the diff never claims containment that is not there and
      reports equal content as equal, and it flips with its arguments. With rows only ever
      written through the WAL, the listed rows are an extent. */
  lemma DiffComparatorIsFaithful(insts: seq<Instance>, db: Database, h: Hashing, tables: seq<string>,
                                 unreadable: (string, string) -> bool)
    requires CollisionFree(h)
    ensures Sound(Some(DiffComparator(db, h, tables, unreadable)), RowExtent(db, tables), insts)
    ensures Strict(Some(DiffComparator(db, h, tables, unreadable)), RowExtent(db, tables), insts)
    ensures WALBringsRows(insts, RowExtent(db, tables)) ==> IsExtent(RowExtent(db, tables), insts)
    ensures (forall p, q :: unreadable(p, q) == unreadable(q, p)) ==>
              Symmetric(Some(DiffComparator(db, h, tables, unreadable)))
  {
    var content, extent := DiffComparator(db, h, tables, unreadable), RowExtent(db, tables);
    forall a, b
      ensures content(a, b) == AContainsB ==> extent(b, a) && !extent(a, b)
      ensures content(a, b) == BContainsA ==> extent(a, b) && !extent(b, a)
      ensures content(a, b) == SameContent ==> extent(a, b) && extent(b, a)
    {
      VerdictIsInclusion(db, h, a.pod, b.pod, tables);
    }
    RowsArePreordered(insts, db, tables);
    if forall p, q :: unreadable(p, q) == unreadable(q, p) {
      DiffFlips(db, h, tables, unreadable);
    }
  }

  /** A divergence in WAL stands exactly when the two cannot be compared (no connection, no table list, a
      failed query, a listed table one of them lacks) or each has listed rows the other has not. */
  lemma DivergenceStandsIff(a: Instance, b: Instance, db: Database, h: Hashing, tables: seq<string>,
                            unreadable: (string, string) -> bool)
    requires CollisionFree(h) && Relate(a, b).0 == Diverge
    ensures Resolve(a, b, Some(DiffComparator(db, h, tables, unreadable))) == Diverge <==>
            || a.pod !in db || b.pod !in db || tables == [] || unreadable(a.pod, b.pod)
            || (exists i :: 0 <= i < |tables| && (tables[i] !in db[a.pod] || tables[i] !in db[b.pod]))
            || (!Includes(db, a.pod, b.pod, tables) && !Includes(db, b.pod, a.pod, tables))
  {
    VerdictIsInclusion(db, h, a.pod, b.pod, tables);
    if a.pod in db && b.pod in db {
      assert TableAbsent(db, a.pod, b.pod, tables) <==>
             exists i :: 0 <= i < |tables| && (tables[i] !in db[a.pod] || tables[i] !in db[b.pod]);
    }
  }

  lemma RowsArePreordered(insts: seq<Instance>, db: Database, tables: seq<string>)
    ensures WALBringsRows(insts, RowExtent(db, tables)) ==> IsExtent(RowExtent(db, tables), insts)
  {
    var extent := RowExtent(db, tables);
    forall x, y, z ensures extent(x, x) && (extent(x, y) && extent(y, z) ==> extent(x, z)) {
      IncludesIsPreorder(db, z.pod, y.pod, x.pod, tables);
      IncludesIsPreorder(db, x.pod, x.pod, x.pod, tables);
    }
  }

  lemma DiffFlips(db: Database, h: Hashing, tables: seq<string>, unreadable: (string, string) -> bool)
    requires CollisionFree(h) && forall p, q :: unreadable(p, q) == unreadable(q, p)
    ensures Symmetric(Some(DiffComparator(db, h, tables, unreadable)))
  {
    var content := DiffComparator(db, h, tables, unreadable);
    forall a, b ensures content(b, a) == FlipContent(content(a, b)) {
      VerdictIsInclusion(db, h, a.pod, b.pod, tables);
      VerdictIsInclusion(db, h, b.pod, a.pod, tables);
      AbsenceIsMutual(db, a.pod, b.pod, tables);
    }
  }

  lemma AbsenceIsMutual(db: Database, a: string, b: string, tables: seq<string>)
    ensures TableAbsent(db, a, b, tables) == TableAbsent(db, b, a, tables)
  {}
}
