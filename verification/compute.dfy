/**
  The hourly compute job: one ET0 and one VPD value per zone and hour, upserted by
  (zone, timestamp).
 */
module Compute {
  import opened Stamps

  datatype Row = Row(zone: int, timestamp: int, user: int, value: real) {
    function Key(): (int, int) { (zone, timestamp) }
  }

  // ---------------------------------------------------------- the map a table stands for

  function Keys(rows: seq<Row>): seq<(int, int)> {
    if rows == [] then [] else [rows[0].Key()] + Keys(rows[1..])
  }

  ghost predicate Unique(rows: seq<Row>) {
    forall i, j | 0 <= i < j < |rows| :: rows[i].Key() != rows[j].Key()
  }

  function AsMap(rows: seq<Row>): map<(int, int), Row> {
    if rows == [] then map[] else AsMap(rows[1..])[rows[0].Key() := rows[0]]
  }

  /** Overwrite the row of the key, or append one. */
  function Upsert(rows: seq<Row>, u: Row): seq<Row> {
    if rows == [] then [u]
    else if rows[0].Key() == u.Key() then [u] + rows[1..]
    else [rows[0]] + Upsert(rows[1..], u)
  }

  function UpsertAll(rows: seq<Row>, updates: seq<Row>): seq<Row>
    decreases |updates|
  {
    if updates == [] then rows else UpsertAll(Upsert(rows, updates[0]), updates[1..])
  }

  /** The last write per key. */
  function LastWrites(updates: seq<Row>): map<(int, int), Row> {
    if updates == [] then map[] else map[updates[0].Key() := updates[0]] + LastWrites(updates[1..])
  }

  function Matches(rows: seq<Row>, key: (int, int)): nat {
    if rows == [] then 0 else (if rows[0].Key() == key then 1 else 0) + Matches(rows[1..], key)
  }

  class ValueTable {
    var rows: seq<Row>

    /**
      `_upsert_value`: select the row of (zone, timestamp), raise when there are several,
      overwrite it when there is one, add one when there is none.
     */
    method UpsertValue(u: Row) returns (raised: bool)
      modifies this
      ensures raised <==> Matches(old(rows), u.Key()) > 1
      ensures rows == if raised then old(rows) else Upsert(old(rows), u)
    {
      var found: nat, count: nat, i := |rows|, 0, 0;
      while i < |rows|
        invariant i <= |rows| && rows == old(rows)
        invariant count + Matches(rows[i..], u.Key()) == Matches(rows, u.Key())
        invariant count == 0 ==> found == |rows|
        invariant count > 0 ==> found < i && rows[found].Key() == u.Key()
        invariant forall k | 0 <= k < i && k < found :: rows[k].Key() != u.Key()
      {
        if rows[i].Key() == u.Key() {
          found := if count == 0 then i else found;
          count := count + 1;
        }
        i := i + 1;
      }
      if count > 1 {
        return true;
      }
      raised := false;
      UpsertAt(rows, u, found);
      if count == 1 {
        rows := rows[found := u];
      } else {
        rows := rows + [u];
      }
    }
  }

  lemma {:induction false} UpsertAt(rows: seq<Row>, u: Row, i: nat)
    requires i <= |rows| && forall k | 0 <= k < i :: rows[k].Key() != u.Key()
    requires i < |rows| ==> rows[i].Key() == u.Key()
    ensures Upsert(rows, u) == if i < |rows| then rows[i := u] else rows + [u]
  {
    if rows == [] || i == 0 {
    } else {
      UpsertAt(rows[1..], u, i - 1);
    }
  }

  // ---------------------------------------------------------- refinement

  /** An upsert is a map update, whatever the table holds. */
  lemma {:induction false} UpsertUpdatesMap(rows: seq<Row>, u: Row)
    ensures AsMap(Upsert(rows, u)) == AsMap(rows)[u.Key() := u]
  {
    if rows == [] || rows[0].Key() == u.Key() {
    } else {
      UpsertUpdatesMap(rows[1..], u);
      assert Upsert(rows, u)[1..] == Upsert(rows[1..], u);
    }
  }

  lemma {:induction false} UpsertKeys(rows: seq<Row>, u: Row)
    ensures Keys(Upsert(rows, u)) == if u.Key() in Keys(rows) then Keys(rows) else Keys(rows) + [u.Key()]
  {
    if rows == [] {
    } else if rows[0].Key() == u.Key() {
      assert Upsert(rows, u)[1..] == rows[1..];
    } else {
      UpsertKeys(rows[1..], u);
      assert Upsert(rows, u)[1..] == Upsert(rows[1..], u);
    }
  }

  lemma {:induction false} KeysAt(rows: seq<Row>)
    ensures |Keys(rows)| == |rows| && forall i | 0 <= i < |rows| :: Keys(rows)[i] == rows[i].Key()
  {
    if rows == [] {
    } else {
      KeysAt(rows[1..]);
    }
  }

  lemma UpsertKeepsUnique(rows: seq<Row>, u: Row)
    requires Unique(rows)
    ensures Unique(Upsert(rows, u)) && Matches(rows, u.Key()) <= 1
  {
    KeysAt(rows);
    KeysAt(Upsert(rows, u));
    UpsertKeys(rows, u);
    var after := Upsert(rows, u);
    forall i, j | 0 <= i < j < |after| ensures after[i].Key() != after[j].Key() {
      assert Keys(after)[i] == after[i].Key() && Keys(after)[j] == after[j].Key();
    }
    MatchesAtMostOne(rows, u.Key());
  }

  lemma {:induction false} MatchesAtMostOne(rows: seq<Row>, key: (int, int))
    requires Unique(rows)
    ensures Matches(rows, key) <= 1
    ensures Matches(rows, key) == 1 <==> exists r :: r in rows && r.Key() == key
  {
    if rows == [] {
    } else {
      MatchesAtMostOne(rows[1..], key);
      assert rows[0] in rows;
      forall r | r in rows[1..] ensures r.Key() != rows[0].Key() {
        var k :| 0 <= k < |rows[1..]| && rows[1..][k] == r;
        assert r == rows[k + 1];
      }
      assert forall r | r in rows :: r == rows[0] || r in rows[1..];
    }
  }

  /**
    Any sequence of upserts keeps one row per (zone, timestamp) and makes the table the
    last-write-wins map over what it held.
   */
  lemma {:induction false} UpsertsAreLastWriteWins(rows: seq<Row>, updates: seq<Row>)
    requires Unique(rows)
    ensures Unique(UpsertAll(rows, updates))
    ensures AsMap(UpsertAll(rows, updates)) == AsMap(rows) + LastWrites(updates)
    decreases |updates|
  {
    if updates == [] {
    } else {
      UpsertKeepsUnique(rows, updates[0]);
      UpsertUpdatesMap(rows, updates[0]);
      UpsertsAreLastWriteWins(Upsert(rows, updates[0]), updates[1..]);
      LaterWritesWin(AsMap(rows), updates[0], LastWrites(updates[1..]));
    }
  }

  lemma LaterWritesWin(table: map<(int, int), Row>, u: Row, later: map<(int, int), Row>)
    ensures table[u.Key() := u] + later == table + (map[u.Key() := u] + later)
  {
  }

  lemma {:induction false} MapHoldsKeys(rows: seq<Row>, key: (int, int))
    ensures key in AsMap(rows) <==> key in Keys(rows)
  {
    if rows == [] {
    } else {
      MapHoldsKeys(rows[1..], key);
    }
  }

  /** A table with one row per key is determined by its key order and its map. */
  lemma {:induction false} TableFromMap(a: seq<Row>, b: seq<Row>)
    requires Unique(a) && Unique(b) && Keys(a) == Keys(b) && AsMap(a) == AsMap(b)
    ensures a == b
  {
    KeysAt(a);
    KeysAt(b);
    forall i | 0 <= i < |a| ensures a[i] == b[i] {
      MapAt(a, i);
      MapAt(b, i);
      assert Keys(a)[i] == Keys(b)[i];
    }
  }

  lemma {:induction false} MapAt(rows: seq<Row>, i: nat)
    requires Unique(rows) && i < |rows|
    ensures rows[i].Key() in AsMap(rows) && AsMap(rows)[rows[i].Key()] == rows[i]
  {
    if i == 0 {
    } else {
      MapAt(rows[1..], i - 1);
      assert rows[0].Key() != rows[i].Key();
    }
  }

  lemma {:induction false} UpsertsOfKnownKeys(rows: seq<Row>, updates: seq<Row>)
    requires forall u | u in updates :: u.Key() in Keys(rows)
    ensures Keys(UpsertAll(rows, updates)) == Keys(rows)
    decreases |updates|
  {
    if updates == [] {
    } else {
      assert updates[0] in updates;
      UpsertKeys(rows, updates[0]);
      UpsertsOfKnownKeys(Upsert(rows, updates[0]), updates[1..]);
    }
  }

  lemma {:induction false} WritesAreKeyed(updates: seq<Row>, u: Row)
    requires u in updates
    ensures u.Key() in LastWrites(updates)
  {
    if u == updates[0] {
    } else {
      WritesAreKeyed(updates[1..], u);
    }
  }

  /** Retries and double fires add nothing: rerunning a run leaves the table untouched. */
  lemma RerunChangesNothing(rows: seq<Row>, updates: seq<Row>)
    requires Unique(rows)
    ensures UpsertAll(UpsertAll(rows, updates), updates) == UpsertAll(rows, updates)
  {
    var once := UpsertAll(rows, updates);
    UpsertsAreLastWriteWins(rows, updates);
    UpsertsAreLastWriteWins(once, updates);
    forall u | u in updates ensures u.Key() in Keys(once) {
      WritesAreKeyed(updates, u);
      MapHoldsKeys(once, u.Key());
    }
    UpsertsOfKnownKeys(once, updates);
    TableFromMap(UpsertAll(once, updates), once);
  }

  // ---------------------------------------------------------- the hourly job

  datatype HourResult = HourResult(timestamp: int, user: int, et0: real, vpd: real)

  /** The rows one run writes: the zones with a result, in order. */
  function Et0Rows(zones: seq<int>, results: map<int, HourResult>): seq<Row> {
    if zones == [] then []
    else (if zones[0] in results then var h := results[zones[0]]; [Row(zones[0], h.timestamp, h.user, h.et0)] else [])
         + Et0Rows(zones[1..], results)
  }

  function VpdRows(zones: seq<int>, results: map<int, HourResult>): seq<Row> {
    if zones == [] then []
    else (if zones[0] in results then var h := results[zones[0]]; [Row(zones[0], h.timestamp, h.user, h.vpd)] else [])
         + VpdRows(zones[1..], results)
  }

  lemma {:induction false} OneRowEach(zones: seq<int>, results: map<int, HourResult>)
    ensures |Et0Rows(zones, results)| == |VpdRows(zones, results)|
  {
    if zones == [] {
    } else {
      OneRowEach(zones[1..], results);
    }
  }

  lemma LastWritesCons(u: Row, rest: seq<Row>)
    ensures LastWrites([u] + rest) == map[u.Key() := u] + LastWrites(rest)
  {
    assert ([u] + rest)[1..] == rest;
  }

  /** What one run writes at a key: the zone's ET0 at its hour, under its user. */
  lemma {:induction false} Et0Writes(zones: seq<int>, results: map<int, HourResult>, key: (int, int))
    ensures var writes := LastWrites(Et0Rows(zones, results));
            && (key in writes <==> key.0 in zones && key.0 in results && key.1 == results[key.0].timestamp)
            && (key in writes ==> writes[key].user == results[key.0].user && writes[key].value == results[key.0].et0)
  {
    if zones == [] {
    } else {
      var rest := Et0Rows(zones[1..], results);
      Et0Writes(zones[1..], results, key);
      if zones[0] in results {
        var h := results[zones[0]];
        LastWritesCons(Row(zones[0], h.timestamp, h.user, h.et0), rest);
      } else {
        assert Et0Rows(zones, results) == rest;
      }
    }
  }

  lemma {:induction false} VpdWrites(zones: seq<int>, results: map<int, HourResult>, key: (int, int))
    ensures var writes := LastWrites(VpdRows(zones, results));
            && (key in writes <==> key.0 in zones && key.0 in results && key.1 == results[key.0].timestamp)
            && (key in writes ==> writes[key].user == results[key.0].user && writes[key].value == results[key.0].vpd)
  {
    if zones == [] {
    } else {
      var rest := VpdRows(zones[1..], results);
      VpdWrites(zones[1..], results, key);
      if zones[0] in results {
        var h := results[zones[0]];
        LastWritesCons(Row(zones[0], h.timestamp, h.user, h.vpd), rest);
      } else {
        assert VpdRows(zones, results) == rest;
      }
    }
  }

  /**
    After a run, each zone with a result holds its own ET0 and its own VPD at its hour, and
    every other entry of both tables is what it was.
   */
  lemma RunStoresItsResults(et0: seq<Row>, vpd: seq<Row>, zones: seq<int>, results: map<int, HourResult>, key: (int, int))
    requires Unique(et0) && Unique(vpd)
    ensures var e, v := AsMap(UpsertAll(et0, Et0Rows(zones, results))), AsMap(UpsertAll(vpd, VpdRows(zones, results)));
            if key.0 in zones && key.0 in results && key.1 == results[key.0].timestamp then
              var h := results[key.0];
              && key in e && e[key].user == h.user && e[key].value == h.et0
              && key in v && v[key].user == h.user && v[key].value == h.vpd
            else
              && (if key in e then Some(e[key]) else None) == (if key in AsMap(et0) then Some(AsMap(et0)[key]) else None)
              && (if key in v then Some(v[key]) else None) == (if key in AsMap(vpd) then Some(AsMap(vpd)[key]) else None)
  {
    Et0Writes(zones, results, key);
    VpdWrites(zones, results, key);
    UpsertsAreLastWriteWins(et0, Et0Rows(zones, results));
    UpsertsAreLastWriteWins(vpd, VpdRows(zones, results));
  }

  /** An upsert raises exactly when two rows carry the key. */
  lemma {:induction false} MatchesCountRows(rows: seq<Row>, key: (int, int))
    ensures Matches(rows, key) > 0 <==> exists i :: 0 <= i < |rows| && rows[i].Key() == key
    ensures Matches(rows, key) > 1 <==> exists i, j :: 0 <= i < j < |rows| && rows[i].Key() == key && rows[j].Key() == key
  {
    if rows == [] {
    } else {
      var rest := rows[1..];
      MatchesCountRows(rest, key);
      if i, j :| 0 <= i < j < |rest| && rest[i].Key() == key && rest[j].Key() == key {
        assert rows[i + 1].Key() == key && rows[j + 1].Key() == key;
      }
      if k :| 0 <= k < |rest| && rest[k].Key() == key {
        assert rows[k + 1].Key() == key;
      }
      if i, j :| 0 <= i < j < |rows| && rows[i].Key() == key && rows[j].Key() == key {
        assert rest[j - 1].Key() == key;
        assert i > 0 ==> rest[i - 1].Key() == key;
      }
    }
  }

  lemma UpsertAllCons(rows: seq<Row>, u: Row, rest: seq<Row>)
    ensures UpsertAll(rows, [u] + rest) == UpsertAll(Upsert(rows, u), rest)
  {
    assert ([u] + rest)[1..] == rest;
  }

  class HourlyJob {
    const et0: ValueTable
    const vpd: ValueTable

    ghost predicate Valid()
      reads this, et0, vpd
    {
      et0 != vpd && Unique(et0.rows) && Unique(vpd.rows)
    }

    constructor ()
      ensures Valid() && fresh(et0) && fresh(vpd) && et0.rows == [] && vpd.rows == []
    {
      var e := new ValueTable;
      var v := new ValueTable;
      e.rows, v.rows := [], [];
      et0, vpd := e, v;
    }

    /** One run over all zones. On tables with one row per key no upsert ever raises. */
    method ComputeHourly(zones: seq<int>, results: map<int, HourResult>) returns (processed: nat, written: nat)
      requires Valid()
      modifies et0, vpd
      ensures Valid()
      ensures et0.rows == UpsertAll(old(et0.rows), Et0Rows(zones, results))
      ensures vpd.rows == UpsertAll(old(vpd.rows), VpdRows(zones, results))
      ensures processed == |zones| && written == |Et0Rows(zones, results)| == |VpdRows(zones, results)|
    {
      processed, written := |zones|, 0;
      OneRowEach(zones, results);
      assert zones[0..] == zones;
      var i := 0;
      while i < |zones|
        invariant i <= |zones| && Valid()
        invariant UpsertAll(et0.rows, Et0Rows(zones[i..], results)) == UpsertAll(old(et0.rows), Et0Rows(zones, results))
        invariant UpsertAll(vpd.rows, VpdRows(zones[i..], results)) == UpsertAll(old(vpd.rows), VpdRows(zones, results))
        invariant written + |Et0Rows(zones[i..], results)| == |Et0Rows(zones, results)|
      {
        var zone := zones[i];
        ghost var et0Rest, vpdRest := Et0Rows(zones[i + 1..], results), VpdRows(zones[i + 1..], results);
        assert zones[i..][1..] == zones[i + 1..];
        if zone in results {
          var h := results[zone];
          assert Et0Rows(zones[i..], results) == [Row(zone, h.timestamp, h.user, h.et0)] + et0Rest;
          assert VpdRows(zones[i..], results) == [Row(zone, h.timestamp, h.user, h.vpd)] + vpdRest;
          UpsertAllCons(et0.rows, Row(zone, h.timestamp, h.user, h.et0), et0Rest);
          UpsertAllCons(vpd.rows, Row(zone, h.timestamp, h.user, h.vpd), vpdRest);
          UpsertKeepsUnique(et0.rows, Row(zone, h.timestamp, h.user, h.et0));
          UpsertKeepsUnique(vpd.rows, Row(zone, h.timestamp, h.user, h.vpd));
          var raised := et0.UpsertValue(Row(zone, h.timestamp, h.user, h.et0));
          raised := vpd.UpsertValue(Row(zone, h.timestamp, h.user, h.vpd));
          written := written + 1;
        } else {
          assert Et0Rows(zones[i..], results) == et0Rest && VpdRows(zones[i..], results) == vpdRest;
        }
        i := i + 1;
      }
    }
  }
}
