/** The segment table and what writing one more segment does to the chain loaded next. */
module SegmentTable {
  import opened Common
  import opened Text
  import opened Segments

  datatype Table = Table(rows: seq<Segment>, nextId: nat)

  /** Row ids and key pairs are unique; stored summaries are trimmed and not empty. */
  ghost predicate TableOk(t: Table) {
    && (forall i :: 0 <= i < |t.rows| ==> t.rows[i].rowId < t.nextId && Strip(t.rows[i].summary) == t.rows[i].summary != "")
    && (forall i, j :: 0 <= i < j < |t.rows| ==>
          t.rows[i].rowId != t.rows[j].rowId && SegIdOf(t.rows[i]) != SegIdOf(t.rows[j]))
  }

  // ---------------------------------------------------------------- reading

  function InsertOrdered(s: Segment, sorted: seq<Segment>): (r: seq<Segment>) {
    if sorted == [] then [s]
    else if Before(s, sorted[0]) then [s] + sorted
    else [sorted[0]] + InsertOrdered(s, sorted[1..])
  }

  /** `ORDER BY from_index ASC, id ASC`. */
  function Loaded(rows: seq<Segment>): seq<Segment> {
    if rows == [] then [] else InsertOrdered(rows[0], Loaded(rows[1..]))
  }

  lemma {:induction false} InsertOrderedSpec(s: Segment, sorted: seq<Segment>)
    requires Ordered(sorted) && forall x :: x in sorted ==> x.rowId != s.rowId
    ensures Ordered(InsertOrdered(s, sorted))
    ensures forall x :: x in InsertOrdered(s, sorted) <==> x == s || x in sorted
  {
    if sorted != [] && !Before(s, sorted[0]) {
      InsertOrderedSpec(s, sorted[1..]);
      var rest := InsertOrdered(s, sorted[1..]);
      var r := [sorted[0]] + rest;
      forall x | x in rest ensures Before(sorted[0], x) {
        if x != s {
          var k :| 0 <= k < |sorted[1..]| && sorted[1..][k] == x;
          assert sorted[k + 1] == x;
        }
      }
      forall i, j | 0 <= i < j < |r| ensures Before(r[i], r[j]) {
        assert r[j] == rest[j - 1];
        if i > 0 { assert r[i] == rest[i - 1]; }
      }
      assert sorted == [sorted[0]] + sorted[1..];
    }
  }

  lemma {:induction false} LoadedSpec(rows: seq<Segment>)
    requires forall i, j :: 0 <= i < j < |rows| ==> rows[i].rowId != rows[j].rowId
    ensures Ordered(Loaded(rows))
    ensures forall x :: x in Loaded(rows) <==> x in rows
  {
    if rows != [] {
      LoadedSpec(rows[1..]);
      forall x | x in Loaded(rows[1..]) ensures x.rowId != rows[0].rowId {
        var k :| 0 <= k < |rows[1..]| && rows[1..][k] == x;
        assert rows[k + 1] == x;
      }
      InsertOrderedSpec(rows[0], Loaded(rows[1..]));
      assert rows == [rows[0]] + rows[1..];
    }
  }

  // ---------------------------------------------------------------- writing

  function FindRow(rows: seq<Segment>, id: SegId): (r: Option<nat>)
    ensures r.Some? ==> r.value < |rows| && SegIdOf(rows[r.value]) == id
    ensures r.None? ==> forall i :: 0 <= i < |rows| ==> SegIdOf(rows[i]) != id
  {
    if rows == [] then None
    else if SegIdOf(rows[|rows| - 1]) == id then Some(|rows| - 1)
    else FindRow(rows[..|rows| - 1], id)
  }

  /** The row a write of `s` ends up in keeps its id if the key pair exists already. */
  function StoredAs(t: Table, s: Segment): Segment {
    var at := FindRow(t.rows, SegIdOf(s));
    s.(rowId := if at.Some? then t.rows[at.value].rowId else t.nextId)
  }

  function Upsert(t: Table, s: Segment): Table {
    var at := FindRow(t.rows, SegIdOf(s));
    if at.Some? then t.(rows := t.rows[at.value := StoredAs(t, s)])
    else Table(t.rows + [StoredAs(t, s)], t.nextId + 1)
  }

  function Without(rows: seq<Segment>, ids: seq<SegId>): seq<Segment> {
    if rows == [] then []
    else Without(rows[..|rows| - 1], ids) + if SegIdOf(rows[|rows| - 1]) in ids then [] else [rows[|rows| - 1]]
  }

  lemma UpsertSpec(t: Table, s: Segment)
    requires TableOk(t) && Strip(s.summary) == s.summary != ""
    ensures TableOk(Upsert(t, s))
    ensures forall x :: x in Upsert(t, s).rows <==> x == StoredAs(t, s) || (x in t.rows && SegIdOf(x) != SegIdOf(s))
  {
    var at, x := FindRow(t.rows, SegIdOf(s)), StoredAs(t, s);
    if at.Some? {
      ReplaceAlike(t.rows, at.value, x, t.nextId);
    } else {
      AddUnlike(t.rows, x, t.nextId + 1);
    }
  }

  lemma ReplaceAlike(rows: seq<Segment>, k: nat, x: Segment, nextId: nat)
    requires TableOk(Table(rows, nextId)) && k < |rows| && Strip(x.summary) == x.summary != ""
    requires x.rowId == rows[k].rowId && SegIdOf(x) == SegIdOf(rows[k])
    ensures TableOk(Table(rows[k := x], nextId))
    ensures forall y :: y in rows[k := x] <==> y == x || (y in rows && SegIdOf(y) != SegIdOf(x))
  {
    var rows' := rows[k := x];
    forall y | y in rows && SegIdOf(y) != SegIdOf(x) ensures y in rows' {
      var i :| 0 <= i < |rows| && rows[i] == y;
      assert rows'[i] == y;
    }
    assert rows'[k] == x;
  }

  lemma {:induction false} WithoutSpec(rows: seq<Segment>, ids: seq<SegId>)
    ensures forall x :: x in Without(rows, ids) <==> x in rows && SegIdOf(x) !in ids
  {
    if rows != [] {
      WithoutSpec(rows[..|rows| - 1], ids);
      assert rows == rows[..|rows| - 1] + [rows[|rows| - 1]];
    }
  }

  ghost predicate Unlike(x: Segment, rows: seq<Segment>) {
    forall y :: y in rows ==> y.rowId != x.rowId && SegIdOf(y) != SegIdOf(x)
  }

  lemma AddUnlike(rows: seq<Segment>, x: Segment, nextId: nat)
    requires TableOk(Table(rows, nextId)) && Unlike(x, rows)
    requires x.rowId < nextId && Strip(x.summary) == x.summary != ""
    ensures TableOk(Table(rows + [x], nextId))
  {
  }

  lemma LastIsUnlike(rows: seq<Segment>, nextId: nat)
    requires rows != [] && TableOk(Table(rows, nextId))
    ensures TableOk(Table(rows[..|rows| - 1], nextId)) && Unlike(rows[|rows| - 1], rows[..|rows| - 1])
  {
  }

  lemma {:induction false} WithoutKeeps(rows: seq<Segment>, ids: seq<SegId>, nextId: nat)
    requires TableOk(Table(rows, nextId))
    ensures TableOk(Table(Without(rows, ids), nextId))
  {
    if rows != [] {
      var init, last := rows[..|rows| - 1], rows[|rows| - 1];
      LastIsUnlike(rows, nextId);
      WithoutKeeps(init, ids, nextId);
      WithoutSpec(init, ids);
      if SegIdOf(last) in ids {
        assert Without(rows, ids) == Without(init, ids);
      } else {
        AddUnlike(Without(init, ids), last, nextId);
      }
    }
  }
}
