/** A run of the whole system after which answering an old turn again leaves no turn to keep word for word. */
module WorldView {
  import opened Common
  import opened Text
  import opened Tree
  import opened TreeOps
  import opened TreeRuns
  import opened Segments
  import opened SegmentTable
  import opened Persistence
  import opened World
  import ModelView

  const NO_LIMITS := Limits(0, 0)

  /** Two questions and the answer to the first. */
  function Rows3(): Rows {
    map[1 := Row(None, Some(2), Human, "q"), 2 := Row(Some(1), Some(3), Ai, "a"), 3 := Row(Some(2), None, Human, "r")]
  }

  function Born3(): Rows {
    map[1 := Row(None, None, Human, "q"), 2 := Row(Some(1), None, Ai, "a"), 3 := Row(Some(2), None, Human, "r")]
  }

  function Store3(): Store {
    Store(Rows3(), 4, Born3())
  }

  lemma ThreeAppended()
    ensures Step(EMPTY, NO_LIMITS, Store3())
  {
    var msgs, ids: seq<Id> := [Msg(Human, "q"), Msg(Ai, "a"), Msg(Human, "r")], [1, 2, 3];
    assert WalkPath(EMPTY.rows) == [];
    var s1 := InsertUnder(EMPTY, None, msgs[0], 1);
    var s2 := InsertUnder(s1, Some(1), msgs[1], 2);
    var s3 := InsertUnder(s2, Some(2), msgs[2], 3);
    assert s3 == Store3();
    assert msgs[1..] == [msgs[1], msgs[2]] && msgs[1..][1..] == [msgs[2]];
    assert ids[1..] == [ids[1], ids[2]] && ids[1..][1..] == [ids[2]];
    assert AppendChain(s2, Some(2), [msgs[2]], [3]) == s3 by {
      assert [msgs[2]][1..] == [];
    }
    assert AppendChain(EMPTY, None, msgs, ids) == s3;
    assert Enabled(EMPTY, Append(msgs, ids));
  }

  lemma ThreeKeys()
    ensures RootChain(Rows3(), [1, 2, 3]) && PathKeys(Rows3(), [1, 2, 3]) == [1, 3]
    ensures RootChain(Rows3(), [1]) && PathKeys(Rows3(), [1]) == [1]
  {
    ThreeInLine(Rows3());
  }

  lemma ThreeInLine(rows: Rows)
    requires 1 in rows && rows[1].parent == None && rows[1].kind == Human
    requires 2 in rows && rows[2].parent == Some(1) && rows[2].kind == Ai
    requires 3 in rows && rows[3].parent == Some(2) && rows[3].kind == Human
    ensures RootChain(rows, [1, 2, 3]) && PathKeys(rows, [1, 2, 3]) == [1, 3]
    ensures RootChain(rows, [1]) && PathKeys(rows, [1]) == [1]
  {
    var none: seq<Id> := [];
    assert none + [1] == [1] && [1] + [2] == [1, 2] && [1, 2] + [3] == [1, 2, 3];
    OneMoreRow(rows, none, 1);
    OneMoreRow(rows, [1], 2);
    OneMoreRow(rows, [1, 2], 3);
    assert PathKeys(rows, [1, 2]) == [1];
  }

  lemma OneMoreRow(rows: Rows, p: seq<Id>, k: Id)
    requires RootChain(rows, p) && k in rows && rows[k].parent == if p == [] then None else Some(p[|p| - 1])
    ensures RootChain(rows, p + [k]) && PathKeys(rows, p + [k]) == PathKeys(rows, p) + KeyOfRow(rows, k)
  {
    ChainSnoc(rows, p, k);
    assert (p + [k])[..|p|] == p;
  }

  lemma ThreeOlder(rows: Rows)
    requires rows == Rows3() || rows == Born3()
    ensures ParentsOk(rows)
  {
    forall k | k in rows ensures ParentLink(rows, k) {}
  }

  lemma ThreeBorn()
    ensures ParentsOk(Rows3()) && BornOk(Store3())
  {
    ThreeOlder(Rows3());
    ThreeOlder(Born3());
  }

  ghost function WorldOf(table: Table): World {
    World(Store3(), table)
  }

  function FirstTurn(summary: string, tokens: nat): Segment {
    Segment(0, 1, 1, 0, 1, 0, [], summary, tokens)
  }

  function Table1(summary: string, tokens: nat): Table {
    Table([Segment(1, 1, 1, 0, 1, 0, [], summary, tokens)], 2)
  }

  lemma FirstTurnStored(summary: string, tokens: nat)
    ensures Upsert(Table([], 1), FirstTurn(summary, tokens)) == Table1(summary, tokens)
  {
  }

  lemma FirstTurnBuilt(summary: string, tokens: nat)
    ensures BuiltFromPath(Born3(), FirstTurn(summary, tokens))
  {
    ThreeKeys();
    ThreeBorn();
    CompactionWritesBuilt(Store3(), [1, 2, 3], [], 0, 1, summary, tokens, false);
    assert NewSegment([], [1, 3], 0, 1, summary, tokens, false) == FirstTurn(summary, tokens);
  }

  lemma SegmentWritten(summary: string, tokens: nat)
    requires Strip(summary) == summary != ""
    ensures WorldStep(WorldOf(Table([], 1)), NO_LIMITS, WorldOf(Table1(summary, tokens)))
  {
    FirstTurnBuilt(summary, tokens);
    FirstTurnStored(summary, tokens);
    var s := FirstTurn(summary, tokens);
    assert BuiltFromPath(Store3().born, s) && s.summary == summary;
  }

  lemma RunOfThree(summary: string, tokens: nat)
    requires Strip(summary) == summary != ""
    ensures WorldRun([World(EMPTY, Table([], 1)), WorldOf(Table([], 1)), WorldOf(Table1(summary, tokens))], NO_LIMITS)
  {
    var ws := [World(EMPTY, Table([], 1)), WorldOf(Table([], 1)), WorldOf(Table1(summary, tokens))];
    ThreeAppended();
    SegmentWritten(summary, tokens);
    assert WorldStepAt(ws, NO_LIMITS, 1) && WorldStepAt(ws, NO_LIMITS, 2);
  }

  lemma FirstQuestion()
    ensures ParentsOk(Rows3()) && Ancestors(Rows3(), 1) == [1] && AllIn(Rows3(), [1]) && PathKeys(Rows3(), [1]) == [1]
    ensures ValidVersionTarget(Rows3(), 2) && HumanOf(Rows3(), 2) == 1
  {
    ThreeKeys();
    ThreeBorn();
  }

  /**
   * A run: three messages, then a compaction of the first turn. Answering the first question again afterwards
   * builds its view on the path up to that question, whose only turn the stored chain already covers.
   */
  lemma LastTurnCoveredInRun(summary: string, tokens: nat) returns (ws: seq<World>)
    requires Strip(summary) == summary != ""
    ensures WorldRun(ws, NO_LIMITS)
    ensures var w := ws[|ws| - 1];
      && ParentsOk(w.st.rows) && ValidVersionTarget(w.st.rows, 2) && HumanOf(w.st.rows, 2) == 1
      && Ancestors(w.st.rows, 1) == [1] && AllIn(w.st.rows, [1]) && PathKeys(w.st.rows, [1]) == [1]
      && ModelView.StateOf(w.table, true, [1], 1, "", 0).keepFrom == 1
  {
    ws := [World(EMPTY, Table([], 1)), WorldOf(Table([], 1)), WorldOf(Table1(summary, tokens))];
    RunOfThree(summary, tokens);
    FirstQuestion();
    ModelView.LastTurnCanBeCovered(1, summary, tokens);
  }
}
