/** The message records a client sees: the current path, each row with its version information. */
module Records {
  import opened Common
  import opened Text
  import opened Tree
  import opened TreeOps
  import opened TreeRuns

  const PREVIEW_CHARS := 160

  datatype Record = Record(
    id: Id, parent: Option<Id>, kind: Kind, content: string,
    versionIndex: nat, versionCount: nat, siblings: seq<Id>)

  ghost function IndexOf(s: seq<Id>, x: Id): (i: nat)
    requires x in s
    ensures i < |s| && s[i] == x
  {
    var i: nat :| i < |s| && s[i] == x;
    i
  }

  lemma AiInOwnVersions(rows: Rows, id: Id)
    requires id in rows && rows[id].kind == Ai && rows[id].parent.Some?
    ensures id in SortedIds(AiKids(rows, rows[id].parent.value))
  {
  }

  /** An assistant row is numbered among the assistant rows of its parent; any other row is 1 of 1. */
  ghost function RecordOf(rows: Rows, id: Id): Record
    requires id in rows
  {
    var r := rows[id];
    if r.kind == Ai && r.parent.Some? then
      var sibs := SortedIds(AiKids(rows, r.parent.value));
      AiInOwnVersions(rows, id);
      Record(id, r.parent, r.kind, r.content, IndexOf(sibs, id) + 1, |sibs|, sibs)
    else Record(id, r.parent, r.kind, r.content, 1, 1, [id])
  }

  ghost function RecordsAlong(rows: Rows, p: seq<Id>): (r: seq<Record>)
    requires forall i :: 0 <= i < |p| ==> p[i] in rows
    ensures |r| == |p|
  {
    if p == [] then [] else RecordsAlong(rows, p[..|p| - 1]) + [RecordOf(rows, p[|p| - 1])]
  }

  lemma {:induction false} WalkInRows(rows: Rows, node: Option<Id>, seen: set<Id>)
    ensures forall i :: 0 <= i < |WalkFrom(rows, node, seen)| ==> WalkFrom(rows, node, seen)[i] in rows
    decreases rows.Keys - seen
  {
    if node.Some? && node.value in rows && node.value !in seen {
      WalkInRows(rows, NextOf(rows, node.value), seen + {node.value});
    }
  }

  lemma PathInRows(rows: Rows)
    ensures forall i :: 0 <= i < |WalkPath(rows)| ==> WalkPath(rows)[i] in rows
  {
    if Roots(rows) != {} {
      WalkInRows(rows, Some(MinOf(Roots(rows))), {});
    }
  }

  ghost function RecordsOf(rows: Rows): seq<Record> {
    PathInRows(rows);
    RecordsAlong(rows, WalkPath(rows))
  }

  /** Text of the last user message of the path, on one line, at most 160 characters. */
  function PreviewAlong(rows: Rows, p: seq<Id>): string
    requires forall i :: 0 <= i < |p| ==> p[i] in rows
  {
    if p == [] then ""
    else if rows[p[|p| - 1]].kind == Human then
      Truncate(NewlinesToSpaces(Strip(rows[p[|p| - 1]].content)), PREVIEW_CHARS)
    else PreviewAlong(rows, p[..|p| - 1])
  }

  ghost function PreviewOf(rows: Rows): string {
    PathInRows(rows);
    PreviewAlong(rows, WalkPath(rows))
  }

  /** Deleting one subtree after another is deleting them together. */
  lemma CascadeOneMore(rows: Rows, gone: set<Id>, v: Id)
    requires ParentsOk(rows) && ParentsOk(Cascade(rows, gone))
    ensures Cascade(Cascade(rows, gone), {v}) == Cascade(rows, gone + {v})
  {
    var left := Cascade(rows, gone);
    forall k | k in left ensures Below(left, k, {v}) == Below(rows, k, gone + {v}) {
      BelowOneMore(rows, gone, v, k);
    }
    forall k | k in rows && k !in left ensures Below(rows, k, gone + {v}) {
      BelowMore(rows, k, gone, gone + {v});
    }
  }

  lemma {:induction false} BelowMore(rows: Rows, k: Id, gone: set<Id>, more: set<Id>)
    requires ParentsOk(rows) && k in rows && gone <= more && Below(rows, k, gone)
    ensures Below(rows, k, more)
    decreases k
  {
    assert ParentLink(rows, k);
    if k !in gone { BelowMore(rows, rows[k].parent.value, gone, more); }
  }

  lemma {:induction false} BelowOneMore(rows: Rows, gone: set<Id>, v: Id, k: Id)
    requires ParentsOk(rows) && ParentsOk(Cascade(rows, gone)) && k in Cascade(rows, gone)
    ensures Below(Cascade(rows, gone), k, {v}) == Below(rows, k, gone + {v})
    decreases k
  {
    var left := Cascade(rows, gone);
    assert ParentLink(rows, k) && ParentLink(left, k) && left[k] == rows[k];
    if rows[k].parent.Some? {
      BelowOneMore(rows, gone, v, rows[k].parent.value);
    }
  }
}
