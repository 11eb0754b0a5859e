/**
 * The message tree of one chat session: rows linked by `parent` and `selected`,
 * the walk that resolves the current path, and the invariant every write keeps.
 */
module Tree {
  import opened Common

  datatype Kind = Human | Ai | System | Other

  datatype Row = Row(parent: Option<Id>, selected: Option<Id>, kind: Kind, content: string)

  type Rows = map<Id, Row>

  ghost function Kids(rows: Rows, id: Id): set<Id> {
    set k | k in rows && rows[k].parent == Some(id)
  }

  ghost function AiKids(rows: Rows, id: Id): set<Id> {
    set k | k in rows && rows[k].parent == Some(id) && rows[k].kind == Ai
  }

  ghost function Roots(rows: Rows): set<Id> {
    set k | k in rows && rows[k].parent == None
  }

  // ---------------------------------------------------------------- the walk, on any rows

  /** Selected child if it exists, else the smallest child, else none. */
  ghost function NextOf(rows: Rows, id: Id): Option<Id>
    requires id in rows
  {
    var sel := rows[id].selected;
    if sel.Some? && sel.value in rows then sel
    else if Kids(rows, id) != {} then Some(MinOf(Kids(rows, id)))
    else None
  }

  /** The walk stops at a missing node or at one it has already visited. */
  ghost function WalkFrom(rows: Rows, node: Option<Id>, seen: set<Id>): seq<Id>
    decreases rows.Keys - seen
  {
    if node.None? || node.value !in rows || node.value in seen then []
    else [node.value] + WalkFrom(rows, NextOf(rows, node.value), seen + {node.value})
  }

  ghost function WalkPath(rows: Rows): seq<Id> {
    if rows == map[] then []
    else if Roots(rows) == {} then SortedIds(rows.Keys)
    else WalkFrom(rows, Some(MinOf(Roots(rows))), {})
  }

  // ---------------------------------------------------------------- the invariant

  /** A row's parent exists and is older. */
  ghost predicate ParentLink(rows: Rows, k: Id)
    requires k in rows
  {
    rows[k].parent.Some? ==> rows[k].parent.value in rows && rows[k].parent.value < k
  }

  /** A row that selects something selects one of its children. */
  ghost predicate SelectedLink(rows: Rows, k: Id)
    requires k in rows
  {
    rows[k].selected.Some? ==> rows[k].selected.value in rows && rows[rows[k].selected.value].parent == Some(k)
  }

  /** A row that has a child selects something. */
  ghost predicate ChildLink(rows: Rows, k: Id)
    requires k in rows
  {
    rows[k].selected.None? ==> Kids(rows, k) == {}
  }

  ghost predicate ParentsOk(rows: Rows) {
    forall k {:trigger ParentLink(rows, k)} :: k in rows ==> ParentLink(rows, k)
  }

  ghost predicate OneRoot(rows: Rows) {
    forall j, k :: j in rows && k in rows && rows[j].parent.None? && rows[k].parent.None? ==> j == k
  }

  /** `selected` is null exactly at leaves and otherwise names a child. */
  ghost predicate PointersOk(rows: Rows) {
    && (forall k {:trigger SelectedLink(rows, k)} :: k in rows ==> SelectedLink(rows, k))
    && (forall k {:trigger ChildLink(rows, k)} :: k in rows ==> ChildLink(rows, k))
  }

  ghost predicate TreeInv(rows: Rows) {
    ParentsOk(rows) && OneRoot(rows) && PointersOk(rows)
  }

  /** Root-to-row chain along `parent`. */
  ghost function Ancestors(rows: Rows, k: Id): (r: seq<Id>)
    requires ParentsOk(rows) && k in rows
    ensures r != [] && r[|r| - 1] == k
    decreases k
  {
    assert ParentLink(rows, k);
    if rows[k].parent.None? then [k] else Ancestors(rows, rows[k].parent.value) + [k]
  }

  /** Rows with an id of at least `k`; shrinks as a walk goes down. */
  ghost function RowsFrom(rows: Rows, k: Id): set<Id> {
    set x | x in rows && x >= k
  }

  /** Row-to-leaf chain along `selected`. */
  ghost function Down(rows: Rows, k: Id): (r: seq<Id>)
    requires ParentsOk(rows) && PointersOk(rows) && k in rows
    ensures r != [] && r[0] == k
    decreases RowsFrom(rows, k)
  {
    assert SelectedLink(rows, k);
    if rows[k].selected.None? then [k] else
      var c := rows[k].selected.value;
      assert ParentLink(rows, c) && k in RowsFrom(rows, k) && k !in RowsFrom(rows, c);
      [k] + Down(rows, c)
  }

  ghost predicate HangsBelow(rows: Rows, p: seq<Id>, i: nat)
    requires 0 < i < |p| && p[i] in rows
  {
    rows[p[i]].parent == Some(p[i - 1])
  }

  /** Each row of `p` is the parent of the next. */
  ghost predicate Hanging(rows: Rows, p: seq<Id>) {
    && (forall i :: 0 <= i < |p| ==> p[i] in rows)
    && (forall i {:trigger HangsBelow(rows, p, i)} :: 0 < i < |p| ==> HangsBelow(rows, p, i))
  }

  /** `p` starts at a root and each row is the parent of the next. */
  ghost predicate RootChain(rows: Rows, p: seq<Id>) {
    Hanging(rows, p) && (p != [] ==> rows[p[0]].parent.None?)
  }

  /** Every row of `p` selects the next one, and the last selects nothing. */
  ghost predicate FollowsPointers(rows: Rows, p: seq<Id>) {
    forall i {:trigger Successor(p, i)} {:trigger p[i] in rows} :: 0 <= i < |p| ==> p[i] in rows && rows[p[i]].selected == Successor(p, i)
  }

  ghost function Successor(p: seq<Id>, i: nat): Option<Id> {
    if i + 1 < |p| then Some(p[i + 1]) else None
  }

  /** Every row of `p` selects the next one, and the last selects `next`. */
  ghost predicate PointsTo(rows: Rows, p: seq<Id>, next: Id) {
    forall i {:trigger Successor(p, i)} {:trigger p[i] in rows} :: 0 <= i < |p| ==>
      p[i] in rows && rows[p[i]].selected == if i + 1 < |p| then Successor(p, i) else Some(next)
  }

  /** Pointers along two pieces, the first of which ends by selecting the head of the second. */
  lemma JoinPointers(rows: Rows, p: seq<Id>, d: seq<Id>)
    requires d != [] && PointsTo(rows, p, d[0]) && FollowsPointers(rows, d)
    ensures FollowsPointers(rows, p + d)
  {
    var q := p + d;
    forall j | 0 <= j < |q| ensures q[j] in rows && rows[q[j]].selected == Successor(q, j) {
      if j < |p| {
        assert p[j] in rows && rows[p[j]].selected == if j + 1 < |p| then Successor(p, j) else Some(d[0]);
        assert q[j] == p[j] && q[j + 1] == if j + 1 < |p| then p[j + 1] else d[0];
      } else {
        assert q[j] == d[j - |p|] && Successor(d, j - |p|) == Successor(q, j);
      }
    }
  }

  /** If only the i-th row of a path changed its pointer, the rows up to it still point on, the last one to `next`. */
  lemma PrefixPoints(rows: Rows, rows': Rows, p: seq<Id>, i: nat, next: Id)
    requires FollowsPointers(rows, p) && Increasing(p) && i < |p|
    requires p[i] in rows' && rows'[p[i]].selected == Some(next)
    requires forall k :: k in rows && k < p[i] ==> k in rows' && rows'[k] == rows[k]
    ensures PointsTo(rows', p[..i + 1], next)
  {
    var top := p[..i + 1];
    forall j | 0 <= j < |top|
      ensures top[j] in rows' && rows'[top[j]].selected == if j < i then Successor(top, j) else Some(next)
    {
      assert top[j] == p[j] && p[j] in rows && rows[p[j]].selected == Successor(p, j);
      if j < i { assert p[j] < p[i] && Successor(top, j) == Successor(p, j); }
    }
  }

  // ---------------------------------------------------------------- chains are determined by their last row

  /** Only the parents of its own rows matter to a chain. */
  lemma ChainKept(rows: Rows, rows': Rows, p: seq<Id>)
    requires RootChain(rows, p)
    requires forall i :: 0 <= i < |p| ==> p[i] in rows' && rows'[p[i]].parent == rows[p[i]].parent
    ensures RootChain(rows', p)
  {
    forall i | 0 < i < |p| ensures HangsBelow(rows', p, i) {
      assert HangsBelow(rows, p, i);
    }
  }

  lemma HangingCons(rows: Rows, k: Id, p: seq<Id>)
    requires k in rows && p != [] && Hanging(rows, p) && rows[p[0]].parent == Some(k)
    ensures Hanging(rows, [k] + p)
  {
    var q := [k] + p;
    forall i | 0 < i < |q| ensures HangsBelow(rows, q, i) {
      assert q[i] == p[i - 1];
      if i > 1 { assert HangsBelow(rows, p, i - 1) && q[i - 1] == p[i - 2]; }
    }
  }

  lemma ChainPrefix(rows: Rows, p: seq<Id>, n: nat)
    requires RootChain(rows, p) && n <= |p|
    ensures RootChain(rows, p[..n])
  {
    var top := p[..n];
    forall i | 0 < i < n ensures HangsBelow(rows, top, i) {
      assert HangsBelow(rows, p, i) && top[i] == p[i] && top[i - 1] == p[i - 1];
    }
  }

  lemma ChainSnoc(rows: Rows, p: seq<Id>, k: Id)
    requires RootChain(rows, p) && k in rows
    requires rows[k].parent == if p == [] then None else Some(p[|p| - 1])
    ensures RootChain(rows, p + [k])
  {
    var q := p + [k];
    forall i | 0 < i < |q| ensures HangsBelow(rows, q, i) {
      assert q[i - 1] == p[i - 1];
      if i < |p| { assert HangsBelow(rows, p, i) && q[i] == p[i]; }
    }
  }

  lemma {:induction false} ChainIsAncestors(rows: Rows, p: seq<Id>, i: nat)
    requires ParentsOk(rows) && RootChain(rows, p) && i < |p|
    ensures p[..i + 1] == Ancestors(rows, p[i])
  {
    if i == 0 {
      assert p[..1] == [p[0]];
    } else {
      ChainIsAncestors(rows, p, i - 1);
      assert HangsBelow(rows, p, i);
      assert p[..i + 1] == p[..i] + [p[i]];
    }
  }

  lemma {:induction false} AncestorsFormChain(rows: Rows, k: Id)
    requires ParentsOk(rows) && k in rows
    ensures RootChain(rows, Ancestors(rows, k))
    ensures Increasing(Ancestors(rows, k))
    decreases k
  {
    assert ParentLink(rows, k);
    if rows[k].parent.Some? {
      AncestorsFormChain(rows, rows[k].parent.value);
      var a := Ancestors(rows, rows[k].parent.value);
      assert Ancestors(rows, k) == a + [k];
      ChainSnoc(rows, a, k);
      forall i | 0 <= i < |a| ensures a[i] < k {
        assert a[i] <= a[|a| - 1];
      }
    }
  }

  lemma ChainIncreasing(rows: Rows, p: seq<Id>)
    requires ParentsOk(rows) && RootChain(rows, p)
    ensures Increasing(p)
  {
    if p != [] {
      ChainIsAncestors(rows, p, |p| - 1);
      assert p == p[..|p|];
      AncestorsFormChain(rows, p[|p| - 1]);
    }
  }

  /** Two row maps that agree on parents give the same root-to-row chain. */
  lemma {:induction false} AncestorsAgree(a: Rows, b: Rows, k: Id)
    requires ParentsOk(a) && ParentsOk(b) && k in a
    requires forall x :: x in a ==> x in b && a[x].parent == b[x].parent
    ensures Ancestors(a, k) == Ancestors(b, k)
    decreases k
  {
    assert ParentLink(a, k) && ParentLink(b, k);
    if a[k].parent.Some? {
      AncestorsAgree(a, b, a[k].parent.value);
    }
  }

  // ---------------------------------------------------------------- the walk under the invariant

  lemma {:induction false} DownLinks(rows: Rows, k: Id)
    requires ParentsOk(rows) && PointersOk(rows) && k in rows
    ensures FollowsPointers(rows, Down(rows, k))
    ensures Hanging(rows, Down(rows, k))
    decreases RowsFrom(rows, k)
  {
    assert SelectedLink(rows, k);
    if rows[k].selected.Some? {
      var c := rows[k].selected.value;
      assert ParentLink(rows, c) && k in RowsFrom(rows, k) && k !in RowsFrom(rows, c);
      DownLinks(rows, c);
      var d := Down(rows, c);
      var p := Down(rows, k);
      assert p == [k] + d;
      JoinPointers(rows, [k], d);
      HangingCons(rows, k, d);
    }
  }

  /** Reading the pointers never meets a visited row, so the walk's guards are never taken. */
  lemma {:induction false} WalkFollowsPointers(rows: Rows, k: Id, seen: set<Id>)
    requires ParentsOk(rows) && PointersOk(rows) && k in rows
    requires forall x :: x in seen ==> x < k
    ensures WalkFrom(rows, Some(k), seen) == Down(rows, k)
    decreases RowsFrom(rows, k)
  {
    var sel := rows[k].selected;
    assert SelectedLink(rows, k) && ChildLink(rows, k);
    if sel.Some? {
      assert ParentLink(rows, sel.value);
      assert k in RowsFrom(rows, k) && k !in RowsFrom(rows, sel.value);
      WalkFollowsPointers(rows, sel.value, seen + {k});
    } else {
      assert Kids(rows, k) == {};
      assert NextOf(rows, k) == None;
      assert WalkFrom(rows, None, seen + {k}) == [];
    }
  }

  lemma {:induction false} RootOfRow(rows: Rows, k: Id)
    requires ParentsOk(rows) && k in rows
    ensures Roots(rows) != {} && MinOf(Roots(rows)) in rows
    ensures Ancestors(rows, k)[0] in Roots(rows)
    decreases k
  {
    assert ParentLink(rows, k);
    if rows[k].parent.Some? {
      RootOfRow(rows, rows[k].parent.value);
    } else {
      assert k in Roots(rows);
    }
  }

  lemma WalkIsDown(rows: Rows) returns (root: Id)
    requires TreeInv(rows) && rows != map[]
    ensures root in rows && rows[root].parent.None? && Roots(rows) == {root}
    ensures WalkPath(rows) == Down(rows, root)
  {
    var k :| k in rows;
    RootOfRow(rows, k);
    root := MinOf(Roots(rows));
    WalkFollowsPointers(rows, root, {});
  }

  /**
   * The resolved path is the parent chain of a leaf: it starts at the only root, follows the
   * selected pointers, has increasing ids and ends at a row without children.
   */
  ghost predicate IsCurrentPath(rows: Rows, p: seq<Id>) {
    && p != []
    && RootChain(rows, p)
    && FollowsPointers(rows, p)
    && Kids(rows, p[|p| - 1]) == {}
  }

  lemma PathShape(rows: Rows)
    requires TreeInv(rows) && rows != map[]
    ensures IsCurrentPath(rows, WalkPath(rows))
    ensures Increasing(WalkPath(rows))
    ensures Roots(rows) == {WalkPath(rows)[0]}
  {
    var root := WalkIsDown(rows);
    var p := Down(rows, root);
    DownLinks(rows, root);
    ChainIncreasing(rows, p);
    var last := p[|p| - 1];
    assert rows[last].selected == Successor(p, |p| - 1) && ChildLink(rows, last);
    assert Kids(rows, last) == {};
  }

  /** A chain that follows the pointers from the root down to a leaf is the resolved path. */
  lemma PathFromChain(rows: Rows, p: seq<Id>)
    requires TreeInv(rows) && p != [] && RootChain(rows, p) && FollowsPointers(rows, p)
    ensures WalkPath(rows) == p
  {
    var root := WalkIsDown(rows);
    assert p[0] in Roots(rows);
    DownLinks(rows, root);
    SamePointers(rows, Down(rows, root), p, 0);
    assert Down(rows, root)[0..] == Down(rows, root) && p[0..] == p;
  }

  lemma {:induction false} SamePointers(rows: Rows, w: seq<Id>, p: seq<Id>, i: nat)
    requires i < |w| && i < |p| && w[i] == p[i]
    requires FollowsPointers(rows, w) && FollowsPointers(rows, p)
    ensures w[i..] == p[i..]
    decreases |w| - i
  {
    assert Successor(w, i) == Successor(p, i);
    if i + 1 < |w| {
      SamePointers(rows, w, p, i + 1);
      assert w[i..] == [w[i]] + w[i + 1..] && p[i..] == [p[i]] + p[i + 1..];
    } else {
      assert i + 1 == |p|;
    }
  }

  /**
   * The parent walk used for regeneration, started at any row of the current path, is exactly the
   * part of the current path that ends at that row.
   */
  lemma RegenerationPrefix(rows: Rows, i: nat)
    requires TreeInv(rows) && i < |WalkPath(rows)|
    ensures WalkPath(rows)[i] in rows
    ensures Ancestors(rows, WalkPath(rows)[i]) == WalkPath(rows)[..i + 1]
  {
    PathShape(rows);
    ChainIsAncestors(rows, WalkPath(rows), i);
  }
}
