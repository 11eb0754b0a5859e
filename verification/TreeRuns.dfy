/**
 * Branch switching, and the results about whole runs: the tree invariant holds after any sequence
 * of requests on an initially empty session, and every request has an exact effect on the path.
 */
module TreeRuns {
  import opened Common
  import opened Tree
  import opened TreeOps

  // ---------------------------------------------------------------- switching branches

  /** Only pointers and assistant texts differ. */
  ghost predicate SameShape(rows: Rows, rows': Rows) {
    && rows'.Keys == rows.Keys
    && forall k :: k in rows ==> rows'[k].parent == rows[k].parent && rows'[k].kind == rows[k].kind
  }

  lemma ShapeKeepsParents(rows: Rows, rows': Rows)
    requires ParentsOk(rows) && OneRoot(rows) && SameShape(rows, rows')
    ensures ParentsOk(rows') && OneRoot(rows')
    ensures forall k :: Kids(rows', k) == Kids(rows, k)
  {
    forall k | k in rows' ensures ParentLink(rows', k) { assert ParentLink(rows, k); }
    forall k ensures Kids(rows', k) == Kids(rows, k) {}
  }

  lemma ShapeKeepsVersions(rows: Rows, rows': Rows, cap: int)
    requires VersionsOk(rows, cap) && SameShape(rows, rows')
    ensures VersionsOk(rows', cap)
  {
    if cap > 0 {
      forall h | h in rows' && rows'[h].kind == Human ensures |AiKids(rows', h)| <= cap {
        assert AiKids(rows', h) == AiKids(rows, h);
      }
    }
  }

  lemma SelectKeepsPointers(rows: Rows, rows': Rows, h: Id, a: Id)
    requires TreeInv(rows) && h in rows && a in rows && rows[a].parent == Some(h)
    requires rows' == rows[h := rows[h].(selected := Some(a))]
    ensures PointersOk(rows')
  {
    ShapeKeepsParents(rows, rows');
    forall k | k in rows' ensures SelectedLink(rows', k) && ChildLink(rows', k) {
      assert SelectedLink(rows, k) && ChildLink(rows, k);
    }
  }

  lemma SelectKeeps(st: Store, h: Id, a: Id, cap: int)
    requires Ready(st, cap) && h in st.rows && a in st.rows && st.rows[a].parent == Some(h)
    ensures Ready(SelectRow(st, h, a), cap) && BornGrows(st, SelectRow(st, h, a))
    ensures SelectRow(st, h, a).rows.Keys == st.rows.Keys
  {
    var rows' := SelectRow(st, h, a).rows;
    ShapeKeepsParents(st.rows, rows');
    ShapeKeepsVersions(st.rows, rows', cap);
    SelectKeepsPointers(st.rows, rows', h, a);
  }

  /** Rows below a child of `h` are not affected by what `h` selects. */
  lemma {:induction false} DownUnchanged(rows: Rows, rows': Rows, h: Id, k: Id)
    requires TreeInv(rows) && TreeInv(rows') && k in rows && h < k
    requires rows'.Keys == rows.Keys && forall x :: x in rows && x != h ==> rows'[x] == rows[x]
    ensures Down(rows', k) == Down(rows, k)
    decreases RowsFrom(rows, k)
  {
    assert SelectedLink(rows, k);
    if rows[k].selected.Some? {
      var c := rows[k].selected.value;
      assert ParentLink(rows, c) && k in RowsFrom(rows, k) && k !in RowsFrom(rows, c);
      DownUnchanged(rows, rows', h, c);
    }
  }

  /** Selecting a child of the i-th path row keeps the path up to it and continues at that child. */
  lemma SelectOnPath(st: Store, p: seq<Id>, i: nat, a: Id, cap: int)
    requires Ready(st, cap) && p == WalkPath(st.rows) && i < |p| && p[i] in st.rows
    requires a in st.rows && st.rows[a].parent == Some(p[i])
    ensures WalkPath(SelectRow(st, p[i], a).rows) == p[..i + 1] + Down(st.rows, a)
  {
    PathShape(st.rows);
    SelectKeeps(st, p[i], a, cap);
    SelectedPath(st.rows, SelectRow(st, p[i], a).rows, p, i, a);
  }

  lemma SelectedPath(rows: Rows, rows': Rows, p: seq<Id>, i: nat, a: Id)
    requires TreeInv(rows) && TreeInv(rows') && IsCurrentPath(rows, p) && Increasing(p) && i < |p|
    requires a in rows && rows[a].parent == Some(p[i])
    requires rows' == rows[p[i] := rows[p[i]].(selected := Some(a))]
    ensures WalkPath(rows') == p[..i + 1] + Down(rows, a)
  {
    assert ParentLink(rows, a);
    DownUnchanged(rows, rows', p[i], a);
    SelectedChain(rows, rows', p, i, a);
    PathFromChain(rows', p[..i + 1] + Down(rows', a));
  }

  lemma SelectedChain(rows: Rows, rows': Rows, p: seq<Id>, i: nat, a: Id)
    requires IsCurrentPath(rows, p) && Increasing(p) && i < |p| && a in rows && rows[a].parent == Some(p[i])
    requires rows' == rows[p[i] := rows[p[i]].(selected := Some(a))] && ParentsOk(rows') && PointersOk(rows')
    ensures RootChain(rows', p[..i + 1] + Down(rows', a)) && FollowsPointers(rows', p[..i + 1] + Down(rows', a))
  {
    DownLinks(rows', a);
    PrefixPoints(rows, rows', p, i, a);
    JoinPointers(rows', p[..i + 1], Down(rows', a));
    PrefixChain(rows, rows', p, i);
    JoinChains(rows', p[..i + 1], Down(rows', a));
  }

  lemma PrefixChain(rows: Rows, rows': Rows, p: seq<Id>, i: nat)
    requires RootChain(rows, p) && SameShape(rows, rows') && i < |p|
    ensures RootChain(rows', p[..i + 1])
  {
    ChainKept(rows, rows', p);
    ChainPrefix(rows', p, i + 1);
  }

  lemma JoinChains(rows: Rows, p: seq<Id>, d: seq<Id>)
    requires RootChain(rows, p) && p != [] && d != []
    requires Hanging(rows, d) && rows[d[0]].parent == Some(p[|p| - 1])
    ensures RootChain(rows, p + d)
  {
    var q := p + d;
    forall i | 0 < i < |q| ensures HangsBelow(rows, q, i) {
      if i < |p| {
        assert HangsBelow(rows, p, i) && q[i] == p[i] && q[i - 1] == p[i - 1];
      } else if i > |p| {
        assert HangsBelow(rows, d, i - |p|) && q[i] == d[i - |p|] && q[i - 1] == d[i - |p| - 1];
      }
    }
  }

  lemma SelectOffPath(st: Store, h: Id, a: Id, cap: int)
    requires Ready(st, cap) && h in st.rows && a in st.rows && st.rows[a].parent == Some(h)
    requires h !in WalkPath(st.rows)
    ensures WalkPath(SelectRow(st, h, a).rows) == WalkPath(st.rows)
  {
    PathShape(st.rows);
    SelectKeeps(st, h, a, cap);
    var p, rows' := WalkPath(st.rows), SelectRow(st, h, a).rows;
    forall j | 0 <= j < |p| ensures p[j] in rows' && rows'[p[j]] == st.rows[p[j]] && rows'[p[j]].selected == Successor(p, j) {
      assert st.rows[p[j]].selected == Successor(p, j) && p[j] != h;
    }
    ChainKept(st.rows, rows', p);
    PathFromChain(rows', p);
  }

  /** Selecting another version and then the original one restores every row, hence the path. */
  lemma SelectRoundTrip(st: Store, lim: Limits, original: Id, other: Id)
    requires StoreInv(st, lim) && ValidVersionTarget(st.rows, original) && ValidVersionTarget(st.rows, other)
    requires HumanOf(st.rows, original) == HumanOf(st.rows, other)
    requires st.rows[HumanOf(st.rows, original)].selected == Some(original)
    ensures StoreInv(Apply(st, lim, Select(other)).0, lim)
    ensures Apply(Apply(st, lim, Select(other)).0, lim, Select(original)) == (st, Done)
  {
    ApplyKeeps(st, lim, Select(other));
    var h := HumanOf(st.rows, original);
    var st1 := SelectRow(st, h, other);
    assert st1.rows[original].parent == Some(h) && ValidVersionTarget(st1.rows, original);
    assert SelectRow(st1, h, original).rows == st.rows;
  }

  // ---------------------------------------------------------------- one request: invariant and path

  lemma UpdateKeeps(st: Store, target: Id, content: string, cap: int)
    requires Ready(st, cap) && target in st.rows && st.rows[target].kind == Ai
    ensures Ready(WithContent(st, target, content), cap)
  {
    var rows' := WithContent(st, target, content).rows;
    ShapeKeepsParents(st.rows, rows');
    ShapeKeepsVersions(st.rows, rows', cap);
    forall k | k in rows' ensures SelectedLink(rows', k) && ChildLink(rows', k) {
      assert SelectedLink(st.rows, k) && ChildLink(st.rows, k);
    }
  }

  lemma UpdatePath(st: Store, target: Id, content: string, cap: int)
    requires Ready(st, cap) && target in st.rows && st.rows[target].kind == Ai
    ensures WalkPath(WithContent(st, target, content).rows) == WalkPath(st.rows)
  {
    UpdateKeeps(st, target, content, cap);
    PathShape(st.rows);
    var p, rows' := WalkPath(st.rows), WithContent(st, target, content).rows;
    forall j | 0 <= j < |p| ensures p[j] in rows' && rows'[p[j]].selected == Successor(p, j) {
      assert st.rows[p[j]].selected == Successor(p, j);
    }
    ChainKept(st.rows, rows', p);
    PathFromChain(rows', p);
  }

  lemma AppendKeeps(st: Store, lim: Limits, msgs: seq<Msg>, ids: seq<Id>) returns (st': Store)
    requires StoreInv(st, lim) && |msgs| == |ids| && FreshIds(st, ids)
    requires !OverLimit(st.rows, |msgs|, lim.messageLimit)
    ensures st' == AppendChain(st, LeafOf(st.rows), msgs, ids)
    ensures StoreInv(st', lim) && BornGrows(st, st')
    ensures SortedIds(st.rows.Keys) + ids == SortedIds(st'.rows.Keys)
  {
    st' := AppendPath(st, msgs, ids, lim.versionCap);
    ListingExtended(st, ids, st'.rows.Keys);
  }

  /** The rows held in memory plus the new rows, in that order, are what a fresh query would list. */
  lemma ListingExtended(st: Store, ids: seq<Id>, keys: set<Id>)
    requires BornOk(st) && FreshIds(st, ids) && keys == st.rows.Keys + Elems(ids)
    ensures SortedIds(st.rows.Keys) + ids == SortedIds(keys)
  {
    var a := SortedIds(st.rows.Keys);
    ElemsSize(ids);
    forall x | x in Elems(ids) ensures x !in st.rows {
      var i :| 0 <= i < |ids| && ids[i] == x;
    }
    assert |keys| == |a| + |ids|;
    forall i | 0 <= i < |a| ensures a[i] < st.next { assert a[i] in st.rows; }
    IncreasingJoin(a, ids, st.next);
    SortedListingUnique(a + ids, SortedIds(keys));
  }

  lemma IncreasingJoin(a: seq<Id>, b: seq<Id>, bound: int)
    requires Increasing(a) && Increasing(b)
    requires (forall i :: 0 <= i < |a| ==> a[i] < bound) && (forall i :: 0 <= i < |b| ==> bound <= b[i])
    ensures Increasing(a + b)
  {
  }

  lemma VersionKeeps(st: Store, lim: Limits, h: Id, content: string, id: Id) returns (ins: Store, st': Store)
    requires StoreInv(st, lim) && st.next <= id && h in st.rows && st.rows[h].kind == Human
    requires !OverLimit(st.rows, 1 - EvictCount(|AiKids(st.rows, h)|, lim.versionCap), lim.messageLimit)
    ensures ins == InsertUnder(st, Some(h), Msg(Ai, content), id) && ParentsOk(ins.rows)
    ensures EvictsUnder(ins.rows, h, Evicted(st.rows, h, lim.versionCap))
    ensures st' == AddVersion(st, h, content, id, lim.versionCap)
    ensures StoreInv(st', lim) && BornGrows(st, st')
  {
    ins := VersionInserted(st, h, content, id, lim.versionCap);
    st' := AddVersionKeeps(st, h, content, id, lim.versionCap);
  }

  lemma SelectKeepsStore(st: Store, lim: Limits, target: Id) returns (st': Store)
    requires StoreInv(st, lim) && ValidVersionTarget(st.rows, target)
    ensures st' == SelectRow(st, HumanOf(st.rows, target), target)
    ensures StoreInv(st', lim) && BornGrows(st, st')
  {
    st' := SelectRow(st, HumanOf(st.rows, target), target);
    SelectKeeps(st, HumanOf(st.rows, target), target, lim.versionCap);
    assert |st.rows.Keys| == |st'.rows.Keys|;
  }

  lemma UpdateKeepsStore(st: Store, lim: Limits, target: Id, content: string) returns (st': Store)
    requires StoreInv(st, lim) && target in st.rows && st.rows[target].kind == Ai
    ensures st' == WithContent(st, target, content)
    ensures StoreInv(st', lim) && BornGrows(st, st')
  {
    st' := WithContent(st, target, content);
    UpdateKeeps(st, target, content, lim.versionCap);
    assert |st.rows.Keys| == |st'.rows.Keys|;
  }

  /** Every request keeps the whole invariant, never rewrites a birth record and never changes state on refusal. */
  lemma ApplyKeeps(st: Store, lim: Limits, a: Action)
    requires StoreInv(st, lim) && Enabled(st, a)
    ensures StoreInv(Apply(st, lim, a).0, lim)
    ensures BornGrows(st, Apply(st, lim, a).0)
    ensures Apply(st, lim, a).1 != Done ==> Apply(st, lim, a).0 == st
  {
    if Apply(st, lim, a).1 == Done {
      match a {
        case Append(msgs, ids) =>
          var st' := AppendKeeps(st, lim, msgs, ids);
        case InsertVersion(target, content, id) =>
          var ins, st' := VersionKeeps(st, lim, HumanOf(st.rows, target), content, id);
        case Select(target) =>
          var st' := SelectKeepsStore(st, lim, target);
        case UpdateInPlace(target, content) =>
          var st' := UpdateKeepsStore(st, lim, target, content);
      }
    }
  }

  /** The part of `p` that ends at `h`. */
  ghost function Upto(p: seq<Id>, h: Id): seq<Id>
    requires h in p
  {
    var i :| 0 <= i < |p| && p[i] == h;
    p[..i + 1]
  }

  /** What an accepted request does to the path `p` of rows `rows`. */
  ghost function PathEffect(rows: Rows, p: seq<Id>, a: Action): seq<Id>
    requires TreeInv(rows)
    requires (a.InsertVersion? || a.Select?) ==> ValidVersionTarget(rows, a.target)
  {
    match a
    case Append(_, ids) => p + ids
    case InsertVersion(target, _, id) =>
      if HumanOf(rows, target) in p then Upto(p, HumanOf(rows, target)) + [id] else p
    case Select(target) =>
      if HumanOf(rows, target) in p then Upto(p, HumanOf(rows, target)) + Down(rows, target) else p
    case UpdateInPlace(_, _) => p
  }

  lemma VersionPath(st: Store, h: Id, content: string, id: Id, cap: int)
    requires Ready(st, cap) && st.next <= id && h in st.rows && st.rows[h].kind == Human
    ensures ParentsOk(InsertUnder(st, Some(h), Msg(Ai, content), id).rows)
    ensures var p := WalkPath(st.rows);
      WalkPath(AddVersion(st, h, content, id, cap).rows) == if h in p then Upto(p, h) + [id] else p
  {
    var p := WalkPath(st.rows);
    var st' := AddVersionKeeps(st, h, content, id, cap);
    if h in p {
      var i :| 0 <= i < |p| && p[i] == h && Upto(p, h) == p[..i + 1];
      AddVersionOnPath(st, p, i, content, id, cap);
    } else {
      AddVersionOffPath(st, h, content, id, cap);
    }
  }

  lemma SelectPath(st: Store, h: Id, a: Id, cap: int)
    requires Ready(st, cap) && h in st.rows && a in st.rows && st.rows[a].parent == Some(h)
    ensures var p := WalkPath(st.rows);
      WalkPath(SelectRow(st, h, a).rows) == if h in p then Upto(p, h) + Down(st.rows, a) else p
  {
    var p := WalkPath(st.rows);
    if h in p {
      var i :| 0 <= i < |p| && p[i] == h && Upto(p, h) == p[..i + 1];
      SelectOnPath(st, p, i, a, cap);
    } else {
      SelectOffPath(st, h, a, cap);
    }
  }

  lemma ApplyPath(st: Store, lim: Limits, a: Action)
    requires StoreInv(st, lim) && Enabled(st, a) && Apply(st, lim, a).1 == Done
    ensures WalkPath(Apply(st, lim, a).0.rows) == PathEffect(st.rows, WalkPath(st.rows), a)
  {
    var cap := lim.versionCap;
    match a {
      case Append(msgs, ids) =>
        var st' := AppendPath(st, msgs, ids, cap);
      case InsertVersion(target, content, id) =>
        VersionPath(st, HumanOf(st.rows, target), content, id, cap);
      case Select(target) =>
        SelectPath(st, HumanOf(st.rows, target), target, cap);
      case UpdateInPlace(target, content) =>
        UpdatePath(st, target, content, cap);
    }
  }

  /** Regenerating under a row of the current path: the parent walk gives the path up to that row. */
  lemma RegenerationUpto(rows: Rows, h: Id)
    requires TreeInv(rows) && h in WalkPath(rows)
    ensures h in rows && Ancestors(rows, h) == Upto(WalkPath(rows), h) && Increasing(Ancestors(rows, h))
  {
    var p := WalkPath(rows);
    var i :| 0 <= i < |p| && p[i] == h && Upto(p, h) == p[..i + 1];
    RegenerationPrefix(rows, i);
    AncestorsFormChain(rows, h);
  }

  // ---------------------------------------------------------------- whole runs

  /** What the writes promise is only used from states that satisfy the invariant. */
  ghost predicate Step(st: Store, lim: Limits, st': Store) {
    exists a :: Enabled(st, a) && (StoreInv(st, lim) ==> st' == Apply(st, lim, a).0)
  }

  ghost predicate StepAt(sts: seq<Store>, lim: Limits, n: nat)
    requires 0 < n < |sts|
  {
    Step(sts[n - 1], lim, sts[n])
  }

  ghost predicate IsRun(sts: seq<Store>, lim: Limits) {
    && sts != [] && sts[0] == EMPTY
    && forall n {:trigger StepAt(sts, lim, n)} :: 0 < n < |sts| ==> StepAt(sts, lim, n)
  }

  /** The invariant holds in every state of every run from the empty session. */
  lemma {:induction false} RunKeeps(sts: seq<Store>, lim: Limits, n: nat)
    requires IsRun(sts, lim) && n < |sts|
    ensures StoreInv(sts[n], lim)
  {
    if n > 0 {
      RunKeeps(sts, lim, n - 1);
      assert StepAt(sts, lim, n);
      var a :| Enabled(sts[n - 1], a) && (StoreInv(sts[n - 1], lim) ==> sts[n] == Apply(sts[n - 1], lim, a).0);
      ApplyKeeps(sts[n - 1], lim, a);
    }
  }
}
