/**
 * One chat session as the storage layer keeps it: the message rows, two denormalised columns on the
 * session row, and two cached copies. Every method is one request that holds the session row lock.
 */
module Conversation {
  import opened Common
  import opened Text
  import opened Tree
  import opened TreeOps
  import opened TreeRuns
  import opened Records

  datatype Info = Info(messageCount: nat, lastUserPreview: string)

  method Min(s: set<Id>) returns (m: Id)
    requires s != {}
    ensures m == MinOf(s)
  {
    m :| m in s;
    var rest := s - {m};
    while rest != {}
      invariant rest <= s && m in s && forall y :: y in s && y !in rest ==> m <= y
      decreases |rest|
    {
      var x :| x in rest;
      rest := rest - {x};
      m := if x < m then x else m;
    }
  }

  /** `ORDER BY id ASC`. */
  method SortRows(s: set<Id>) returns (r: seq<Id>)
    ensures r == SortedIds(s)
  {
    r := [];
    var rest := s;
    while rest != {}
      invariant rest <= s
      invariant r + SortedIds(rest) == SortedIds(s)
      decreases |rest|
    {
      var m := Min(rest);
      SortedIdsStep(rest);
      MoveHead(r, SortedIds(rest));
      r := r + [m];
      rest := rest - {m};
    }
  }

  /** Groups the listed rows by parent and collects the parentless ones. */
  method IndexRows(rows: Rows, ids: seq<Id>) returns (children: map<Id, set<Id>>, roots: set<Id>)
    requires Elems(ids) == rows.Keys
    ensures roots == Roots(rows)
    ensures forall k: Id :: GroupOf(children, k) == Kids(rows, k)
  {
    children, roots := map[], {};
    for i := 0 to |ids|
      invariant forall x :: x in roots <==> x in Elems(ids[..i]) && rows[x].parent.None?
      invariant forall k: Id, x: Id :: x in GroupOf(children, k) <==> x in Elems(ids[..i]) && rows[x].parent == Some(k)
    {
      var r := ids[i];
      ElemsLast(ids, i);
      var parent := rows[r].parent;
      if parent.None? {
        roots := roots + {r};
      } else {
        children := children[parent.value := GroupOf(children, parent.value) + {r}];
      }
    }
    assert ids[..|ids|] == ids;
  }

  function GroupOf(groups: map<Id, set<Id>>, k: Id): set<Id> {
    if k in groups then groups[k] else {}
  }

  lemma ElemsLast(s: seq<Id>, i: nat)
    requires i < |s|
    ensures s[i] in Elems(s) && Elems(s[..i + 1]) == Elems(s[..i]) + {s[i]}
    ensures Elems(s[..i]) <= Elems(s)
  {
    assert s[..i + 1] == s[..i] + [s[i]];
  }

  /** Selected child if present, else the smallest child, else none. */
  method NextNode(rows: Rows, children: map<Id, set<Id>>, n: Id) returns (node: Option<Id>)
    requires n in rows && forall k: Id :: GroupOf(children, k) == Kids(rows, k)
    ensures node == NextOf(rows, n) && (node.Some? ==> node.value in rows)
  {
    var sel := rows[n].selected;
    if sel.Some? && sel.value in rows {
      return sel;
    }
    var kids := GroupOf(children, n);
    if kids == {} {
      return None;
    }
    var least := Min(kids);
    return Some(least);
  }

  /** Resolves the current path from the listed rows; tolerates dangling pointers and cycles. */
  method Walk(rows: Rows, ids: seq<Id>) returns (path: seq<Id>)
    requires Elems(ids) == rows.Keys
    ensures path == WalkPath(rows)
  {
    if ids == [] {
      assert rows.Keys == {};
      return [];
    }
    assert ids[0] in Elems(ids);
    var children, roots := IndexRows(rows, ids);
    if roots == {} {
      path := SortRows(rows.Keys);
      return;
    }
    var root := Min(roots);
    path := WalkDown(rows, children, root);
  }

  method WalkDown(rows: Rows, children: map<Id, set<Id>>, root: Id) returns (path: seq<Id>)
    requires root in rows && forall k: Id :: GroupOf(children, k) == Kids(rows, k)
    ensures path == WalkFrom(rows, Some(root), {})
  {
    var node := Some(root);
    var seen: set<Id> := {};
    path := [];
    while node.Some? && node.value !in seen
      invariant node.Some? ==> node.value in rows
      invariant path + WalkFrom(rows, node, seen) == WalkFrom(rows, Some(root), {})
      decreases rows.Keys - seen
    {
      var n := node.value;
      MoveHead(path, WalkFrom(rows, node, seen));
      node := NextNode(rows, children, n);
      seen := seen + {n};
      path := path + [n];
    }
  }

  /** Assistant rows grouped by parent. */
  method IndexVersions(rows: Rows, ids: seq<Id>) returns (versions: map<Id, set<Id>>)
    requires Elems(ids) == rows.Keys
    ensures forall k: Id :: GroupOf(versions, k) == AiKids(rows, k)
  {
    versions := map[];
    for i := 0 to |ids|
      invariant forall k: Id, x: Id :: x in GroupOf(versions, k) <==>
        x in Elems(ids[..i]) && rows[x].parent == Some(k) && rows[x].kind == Ai
    {
      var r := ids[i];
      ElemsLast(ids, i);
      ghost var before := versions;
      if rows[r].kind == Ai && rows[r].parent.Some? {
        var k := rows[r].parent.value;
        versions := versions[k := GroupOf(versions, k) + {r}];
      }
      assert forall k: Id :: GroupOf(versions, k) == GroupOf(before, k) + (if rows[r].kind == Ai && rows[r].parent == Some(k) then {r} else {});
    }
    assert ids[..|ids|] == ids;
  }

  /** Position of a row among the versions of its parent. */
  method VersionIndex(sibs: seq<Id>, id: Id) returns (at: nat)
    requires Increasing(sibs) && id in sibs
    ensures at == IndexOf(sibs, id)
  {
    at := 0;
    while sibs[at] != id
      invariant at < |sibs| && forall j :: 0 <= j < at ==> sibs[j] != id
    {
      at := at + 1;
    }
  }

  /** Records of the given path, with version numbers looked up among all listed rows. */
  method RecordsFromRows(rows: Rows, ids: seq<Id>, path: seq<Id>) returns (records: seq<Record>)
    requires Elems(ids) == rows.Keys
    requires forall i :: 0 <= i < |path| ==> path[i] in rows
    ensures records == RecordsAlong(rows, path)
  {
    var versions := IndexVersions(rows, ids);
    records := [];
    for i := 0 to |path|
      invariant records == RecordsAlong(rows, path[..i])
    {
      var rec := RecordFor(rows, versions, path[i]);
      assert path[..i + 1][..i] == path[..i];
      records := records + [rec];
    }
    assert path[..|path|] == path;
  }

  method RecordFor(rows: Rows, versions: map<Id, set<Id>>, id: Id) returns (rec: Record)
    requires id in rows && forall k: Id :: GroupOf(versions, k) == AiKids(rows, k)
    ensures rec == RecordOf(rows, id)
  {
    var r := rows[id];
    rec := Record(id, r.parent, r.kind, r.content, 1, 1, [id]);
    if r.kind == Ai && r.parent.Some? {
      var sibs := SortRows(GroupOf(versions, r.parent.value));
      AiInOwnVersions(rows, id);
      var at := VersionIndex(sibs, id);
      rec := rec.(versionIndex := at + 1, versionCount := |sibs|, siblings := sibs);
    }
  }

  method PreviewFromPath(rows: Rows, path: seq<Id>) returns (preview: string)
    requires forall i :: 0 <= i < |path| ==> path[i] in rows
    ensures preview == PreviewAlong(rows, path)
  {
    var i := |path|;
    assert path[..i] == path;
    while i > 0
      invariant 0 <= i <= |path|
      invariant PreviewAlong(rows, path[..i]) == PreviewAlong(rows, path)
    {
      assert path[..i][..i - 1] == path[..i - 1];
      i := i - 1;
      if rows[path[i]].kind == Human {
        var text := NewlinesToSpaces(Strip(rows[path[i]].content));
        return if |text| > PREVIEW_CHARS then text[..PREVIEW_CHARS] else text;
      }
    }
    return "";
  }

  class ChatSession {
    const lim: Limits
    var rows: Rows
    ghost var st: Store  // the rows, the id counter and the birth log
    var pathMessageCount: Option<nat>
    var lastUserPreview: string
    var cachedRecords: Option<seq<Record>>
    var cachedInfo: Option<Info>

    /** Everything denormalised or cached agrees with the rows. */
    ghost predicate CachesAgree()
      reads this
    {
      && (cachedRecords.Some? ==> cachedRecords.value == RecordsOf(rows))
      && (pathMessageCount.Some? ==> pathMessageCount.value == |WalkPath(rows)| && lastUserPreview == PreviewOf(rows))
      && (cachedInfo.Some? ==> cachedInfo.value == Info(|WalkPath(rows)|, PreviewOf(rows)))
    }

    ghost predicate Valid()
      reads this
    {
      rows == st.rows && StoreInv(st, lim) && CachesAgree()
    }

    constructor (lim: Limits)
      ensures Valid() && st == EMPTY && this.lim == lim
    {
      this.lim := lim;
      rows, st := map[], EMPTY;
      pathMessageCount, lastUserPreview := None, "";
      cachedRecords, cachedInfo := None, None;
    }

    /** Recomputes both columns and the record cache from the listed rows, and drops the list cache. */
    method CommitAndRefreshCaches(listed: seq<Id>)
      requires listed == SortedIds(rows.Keys)
      modifies this`pathMessageCount, this`lastUserPreview, this`cachedRecords, this`cachedInfo
      ensures CachesAgree()
      ensures cachedRecords == Some(RecordsOf(rows)) && pathMessageCount == Some(|WalkPath(rows)|)
      ensures cachedInfo == None
    {
      var path := Walk(rows, listed);
      PathInRows(rows);
      lastUserPreview := PreviewFromPath(rows, path);
      pathMessageCount := Some(|path|);
      var records := RecordsFromRows(rows, listed, path);
      cachedRecords := Some(records);
      cachedInfo := None;
    }

    method RefreshCaches()
      modifies this`pathMessageCount, this`lastUserPreview, this`cachedRecords, this`cachedInfo
      ensures CachesAgree() && cachedRecords == Some(RecordsOf(rows)) && cachedInfo == None
    {
      var listed := SortRows(rows.Keys);
      CommitAndRefreshCaches(listed);
    }

    /** Inserts one row, selected by its parent. */
    method InsertMessageRow(parent: Option<Id>, m: Msg, id: Id)
      requires rows == st.rows && (parent.Some? ==> parent.value in rows)
      modifies this`rows, this`st
      ensures rows == st.rows
      ensures st == InsertUnder(old(st), parent, m, id)
    {
      if parent.Some? {
        rows := rows[parent.value := rows[parent.value].(selected := Some(id))];
      }
      rows := rows[id := Row(parent, None, m.kind, m.content)];
      st := InsertUnder(st, parent, m, id);
    }

    method AppendMessages(msgs: seq<Msg>, ids: seq<Id>) returns (outcome: Outcome)
      requires Valid() && |msgs| == |ids| && FreshIds(st, ids)
      modifies this
      ensures Valid()
      ensures (st, outcome) == ApplyAppend(old(st), lim, msgs, ids)
      ensures outcome == Done ==> cachedRecords == Some(RecordsOf(rows))
      ensures outcome != Done ==> unchanged(this)
    {
      if msgs == [] {
        return NothingToDo;
      }
      if lim.messageLimit > 0 && |rows| + |msgs| > lim.messageLimit {
        return QuotaExceeded;
      }
      AppendWithinLimit(msgs, ids);
      return Done;
    }

    /** One listing serves both the walk to the leaf and, with the new rows added, the caches. */
    method AppendWithinLimit(msgs: seq<Msg>, ids: seq<Id>)
      requires Valid() && |msgs| == |ids| && FreshIds(st, ids) && !OverLimit(rows, |msgs|, lim.messageLimit)
      modifies this
      ensures rows == st.rows && StoreInv(st, lim) && CachesAgree() && cachedRecords == Some(RecordsOf(rows))
      ensures st == AppendChain(old(st), LeafOf(old(st.rows)), msgs, ids)
    {
      var listed := SortRows(rows.Keys);
      listed := AppendBelowLeaf(listed, msgs, ids);
      CommitAndRefreshCaches(listed);
    }

    /** Last row of the path, found by walking the listed rows. */
    method Leaf(listed: seq<Id>) returns (leaf: Option<Id>)
      requires Elems(listed) == rows.Keys
      ensures leaf == LeafOf(rows) && (leaf.Some? ==> leaf.value in rows)
    {
      var path := Walk(rows, listed);
      PathInRows(rows);
      leaf := if path == [] then None else Some(path[|path| - 1]);
    }

    /** The rows listed before plus the new ones are a full listing again. */
    method AppendBelowLeaf(listed: seq<Id>, msgs: seq<Msg>, ids: seq<Id>) returns (extended: seq<Id>)
      requires rows == st.rows && StoreInv(st, lim) && listed == SortedIds(rows.Keys)
      requires |msgs| == |ids| && FreshIds(st, ids) && !OverLimit(rows, |msgs|, lim.messageLimit)
      modifies this`rows, this`st
      ensures st == AppendChain(old(st), LeafOf(old(st.rows)), msgs, ids)
      ensures rows == st.rows && StoreInv(st, lim)
      ensures extended == listed + ids && extended == SortedIds(rows.Keys)
    {
      var leaf := Leaf(listed);
      ghost var final := AppendKeeps(st, lim, msgs, ids);
      AppendRows(leaf, msgs, ids);
      extended := listed + ids;
    }

    /** Chains the new rows below `leaf`, each selected by the one before it. */
    method AppendRows(leaf: Option<Id>, msgs: seq<Msg>, ids: seq<Id>)
      requires rows == st.rows && |msgs| == |ids| && (leaf.Some? ==> leaf.value in rows)
      modifies this`rows, this`st
      ensures rows == st.rows
      ensures st == AppendChain(old(st), leaf, msgs, ids)
    {
      var parent := leaf;
      for i := 0 to |msgs|
        invariant rows == st.rows && (parent.Some? ==> parent.value in rows)
        invariant AppendChain(st, parent, msgs[i..], ids[i..]) == AppendChain(old(st), leaf, msgs, ids)
      {
        assert msgs[i..][1..] == msgs[i + 1..] && ids[i..][1..] == ids[i + 1..];
        InsertMessageRow(parent, msgs[i], ids[i]);
        parent := Some(ids[i]);
      }
    }

    method InsertAssistantVersion(target: Id, content: string, id: Id) returns (outcome: Outcome)
      requires Valid() && st.next <= id
      modifies this
      ensures Valid()
      ensures (st, outcome) == ApplyVersion(old(st), lim, target, content, id)
      ensures outcome == Done ==> cachedRecords == Some(RecordsOf(rows))
      ensures outcome != Done ==> unchanged(this)
    {
      if target !in rows || rows[target].kind != Ai || rows[target].parent.None? {
        return InvalidTarget;
      }
      var h := rows[target].parent.value;
      if h !in rows || rows[h].kind != Human {
        return InvalidTarget;
      }
      var sibs := SortRows(set k | k in rows && rows[k].parent == Some(h) && rows[k].kind == Ai);
      assert sibs == SortedIds(AiKids(rows, h));
      var evict := EvictCount(|sibs|, lim.versionCap);
      if lim.messageLimit > 0 && |rows| + (1 - evict) > lim.messageLimit {
        return QuotaExceeded;
      }
      AddVersionWithinLimit(h, content, id, sibs[..evict]);
      outcome := Done;
    }

    method AddVersionWithinLimit(h: Id, content: string, id: Id, oldest: seq<Id>)
      requires rows == st.rows && StoreInv(st, lim) && st.next <= id && h in rows && rows[h].kind == Human
      requires !OverLimit(rows, 1 - EvictCount(|AiKids(rows, h)|, lim.versionCap), lim.messageLimit)
      requires Elems(oldest) == Evicted(rows, h, lim.versionCap)
      modifies this
      ensures rows == st.rows && StoreInv(st, lim) && CachesAgree() && cachedRecords == Some(RecordsOf(rows))
      ensures ParentsOk(InsertUnder(old(st), Some(h), Msg(Ai, content), id).rows)
      ensures st == AddVersion(old(st), h, content, id, lim.versionCap)
    {
      AddVersionRows(h, content, id, oldest);
      RefreshCaches();
    }

    /** Inserts the new version, selects it and drops the oldest ones. */
    method AddVersionRows(h: Id, content: string, id: Id, oldest: seq<Id>)
      requires rows == st.rows && StoreInv(st, lim) && st.next <= id && h in rows && rows[h].kind == Human
      requires !OverLimit(rows, 1 - EvictCount(|AiKids(rows, h)|, lim.versionCap), lim.messageLimit)
      requires Elems(oldest) == Evicted(rows, h, lim.versionCap)
      modifies this`rows, this`st
      ensures ParentsOk(InsertUnder(old(st), Some(h), Msg(Ai, content), id).rows)
      ensures st == AddVersion(old(st), h, content, id, lim.versionCap)
      ensures rows == st.rows && StoreInv(st, lim)
    {
      ghost var ins, final := VersionKeeps(st, lim, h, content, id);
      InsertMessageRow(Some(h), Msg(Ai, content), id);
      DeleteRows(h, oldest);
      st := final;
    }

    /** Deletes the given children of `h` one by one; the database removes what hangs below each. */
    method DeleteRows(ghost h: Id, victims: seq<Id>)
      requires EvictsUnder(rows, h, Elems(victims))
      modifies this`rows
      ensures rows == Cascade(old(rows), Elems(victims))
    {
      ghost var before := rows;
      CascadeNothing(before);
      assert Elems(victims[..0]) == {};
      for i := 0 to |victims|
        invariant rows == Cascade(before, Elems(victims[..i]))
      {
        ElemsLast(victims, i);
        CascadeKeepsTree(before, h, Elems(victims[..i]));
        CascadeOneMore(before, Elems(victims[..i]), victims[i]);
        rows := Cascade(rows, {victims[i]});
      }
      assert victims[..|victims|] == victims;
    }

    method UpdateAssistantInPlace(target: Id, content: string) returns (outcome: Outcome)
      requires Valid()
      modifies this
      ensures Valid()
      ensures (st, outcome) == ApplyUpdate(old(st), target, content)
      ensures outcome != Done ==> unchanged(this)
    {
      if target !in rows || rows[target].kind != Ai {
        return InvalidTarget;
      }
      SetContent(target, content);
      RefreshCaches();
      outcome := Done;
    }

    method SetContent(target: Id, content: string)
      requires rows == st.rows && StoreInv(st, lim) && target in rows && rows[target].kind == Ai
      modifies this`rows, this`st
      ensures rows == st.rows && StoreInv(st, lim) && st == WithContent(old(st), target, content)
    {
      ghost var final := UpdateKeepsStore(st, lim, target, content);
      rows, st := rows[target := rows[target].(content := content)], final;
    }

    method SetSelected(h: Id, target: Id)
      requires rows == st.rows && StoreInv(st, lim) && ValidVersionTarget(rows, target) && h == HumanOf(rows, target)
      modifies this`rows, this`st
      ensures rows == st.rows && StoreInv(st, lim) && st == SelectRow(old(st), h, target)
    {
      ghost var final := SelectKeepsStore(st, lim, target);
      rows, st := rows[h := rows[h].(selected := Some(target))], final;
    }

    /** Switches to another assistant version and returns the records of the resulting path. */
    method SelectBranch(target: Id) returns (records: Option<seq<Record>>)
      requires Valid()
      modifies this
      ensures Valid()
      ensures st == ApplySelect(old(st), target).0
      ensures records == if ValidVersionTarget(old(rows), target) then Some(RecordsOf(rows)) else None
      ensures records.None? ==> unchanged(this)
    {
      if target !in rows || rows[target].kind != Ai || rows[target].parent.None? {
        return None;
      }
      var h := rows[target].parent.value;
      if h !in rows || rows[h].kind != Human {
        return None;
      }
      SwitchTo(h, target);
      return cachedRecords;  // the copy just written answers the read that follows
    }

    method SwitchTo(h: Id, target: Id)
      requires rows == st.rows && StoreInv(st, lim) && ValidVersionTarget(rows, target) && h == HumanOf(rows, target)
      modifies this
      ensures rows == st.rows && StoreInv(st, lim) && CachesAgree() && cachedRecords == Some(RecordsOf(rows))
      ensures st == SelectRow(old(st), h, target)
    {
      SetSelected(h, target);
      RefreshCaches();
    }

    /** Cached or not, the records are those of the stored rows. */
    method GetSessionMessages() returns (records: seq<Record>)
      requires CachesAgree()
      modifies this`cachedRecords
      ensures CachesAgree() && records == RecordsOf(rows)
    {
      if cachedRecords.Some? {
        return cachedRecords.value;
      }
      var listed := SortRows(rows.Keys);
      var path := Walk(rows, listed);
      PathInRows(rows);
      records := RecordsFromRows(rows, listed, path);
      cachedRecords := Some(records);
    }

    /** Fast branch (columns) and slow branch (walk) of the session list give the same entry. */
    method BuildSessionInfo() returns (info: Info)
      requires CachesAgree()
      ensures info == Info(|WalkPath(rows)|, PreviewOf(rows))
    {
      if pathMessageCount.Some? {
        return Info(pathMessageCount.value, lastUserPreview);
      }
      var listed := SortRows(rows.Keys);
      var path := Walk(rows, listed);
      PathInRows(rows);
      var preview := PreviewFromPath(rows, path);
      info := Info(|path|, preview);
    }

    method ListSessionInfo() returns (info: Info)
      requires CachesAgree()
      modifies this`cachedInfo
      ensures CachesAgree() && info == Info(|WalkPath(rows)|, PreviewOf(rows))
    {
      if cachedInfo.Some? {
        return cachedInfo.value;
      }
      info := BuildSessionInfo();
      cachedInfo := Some(info);
    }

    /** Ids from the root to the user message above the target; none if the target is not usable. */
    method GetRegenerateContext(target: Id) returns (chain: Option<seq<Id>>)
      requires Valid()
      ensures chain == if ValidVersionTarget(rows, target)
                       then Some(Ancestors(rows, HumanOf(rows, target))) else None
      ensures chain.Some? && HumanOf(rows, target) in WalkPath(rows) ==>
        chain.value == Upto(WalkPath(rows), HumanOf(rows, target)) && Increasing(chain.value)
    {
      if target !in rows || rows[target].kind != Ai || rows[target].parent.None? {
        return None;
      }
      var h := rows[target].parent.value;
      if h !in rows || rows[h].kind != Human {
        return None;
      }
      var up := Climb(rows, h);
      if h in WalkPath(rows) {
        RegenerationUpto(rows, h);
      }
      chain := Some(up);
    }
  }

  /** The chain down to a row, if there is one. */
  ghost function ChainTo(rows: Rows, node: Option<Id>): seq<Id>
    requires ParentsOk(rows) && (node.Some? ==> node.value in rows)
  {
    if node.None? then [] else Ancestors(rows, node.value)
  }

  /** Root-to-`h` chain, found by following `parent` upwards. */
  method Climb(rows: Rows, h: Id) returns (chain: seq<Id>)
    requires ParentsOk(rows) && h in rows
    ensures chain == Ancestors(rows, h)
  {
    var up: seq<Id> := [];
    var node := Some(h);
    var seen: set<Id> := {};
    while node.Some? && node.value !in seen
      invariant node.Some? ==> node.value in rows && forall x :: x in seen ==> node.value < x
      invariant ChainTo(rows, node) + Reverse(up) == Ancestors(rows, h)
      decreases rows.Keys - seen
    {
      var n := node.value;
      assert ParentLink(rows, n);
      seen := seen + {n};
      node := if rows[n].parent.Some? && rows[n].parent.value in rows then rows[n].parent else None;
      assert Ancestors(rows, n) == ChainTo(rows, node) + [n];
      ReverseSnoc(up, n);
      ConcatAssoc(ChainTo(rows, node), [n], Reverse(up));
      up := up + [n];
    }
    assert [] + Reverse(up) == Reverse(up);
    chain := Reverse(up);
  }

  function Reverse<T>(s: seq<T>): (r: seq<T>) {
    if s == [] then [] else Reverse(s[1..]) + [s[0]]
  }

  lemma {:induction false} ReverseSnoc<T>(s: seq<T>, x: T)
    ensures Reverse(s + [x]) == [x] + Reverse(s)
    decreases |s|
  {
    if s == [] {
      assert [] + [x] == [x] && [x] + Reverse<T>([]) == [x];
    } else {
      ReverseSnoc(s[1..], x);
      assert (s + [x])[1..] == s[1..] + [x];
      ConcatAssoc([x], Reverse(s[1..]), [s[0]]);
    }
  }

  lemma CascadeNothing(rows: Rows)
    requires ParentsOk(rows)
    ensures Cascade(rows, {}) == rows
  {
    forall k | k in rows ensures !Below(rows, k, {}) { BelowIffAncestor(rows, k, {}); }
  }
}
