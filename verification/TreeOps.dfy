/**
 * The four writes on a conversation tree, as functions on its rows, with what each keeps and what
 * each does to the current path. `born` records every row ever inserted, as it was inserted: it is
 * only appended to, and is what makes "ids are never reused, parents never rewritten" usable.
 */
module TreeOps {
  import opened Common
  import opened Tree

  datatype Msg = Msg(kind: Kind, content: string)

  datatype Store = Store(rows: Rows, next: int, born: Rows)

  /** CHAT_MAX_ASSISTANT_VERSIONS and CHAT_MAX_MESSAGES_PER_SESSION; not positive means no limit. */
  datatype Limits = Limits(versionCap: int, messageLimit: int)

  datatype Outcome = Done | NothingToDo | InvalidTarget | QuotaExceeded

  datatype Action =
    | Append(msgs: seq<Msg>, ids: seq<Id>)
    | InsertVersion(target: Id, content: string, id: Id)
    | Select(target: Id)
    | UpdateInPlace(target: Id, content: string)

  const EMPTY := Store(map[], 1, map[])

  // ---------------------------------------------------------------- what every write keeps

  ghost predicate BornOk(st: Store) {
    && ParentsOk(st.born)
    && 0 < st.next
    && (forall k :: k in st.born ==> k < st.next)
    && (forall k :: k in st.rows ==> k in st.born && SameOrigin(st.rows[k], st.born[k]))
  }

  /** Parent and class never change; the text of a user message never changes either. */
  ghost predicate SameOrigin(now: Row, born: Row) {
    now.parent == born.parent && now.kind == born.kind && (now.kind == Human ==> now.content == born.content)
  }

  ghost predicate VersionsOk(rows: Rows, cap: int) {
    cap > 0 ==> forall h :: h in rows && rows[h].kind == Human ==> |AiKids(rows, h)| <= cap
  }

  ghost predicate WithinLimit(rows: Rows, limit: int) {
    limit > 0 ==> |rows| <= limit
  }

  ghost predicate StoreInv(st: Store, lim: Limits) {
    TreeInv(st.rows) && BornOk(st) && VersionsOk(st.rows, lim.versionCap) && WithinLimit(st.rows, lim.messageLimit)
  }

  // ---------------------------------------------------------------- append

  /** New row under `parent`, which then selects it. */
  ghost function InsertUnder(st: Store, parent: Option<Id>, m: Msg, id: Id): Store {
    var row := Row(parent, None, m.kind, m.content);
    var linked := if parent.Some? && parent.value in st.rows
                  then st.rows[parent.value := st.rows[parent.value].(selected := Some(id))]
                  else st.rows;
    Store(linked[id := row], id + 1, st.born[id := row])
  }

  ghost function AppendChain(st: Store, leaf: Option<Id>, msgs: seq<Msg>, ids: seq<Id>): Store
    requires |msgs| == |ids|
    decreases |msgs|
  {
    if msgs == [] then st
    else AppendChain(InsertUnder(st, leaf, msgs[0], ids[0]), Some(ids[0]), msgs[1..], ids[1..])
  }

  ghost function LeafOf(rows: Rows): Option<Id> {
    var p := WalkPath(rows);
    if p == [] then None else Some(p[|p| - 1])
  }

  ghost predicate FreshIds(st: Store, ids: seq<Id>) {
    Increasing(ids) && forall i :: 0 <= i < |ids| ==> st.next <= ids[i]
  }

  // ---------------------------------------------------------------- assistant versions

  /** `k` is one of `gone` or lies below one of them. */
  predicate Below(rows: Rows, k: Id, gone: set<Id>)
    requires ParentsOk(rows) && k in rows
    decreases k
  {
    assert ParentLink(rows, k);
    k in gone || (rows[k].parent.Some? && Below(rows, rows[k].parent.value, gone))
  }

  /** Deleting rows deletes everything below them (foreign key, ON DELETE CASCADE). */
  function Cascade(rows: Rows, gone: set<Id>): Rows
    requires ParentsOk(rows)
  {
    map k | k in rows && !Below(rows, k, gone) :: rows[k]
  }

  function EvictCount(versions: nat, cap: int): nat {
    if cap > 0 && versions >= cap then versions - (cap - 1) else 0
  }

  /** The oldest versions, those that leave room for one more under the cap. */
  ghost function Evicted(rows: Rows, h: Id, cap: int): set<Id> {
    var sibs := SortedIds(AiKids(rows, h));
    Elems(sibs[..EvictCount(|sibs|, cap)])
  }

  ghost predicate ValidVersionTarget(rows: Rows, target: Id) {
    && target in rows && rows[target].kind == Ai && rows[target].parent.Some?
    && rows[target].parent.value in rows && rows[rows[target].parent.value].kind == Human
  }

  ghost function HumanOf(rows: Rows, target: Id): Id
    requires ValidVersionTarget(rows, target)
  {
    rows[target].parent.value
  }

  ghost predicate OverLimit(rows: Rows, adding: int, limit: int) {
    limit > 0 && |rows| + adding > limit
  }

  ghost function AddVersion(st: Store, h: Id, content: string, id: Id, cap: int): Store
    requires ParentsOk(InsertUnder(st, Some(h), Msg(Ai, content), id).rows)
  {
    var ins := InsertUnder(st, Some(h), Msg(Ai, content), id);
    ins.(rows := Cascade(ins.rows, Evicted(st.rows, h, cap)))
  }

  ghost function SelectRow(st: Store, h: Id, a: Id): Store
    requires h in st.rows
  {
    st.(rows := st.rows[h := st.rows[h].(selected := Some(a))])
  }

  // ---------------------------------------------------------------- one request

  ghost predicate Enabled(st: Store, a: Action) {
    match a
    case Append(msgs, ids) => |msgs| == |ids| && FreshIds(st, ids)
    case InsertVersion(_, _, id) => st.next <= id
    case Select(_) => true
    case UpdateInPlace(_, _) => true
  }

  ghost function ApplyAppend(st: Store, lim: Limits, msgs: seq<Msg>, ids: seq<Id>): (Store, Outcome)
    requires |msgs| == |ids|
  {
    if msgs == [] then (st, NothingToDo)
    else if OverLimit(st.rows, |msgs|, lim.messageLimit) then (st, QuotaExceeded)
    else (AppendChain(st, LeafOf(st.rows), msgs, ids), Done)
  }

  ghost function ApplyVersion(st: Store, lim: Limits, target: Id, content: string, id: Id): (Store, Outcome)
    requires StoreInv(st, lim) && st.next <= id
  {
    if !ValidVersionTarget(st.rows, target) then (st, InvalidTarget)
    else
      var h := HumanOf(st.rows, target);
      var evict := EvictCount(|AiKids(st.rows, h)|, lim.versionCap);
      if OverLimit(st.rows, 1 - evict, lim.messageLimit) then (st, QuotaExceeded)
      else
        InsertKeepsTree(st, Some(h), Msg(Ai, content), id);
        (AddVersion(st, h, content, id, lim.versionCap), Done)
  }

  ghost function ApplySelect(st: Store, target: Id): (Store, Outcome) {
    if !ValidVersionTarget(st.rows, target) then (st, InvalidTarget)
    else (SelectRow(st, HumanOf(st.rows, target), target), Done)
  }

  ghost function ApplyUpdate(st: Store, target: Id, content: string): (Store, Outcome) {
    if target !in st.rows || st.rows[target].kind != Ai then (st, InvalidTarget)
    else (WithContent(st, target, content), Done)
  }

  ghost function WithContent(st: Store, target: Id, content: string): Store
    requires target in st.rows
  {
    st.(rows := st.rows[target := st.rows[target].(content := content)])
  }

  ghost function Apply(st: Store, lim: Limits, a: Action): (Store, Outcome)
    requires StoreInv(st, lim) && Enabled(st, a)
  {
    match a
    case Append(msgs, ids) => ApplyAppend(st, lim, msgs, ids)
    case InsertVersion(target, content, id) => ApplyVersion(st, lim, target, content, id)
    case Select(target) => ApplySelect(st, target)
    case UpdateInPlace(target, content) => ApplyUpdate(st, target, content)
  }

  // ---------------------------------------------------------------- append: invariant and path

  ghost predicate CanInsert(st: Store, parent: Option<Id>, id: Id) {
    && TreeInv(st.rows) && BornOk(st) && st.next <= id
    && (parent.Some? ==> parent.value in st.rows)
    && (parent.None? ==> st.rows == map[])
  }

  lemma InsertKeepsParents(st: Store, parent: Option<Id>, m: Msg, id: Id)
    requires CanInsert(st, parent, id)
    ensures ParentsOk(InsertUnder(st, parent, m, id).rows) && OneRoot(InsertUnder(st, parent, m, id).rows)
    ensures InsertUnder(st, parent, m, id).rows.Keys == st.rows.Keys + {id}
    ensures id !in st.rows
  {
    var rows' := InsertUnder(st, parent, m, id).rows;
    forall k | k in rows' ensures ParentLink(rows', k) {
      if k in st.rows { assert ParentLink(st.rows, k); }
    }
  }

  lemma NothingBelowNew(rows: Rows, id: Id)
    requires ParentsOk(rows) && id !in rows
    ensures Kids(rows, id) == {}
  {
    forall k | k in rows ensures rows[k].parent != Some(id) { assert ParentLink(rows, k); }
  }

  lemma InsertKeepsPointers(st: Store, parent: Option<Id>, m: Msg, id: Id)
    requires CanInsert(st, parent, id)
    ensures PointersOk(InsertUnder(st, parent, m, id).rows)
  {
    var rows, rows' := st.rows, InsertUnder(st, parent, m, id).rows;
    assert id !in rows;
    forall k | k in rows' ensures SelectedLink(rows', k) && ChildLink(rows', k) {
      if k in rows && parent != Some(k) {
        assert SelectedLink(rows, k) && ChildLink(rows, k);
        assert Kids(rows', k) == Kids(rows, k);
      }
      if k == id {
        NothingBelowNew(rows, id);
        assert Kids(rows', id) == {};
      }
    }
  }

  lemma InsertKeepsBorn(st: Store, parent: Option<Id>, m: Msg, id: Id)
    requires CanInsert(st, parent, id)
    ensures BornOk(InsertUnder(st, parent, m, id))
    ensures BornGrows(st, InsertUnder(st, parent, m, id))
  {
    var born' := InsertUnder(st, parent, m, id).born;
    forall k | k in born' ensures ParentLink(born', k) {
      if k in st.born && k != id { assert ParentLink(st.born, k); }
    }
  }

  ghost predicate BornGrows(before: Store, after: Store) {
    forall k :: k in before.born ==> k in after.born && after.born[k] == before.born[k]
  }

  lemma InsertKeepsTree(st: Store, parent: Option<Id>, m: Msg, id: Id)
    requires CanInsert(st, parent, id)
    ensures TreeInv(InsertUnder(st, parent, m, id).rows) && BornOk(InsertUnder(st, parent, m, id))
  {
    InsertKeepsParents(st, parent, m, id);
    InsertKeepsPointers(st, parent, m, id);
    InsertKeepsBorn(st, parent, m, id);
  }

  lemma LeafCanInsert(st: Store, id: Id)
    requires TreeInv(st.rows) && BornOk(st) && st.next <= id
    ensures CanInsert(st, LeafOf(st.rows), id)
    ensures LeafOf(st.rows).Some? ==> Kids(st.rows, LeafOf(st.rows).value) == {}
  {
    if st.rows != map[] { PathShape(st.rows); }
  }

  /** `after` is `before` with a fresh childless row `id` selected under `h`. */
  ghost predicate LinkedUnder(before: Rows, after: Rows, h: Id, id: Id) {
    && h in before && id !in before && id in after && h in after
    && after[id].parent == Some(h) && after[id].selected.None?
    && after[h] == before[h].(selected := Some(id))
    && (forall k :: k in before && k != h ==> k in after && after[k] == before[k])
  }

  lemma InsertLinks(st: Store, h: Id, m: Msg, id: Id)
    requires CanInsert(st, Some(h), id)
    ensures LinkedUnder(st.rows, InsertUnder(st, Some(h), m, id).rows, h, id)
  {
    var rows, rows' := st.rows, InsertUnder(st, Some(h), m, id).rows;
    assert id !in rows && id != h;
    assert rows' == rows[h := rows[h].(selected := Some(id))][id := rows'[id]];
  }

  lemma LengthenedChain(rows: Rows, ins: Rows, p: seq<Id>, id: Id)
    requires IsCurrentPath(rows, p) && Increasing(p) && LinkedUnder(rows, ins, p[|p| - 1], id)
    ensures RootChain(ins, p + [id]) && FollowsPointers(ins, p + [id])
  {
    VersionedChain(rows, ins, p, |p| - 1, id);
    assert p[..|p|] == p;
  }

  lemma InsertAtLeafPath(st: Store, m: Msg, id: Id)
    requires TreeInv(st.rows) && BornOk(st) && st.next <= id
    ensures WalkPath(InsertUnder(st, LeafOf(st.rows), m, id).rows) == WalkPath(st.rows) + [id]
  {
    var leaf, p := LeafOf(st.rows), WalkPath(st.rows);
    LeafCanInsert(st, id);
    InsertKeepsTree(st, leaf, m, id);
    var rows' := InsertUnder(st, leaf, m, id).rows;
    if st.rows == map[] {
      assert p + [id] == [id];
      PathFromChain(rows', [id]);
    } else {
      PathShape(st.rows);
      InsertLinks(st, leaf.value, m, id);
      LengthenedChain(st.rows, rows', p, id);
      PathFromChain(rows', p + [id]);
    }
  }

  lemma AiKidsAfterInsert(st: Store, parent: Option<Id>, m: Msg, id: Id, h: Id)
    requires CanInsert(st, parent, id)
    ensures var rows' := InsertUnder(st, parent, m, id).rows;
      AiKids(rows', h) == if parent == Some(h) && m.kind == Ai then AiKids(st.rows, h) + {id} else AiKids(st.rows, h)
    ensures AiKids(st.rows, id) == {}
  {
    var rows, rows' := st.rows, InsertUnder(st, parent, m, id).rows;
    assert id !in rows && rows'.Keys == rows.Keys + {id};
    NothingBelowNew(rows, id);
    assert AiKids(rows, id) <= Kids(rows, id);
    forall c | c in rows ensures c in AiKids(rows', h) <==> c in AiKids(rows, h) {
      assert rows'[c].parent == rows[c].parent && rows'[c].kind == rows[c].kind;
    }
  }

  lemma InsertAtLeafVersions(st: Store, m: Msg, id: Id, cap: int)
    requires TreeInv(st.rows) && BornOk(st) && st.next <= id && VersionsOk(st.rows, cap)
    ensures VersionsOk(InsertUnder(st, LeafOf(st.rows), m, id).rows, cap)
  {
    var leaf := LeafOf(st.rows);
    LeafCanInsert(st, id);
    var rows' := InsertUnder(st, leaf, m, id).rows;
    if cap > 0 {
      forall h | h in rows' && rows'[h].kind == Human ensures |AiKids(rows', h)| <= cap {
        AiKidsAfterInsert(st, leaf, m, id, h);
        if leaf == Some(h) {
          assert AiKids(st.rows, h) <= Kids(st.rows, h);
          assert AiKids(rows', h) == {} || AiKids(rows', h) == {id};
        } else if h != id {
          assert st.rows[h] == rows'[h];
        }
      }
    }
  }

  ghost predicate Ready(st: Store, cap: int) {
    TreeInv(st.rows) && BornOk(st) && VersionsOk(st.rows, cap)
  }

  lemma InsertAtLeaf(st: Store, m: Msg, id: Id, cap: int) returns (st1: Store)
    requires Ready(st, cap) && st.next <= id
    ensures st1 == InsertUnder(st, LeafOf(st.rows), m, id) && st1.next == id + 1
    ensures Ready(st1, cap) && BornGrows(st, st1)
    ensures WalkPath(st1.rows) == WalkPath(st.rows) + [id] && LeafOf(st1.rows) == Some(id)
    ensures st1.rows.Keys == st.rows.Keys + {id} && |st1.rows| == |st.rows| + 1
  {
    var leaf := LeafOf(st.rows);
    st1 := InsertUnder(st, leaf, m, id);
    LeafCanInsert(st, id);
    InsertKeepsTree(st, leaf, m, id);
    InsertKeepsParents(st, leaf, m, id);
    InsertKeepsBorn(st, leaf, m, id);
    InsertAtLeafPath(st, m, id);
    InsertAtLeafVersions(st, m, id, cap);
    assert |st1.rows.Keys| == |st.rows.Keys| + 1;
  }

  /** Appending makes the current path the old path followed by exactly the new rows. */
  lemma {:induction false} AppendPath(st: Store, msgs: seq<Msg>, ids: seq<Id>, cap: int) returns (st': Store)
    requires Ready(st, cap) && |msgs| == |ids| && FreshIds(st, ids)
    ensures st' == AppendChain(st, LeafOf(st.rows), msgs, ids)
    ensures Ready(st', cap) && BornGrows(st, st')
    ensures WalkPath(st'.rows) == WalkPath(st.rows) + ids
    ensures st'.rows.Keys == st.rows.Keys + Elems(ids)
    ensures |st'.rows| == |st.rows| + |ids|
    decreases |msgs|
  {
    st' := AppendChain(st, LeafOf(st.rows), msgs, ids);
    if msgs == [] {
      UnionAssoc(st.rows.Keys, {}, {});
      assert ids == [] && WalkPath(st.rows) + ids == WalkPath(st.rows);
    } else {
      var st1 := InsertAtLeaf(st, msgs[0], ids[0], cap);
      FreshRest(st, st1, ids);
      var rest := AppendPath(st1, msgs[1..], ids[1..], cap);
      BornGrowsOn(st, st1, st');
      ElemsHead(ids);
      UnionAssoc(st.rows.Keys, {ids[0]}, Elems(ids[1..]));
      MoveHead(WalkPath(st.rows), ids);
    }
  }

  lemma FreshRest(st: Store, st1: Store, ids: seq<Id>)
    requires ids != [] && FreshIds(st, ids) && st1.next == ids[0] + 1
    ensures FreshIds(st1, ids[1..])
  {
  }

  lemma BornGrowsOn(a: Store, b: Store, c: Store)
    requires BornGrows(a, b) && BornGrows(b, c)
    ensures BornGrows(a, c)
  {
  }

  // ---------------------------------------------------------------- versions: cascade, invariant and path

  lemma {:induction false} BelowIffAncestor(rows: Rows, k: Id, gone: set<Id>)
    requires ParentsOk(rows) && k in rows
    ensures Below(rows, k, gone) <==> exists x :: x in Ancestors(rows, k) && x in gone
    decreases k
  {
    assert ParentLink(rows, k);
    if rows[k].parent.Some? {
      var q := rows[k].parent.value;
      BelowIffAncestor(rows, q, gone);
      assert Ancestors(rows, k) == Ancestors(rows, q) + [k];
    } else {
      assert Ancestors(rows, k) == [k];
    }
  }

  /** Deleting children of `h` other than the selected one keeps every link of the rest intact. */
  ghost predicate EvictsUnder(rows: Rows, h: Id, gone: set<Id>) {
    && TreeInv(rows) && h in rows
    && (forall g :: g in gone ==> g in rows && rows[g].parent == Some(h))
    && (rows[h].selected.Some? ==> rows[h].selected.value !in gone)
  }

  lemma CascadeKeepsTree(rows: Rows, h: Id, gone: set<Id>)
    requires EvictsUnder(rows, h, gone)
    ensures TreeInv(Cascade(rows, gone))
  {
    var left := Cascade(rows, gone);
    forall k | k in left ensures ParentLink(left, k) && SelectedLink(left, k) && ChildLink(left, k) {
      assert ParentLink(rows, k) && SelectedLink(rows, k) && ChildLink(rows, k);
      if rows[k].selected.Some? {
        var c := rows[k].selected.value;
        assert ParentLink(rows, c) && Below(rows, c, gone) == (c in gone || Below(rows, k, gone));
      } else {
        assert Kids(left, k) <= Kids(rows, k);
      }
    }
  }

  /** A chain none of whose rows is evicted survives unchanged. */
  lemma ChainSurvives(rows: Rows, gone: set<Id>, p: seq<Id>)
    requires ParentsOk(rows) && RootChain(rows, p)
    requires forall i :: 0 <= i < |p| ==> p[i] !in gone
    ensures forall i :: 0 <= i < |p| ==> p[i] in Cascade(rows, gone)
    ensures RootChain(Cascade(rows, gone), p)
  {
    forall i | 0 <= i < |p| ensures p[i] in Cascade(rows, gone) {
      ChainIsAncestors(rows, p, i);
      BelowIffAncestor(rows, p[i], gone);
      assert forall x :: x in p[..i + 1] ==> x in p;
    }
    ChainKept(rows, Cascade(rows, gone), p);
  }

  lemma EvictedAreOldVersions(rows: Rows, h: Id, cap: int)
    ensures Evicted(rows, h, cap) <= AiKids(rows, h)
    ensures |Evicted(rows, h, cap)| == EvictCount(|AiKids(rows, h)|, cap)
  {
    var sibs := SortedIds(AiKids(rows, h));
    var n := EvictCount(|sibs|, cap);
    ElemsSize(sibs[..n]);
  }

  lemma {:induction false} ElemsSize(s: seq<Id>)
    requires Increasing(s)
    ensures |Elems(s)| == |s|
    decreases |s|
  {
    if s != [] {
      ElemsSize(s[1..]);
      ElemsHead(s);
      assert s[0] !in s[1..];
    }
  }

  /** The rows just before the oldest versions are dropped. */
  lemma VersionInserted(st: Store, h: Id, content: string, id: Id, cap: int) returns (ins: Store)
    requires Ready(st, cap) && st.next <= id && h in st.rows
    ensures ins == InsertUnder(st, Some(h), Msg(Ai, content), id)
    ensures EvictsUnder(ins.rows, h, Evicted(st.rows, h, cap))
    ensures BornOk(ins) && BornGrows(st, ins)
    ensures LinkedUnder(st.rows, ins.rows, h, id)
    ensures ins.rows.Keys == st.rows.Keys + {id} && id !in st.rows
  {
    var m := Msg(Ai, content);
    ins := InsertUnder(st, Some(h), m, id);
    InsertKeepsTree(st, Some(h), m, id);
    InsertKeepsParents(st, Some(h), m, id);
    InsertKeepsBorn(st, Some(h), m, id);
    InsertLinks(st, h, m, id);
    EvictedAreOldVersions(st.rows, h, cap);
    forall g | g in Evicted(st.rows, h, cap) ensures ins.rows[g].parent == Some(h) {
      assert g in AiKids(st.rows, h) && g != id;
    }
  }

  lemma VersionTotal(st: Store, h: Id, content: string, id: Id, cap: int)
    requires Ready(st, cap) && st.next <= id && h in st.rows
    requires ParentsOk(InsertUnder(st, Some(h), Msg(Ai, content), id).rows)
    ensures |AddVersion(st, h, content, id, cap).rows| <= |st.rows| + 1 - EvictCount(|AiKids(st.rows, h)|, cap)
  {
    var ins := VersionInserted(st, h, content, id, cap);
    var gone := Evicted(st.rows, h, cap);
    EvictedAreOldVersions(st.rows, h, cap);
    var left := AddVersion(st, h, content, id, cap).rows.Keys;
    assert left <= ins.rows.Keys - gone;
    SubsetSize(left, ins.rows.Keys - gone);
    MinusSize(st.rows.Keys, id, gone);
  }

  lemma MinusSize(a: set<Id>, id: Id, gone: set<Id>)
    requires gone <= a && id !in a
    ensures |a + {id} - gone| == |a| + 1 - |gone|
  {
    assert a + {id} - gone == (a - gone) + {id};
  }

  lemma VersionCount(st: Store, h: Id, content: string, id: Id, cap: int, x: Id)
    requires Ready(st, cap) && st.next <= id && h in st.rows && cap > 0
    requires ParentsOk(InsertUnder(st, Some(h), Msg(Ai, content), id).rows)
    requires x in st.rows && st.rows[x].kind == Human
    ensures |AiKids(AddVersion(st, h, content, id, cap).rows, x)| <= cap
  {
    var ins := VersionInserted(st, h, content, id, cap);
    var gone := Evicted(st.rows, h, cap);
    var left := AddVersion(st, h, content, id, cap).rows;
    EvictedAreOldVersions(st.rows, h, cap);
    AiKidsAfterInsert(st, Some(h), Msg(Ai, content), id, x);
    assert AiKids(left, x) <= AiKids(ins.rows, x) - gone;
    SubsetSize(AiKids(left, x), AiKids(ins.rows, x) - gone);
    if x == h {
      MinusSize(AiKids(st.rows, h), id, gone);
    } else {
      SubsetSize(AiKids(ins.rows, x) - gone, AiKids(st.rows, x));
    }
  }

  lemma VersionCounts(st: Store, h: Id, content: string, id: Id, cap: int)
    requires Ready(st, cap) && st.next <= id && h in st.rows && st.rows[h].kind == Human
    requires ParentsOk(InsertUnder(st, Some(h), Msg(Ai, content), id).rows)
    ensures VersionsOk(AddVersion(st, h, content, id, cap).rows, cap)
  {
    var left := AddVersion(st, h, content, id, cap).rows;
    if cap > 0 {
      forall x | x in left && left[x].kind == Human ensures |AiKids(left, x)| <= cap {
        VersionCount(st, h, content, id, cap, x);
      }
    }
  }

  lemma SubsetSize(a: set<Id>, b: set<Id>)
    requires a <= b
    ensures |a| <= |b|
  {
    assert b == a + (b - a);
  }

  lemma AddVersionKeeps(st: Store, h: Id, content: string, id: Id, cap: int) returns (st': Store)
    requires Ready(st, cap) && st.next <= id && h in st.rows && st.rows[h].kind == Human
    ensures ParentsOk(InsertUnder(st, Some(h), Msg(Ai, content), id).rows)
    ensures st' == AddVersion(st, h, content, id, cap)
    ensures Ready(st', cap) && BornGrows(st, st')
    ensures |st'.rows| <= |st.rows| + 1 - EvictCount(|AiKids(st.rows, h)|, cap)
  {
    var ins := VersionInserted(st, h, content, id, cap);
    CascadeKeepsTree(ins.rows, h, Evicted(st.rows, h, cap));
    VersionCounts(st, h, content, id, cap);
    VersionTotal(st, h, content, id, cap);
    st' := AddVersion(st, h, content, id, cap);
  }

  /** A pointer-following chain that avoids the evicted rows is the path once they are gone. */
  lemma PathAfterEviction(rows: Rows, h: Id, gone: set<Id>, p: seq<Id>)
    requires EvictsUnder(rows, h, gone) && p != [] && RootChain(rows, p) && FollowsPointers(rows, p)
    requires forall i :: 0 <= i < |p| ==> p[i] !in gone
    ensures WalkPath(Cascade(rows, gone)) == p
  {
    CascadeKeepsTree(rows, h, gone);
    ChainSurvives(rows, gone, p);
    PathFromChain(Cascade(rows, gone), p);
  }

  /**
   * A new version under the i-th row of the current path replaces everything after that row;
   * no row of the resulting path is ever evicted.
   */
  lemma AddVersionOnPath(st: Store, p: seq<Id>, i: nat, content: string, id: Id, cap: int)
    requires Ready(st, cap) && st.next <= id && p == WalkPath(st.rows) && i < |p| && p[i] in st.rows
    requires ParentsOk(InsertUnder(st, Some(p[i]), Msg(Ai, content), id).rows)
    ensures WalkPath(AddVersion(st, p[i], content, id, cap).rows) == p[..i + 1] + [id]
  {
    PathShape(st.rows);
    var ins := VersionInserted(st, p[i], content, id, cap);
    EvictedAreOldVersions(st.rows, p[i], cap);
    OnPathRows(st.rows, ins.rows, p, i, id, Evicted(st.rows, p[i], cap));
  }

  lemma OnPathRows(rows: Rows, ins: Rows, p: seq<Id>, i: nat, id: Id, gone: set<Id>)
    requires TreeInv(rows) && IsCurrentPath(rows, p) && Increasing(p) && i < |p|
    requires LinkedUnder(rows, ins, p[i], id) && EvictsUnder(ins, p[i], gone) && id !in gone
    ensures WalkPath(Cascade(ins, gone)) == p[..i + 1] + [id]
  {
    forall j | 0 <= j <= i ensures p[j] !in gone {
      assert p[j] <= p[i] && p[j] in ins && ParentLink(ins, p[j]);
    }
    VersionedChain(rows, ins, p, i, id);
    PathAfterEviction(ins, p[i], gone, p[..i + 1] + [id]);
  }

  lemma VersionedChain(rows: Rows, ins: Rows, p: seq<Id>, i: nat, id: Id)
    requires IsCurrentPath(rows, p) && Increasing(p) && i < |p| && LinkedUnder(rows, ins, p[i], id)
    ensures RootChain(ins, p[..i + 1] + [id]) && FollowsPointers(ins, p[..i + 1] + [id])
  {
    var top := p[..i + 1];
    forall j | 0 <= j <= i ensures p[j] in ins && ins[p[j]].parent == rows[p[j]].parent {}
    ChainPrefix(rows, p, i + 1);
    ChainKept(rows, ins, top);
    ChainSnoc(ins, top, id);
    PrefixPoints(rows, ins, p, i, id);
    JoinPointers(ins, top, [id]);
  }

  /** A new version under a row that is not on the current path leaves the path as it was. */
  lemma AddVersionOffPath(st: Store, h: Id, content: string, id: Id, cap: int)
    requires Ready(st, cap) && st.next <= id && h in st.rows && h !in WalkPath(st.rows)
    requires ParentsOk(InsertUnder(st, Some(h), Msg(Ai, content), id).rows)
    ensures WalkPath(AddVersion(st, h, content, id, cap).rows) == WalkPath(st.rows)
  {
    PathShape(st.rows);
    var ins := VersionInserted(st, h, content, id, cap);
    EvictedAreOldVersions(st.rows, h, cap);
    OffPathRows(st.rows, ins.rows, WalkPath(st.rows), h, id, Evicted(st.rows, h, cap));
  }

  lemma OffPathRows(rows: Rows, ins: Rows, p: seq<Id>, h: Id, id: Id, gone: set<Id>)
    requires TreeInv(rows) && IsCurrentPath(rows, p) && h !in p
    requires LinkedUnder(rows, ins, h, id) && EvictsUnder(ins, h, gone) && id !in gone
    ensures WalkPath(Cascade(ins, gone)) == p
  {
    forall j | 0 <= j < |p|
      ensures p[j] in ins && ins[p[j]] == rows[p[j]] && p[j] !in gone && ins[p[j]].selected == Successor(p, j)
    {
      assert rows[p[j]].selected == Successor(p, j) && p[j] != h;
      assert j > 0 ==> HangsBelow(rows, p, j) && p[j - 1] != h;
    }
    ChainKept(rows, ins, p);
    PathAfterEviction(ins, h, gone, p);
  }
}
