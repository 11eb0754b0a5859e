/**
 * The conversation tree and the segment table together, over whole runs. A segment names only its two
 * end turns; the tree makes that enough, because row ids are never reused and parents never rewritten.
 */
module World {
  import opened Common
  import opened Text
  import opened Tree
  import opened TreeOps
  import opened TreeRuns
  import opened Segments
  import opened SegmentTable
  import opened Persistence
  import Turns

  // ---------------------------------------------------------------- the turn keys of a path

  ghost predicate AllIn(rows: Rows, p: seq<Id>) {
    forall i :: 0 <= i < |p| ==> p[i] in rows
  }

  ghost function KeyOfRow(rows: Rows, k: Id): seq<Id>
    requires k in rows
  {
    if rows[k].kind == Human then [k] else []
  }

  /** Ids of the user rows along `p`, in order. */
  ghost function PathKeys(rows: Rows, p: seq<Id>): seq<Id>
    requires AllIn(rows, p)
  {
    if p == [] then [] else PathKeys(rows, p[..|p| - 1]) + KeyOfRow(rows, p[|p| - 1])
  }

  /**
   * The message a row is restored to. A row of any other class becomes a user message if it was stored with an
   * envelope, and is dropped if it was not.
   */
  ghost function Restored(row: Row, enveloped: bool): Option<Turns.Message> {
    match row.kind
    case Human => Some(Turns.Human(row.content))
    case Ai => Some(Turns.Ai(row.content, []))
    case System => Some(Turns.System(row.content))
    case Other => if enveloped then Some(Turns.Human(row.content)) else None
  }

  ghost predicate AllRestored(rows: Rows, p: seq<Id>, enveloped: set<Id>)
    requires AllIn(rows, p)
  {
    forall i :: 0 <= i < |p| ==> Restored(rows[p[i]], p[i] in enveloped).Some?
  }

  ghost function MessagesAlong(rows: Rows, p: seq<Id>, enveloped: set<Id>): (r: seq<Turns.Message>)
    requires AllIn(rows, p)
    ensures |r| <= |p| && (|r| == |p| <==> AllRestored(rows, p, enveloped))
  {
    if p == [] then []
    else
      var last := p[|p| - 1];
      var m := Restored(rows[last], last in enveloped);
      MessagesAlong(rows, p[..|p| - 1], enveloped) + if m.Some? then [m.value] else []
  }

  /** Ids of the rows that are restored to user messages, in order. */
  ghost function OpeningRows(rows: Rows, p: seq<Id>, enveloped: set<Id>): seq<Id>
    requires AllIn(rows, p)
  {
    if p == [] then []
    else
      var last := p[|p| - 1];
      var m := Restored(rows[last], last in enveloped);
      OpeningRows(rows, p[..|p| - 1], enveloped) + if m.Some? && m.value.Human? then [last] else []
  }

  /** One dropped row and there are no turn keys; otherwise they are the ids of the rows that open a turn. */
  lemma {:induction false} TurnKeysOfPath(rows: Rows, p: seq<Id>, enveloped: set<Id>)
    requires AllIn(rows, p)
    ensures Turns.TurnKeys(MessagesAlong(rows, p, enveloped), p) ==
      if AllRestored(rows, p, enveloped) then OpeningRows(rows, p, enveloped) else []
  {
    if p != [] && AllRestored(rows, p, enveloped) {
      var init, pairs := p[..|p| - 1], Turns.Zip(p, MessagesAlong(rows, p, enveloped));
      TurnKeysOfPath(rows, init, enveloped);
      assert pairs[..|pairs| - 1] == Turns.Zip(init, MessagesAlong(rows, init, enveloped));
      assert pairs[|pairs| - 1] == (p[|p| - 1], Restored(rows[p[|p| - 1]], p[|p| - 1] in enveloped).value);
    }
  }

  /** On a path of user, assistant and system rows the turn keys are the ids of its user rows. */
  lemma TurnKeysArePathKeys(rows: Rows, p: seq<Id>, enveloped: set<Id>)
    requires AllIn(rows, p) && forall i :: 0 <= i < |p| ==> rows[p[i]].kind != Other
    ensures Turns.TurnKeys(MessagesAlong(rows, p, enveloped), p) == PathKeys(rows, p)
  {
    OpeningRowsAreKeys(rows, p, enveloped);
    TurnKeysOfPath(rows, p, enveloped);
  }

  lemma {:induction false} OpeningRowsAreKeys(rows: Rows, p: seq<Id>, enveloped: set<Id>)
    requires AllIn(rows, p) && forall i :: 0 <= i < |p| ==> rows[p[i]].kind != Other
    ensures AllRestored(rows, p, enveloped) && OpeningRows(rows, p, enveloped) == PathKeys(rows, p)
  {
    if p != [] { OpeningRowsAreKeys(rows, p[..|p| - 1], enveloped); }
  }

  lemma {:induction false} KeysOfPrefix(rows: Rows, p: seq<Id>, n: nat)
    requires AllIn(rows, p) && n <= |p|
    ensures AllIn(rows, p[..n]) && PathKeys(rows, p[..n]) <= PathKeys(rows, p)
    decreases |p|
  {
    if n < |p| {
      KeysOfPrefix(rows, p[..|p| - 1], n);
      assert p[..|p| - 1][..n] == p[..n];
    } else {
      assert p[..n] == p;
    }
  }

  lemma {:induction false} KeysAreOnPath(rows: Rows, p: seq<Id>)
    requires AllIn(rows, p)
    ensures forall i :: 0 <= i < |PathKeys(rows, p)| ==> PathKeys(rows, p)[i] in p
    ensures p != [] && rows[p[|p| - 1]].kind == Human ==>
      PathKeys(rows, p) != [] && PathKeys(rows, p)[|PathKeys(rows, p)| - 1] == p[|p| - 1]
  {
    if p != [] {
      KeysAreOnPath(rows, p[..|p| - 1]);
      assert forall x :: x in p[..|p| - 1] ==> x in p;
    }
  }

  /** Keys depend only on the classes of rows. */
  lemma {:induction false} KeysAgree(a: Rows, b: Rows, p: seq<Id>)
    requires AllIn(a, p) && AllIn(b, p) && forall i :: 0 <= i < |p| ==> a[p[i]].kind == b[p[i]].kind
    ensures PathKeys(a, p) == PathKeys(b, p)
  {
    if p != [] { KeysAgree(a, b, p[..|p| - 1]); }
  }

  // ---------------------------------------------------------------- anchored segments

  /** The user rows from the root to the segment's last row, as they were inserted, fit its two ends. */
  ghost predicate Anchored(born: Rows, s: Segment)
    requires ParentsOk(born)
  {
    && s.toKey in born
    && born[s.toKey].kind == Human
    && AllIn(born, Ancestors(born, s.toKey))
    && var hs := PathKeys(born, Ancestors(born, s.toKey));
    && 0 <= s.fromIndex < s.toIndex == |hs|
    && hs[s.fromIndex] == s.fromKey
  }

  lemma AncestorsAllIn(rows: Rows, k: Id)
    requires ParentsOk(rows) && k in rows
    ensures AllIn(rows, Ancestors(rows, k))
  {
    AncestorsFormChain(rows, k);
  }

  /** Every current row hangs from the root exactly as when it was inserted. */
  lemma BornAncestors(st: Store, k: Id)
    requires BornOk(st) && ParentsOk(st.rows) && k in st.rows
    ensures k in st.born && Ancestors(st.rows, k) == Ancestors(st.born, k)
  {
    AncestorsAgree(st.rows, st.born, k);
  }

  /** The part of a root chain that ends at one of its rows is that row's chain in the birth records. */
  lemma PartOfChain(st: Store, p: seq<Id>, k: Id)
    requires BornOk(st) && ParentsOk(st.rows) && RootChain(st.rows, p) && k in p
    ensures k in st.born && Upto(p, k) == Ancestors(st.born, k)
    ensures AllIn(st.rows, Upto(p, k)) && AllIn(st.born, Upto(p, k))
    ensures PathKeys(st.born, Upto(p, k)) == PathKeys(st.rows, Upto(p, k)) <= PathKeys(st.rows, p)
  {
    var i :| 0 <= i < |p| && p[i] == k && Upto(p, k) == p[..i + 1];
    ChainIsAncestors(st.rows, p, i);
    BornAncestors(st, k);
    AncestorsAllIn(st.born, k);
    KeysOfPrefix(st.rows, p, i + 1);
    KeysAgree(st.born, st.rows, p[..i + 1]);
  }

  /** The cheap test is exact: an anchored segment fits a path iff its last user row is on the path. */
  lemma EndpointCheckExact(st: Store, p: seq<Id>, s: Segment)
    requires BornOk(st) && ParentsOk(st.rows) && RootChain(st.rows, p) && Anchored(st.born, s)
    ensures IsValidForPath(s, PathKeys(st.rows, p)) <==> s.toKey in p
  {
    var keys := PathKeys(st.rows, p);
    if IsValidForPath(s, keys) {
      KeyIsOnPath(st.rows, p, s.toIndex - 1);
    }
    if s.toKey in p {
      PartOfChain(st, p, s.toKey);
      AnchoredFits(st.born, s, keys);
    }
  }

  lemma AnchoredFits(born: Rows, s: Segment, keys: seq<Id>)
    requires ParentsOk(born) && Anchored(born, s) && PathKeys(born, Ancestors(born, s.toKey)) <= keys
    ensures IsValidForPath(s, keys)
  {
    KeysAreOnPath(born, Ancestors(born, s.toKey));
  }

  /** A user row has as many keys up to it, itself included, as its position among the keys says. */
  lemma KeysUpto(rows: Rows, p: seq<Id>, k: Id, m: nat)
    requires AllIn(rows, p) && Increasing(p) && k in p && m < |PathKeys(rows, p)| && PathKeys(rows, p)[m] == k
    ensures AllIn(rows, Upto(p, k)) && PathKeys(rows, Upto(p, k)) == PathKeys(rows, p)[..m + 1]
  {
    KeyIndex(rows, p, m);
    KeysIncreasing(rows, p);
    KeysUptoEnd(rows, p, k);
    PrefixEndingAt(PathKeys(rows, p), PathKeys(rows, Upto(p, k)), m);
  }

  lemma KeysUptoEnd(rows: Rows, p: seq<Id>, k: Id)
    requires AllIn(rows, p) && k in p && k in rows && rows[k].kind == Human
    ensures AllIn(rows, Upto(p, k)) && PathKeys(rows, Upto(p, k)) <= PathKeys(rows, p)
    ensures PathKeys(rows, Upto(p, k)) != [] && PathKeys(rows, Upto(p, k))[|PathKeys(rows, Upto(p, k))| - 1] == k
  {
    var i :| 0 <= i < |p| && p[i] == k && Upto(p, k) == p[..i + 1];
    var part := p[..i + 1];
    KeysOfPrefix(rows, p, i + 1);
    KeysAreOnPath(rows, part);
    assert part[|part| - 1] == k;
  }

  lemma PrefixEndingAt(keys: seq<Id>, part: seq<Id>, m: nat)
    requires Increasing(keys) && part != [] && part <= keys && m < |keys| && part[|part| - 1] == keys[m]
    ensures part == keys[..m + 1]
  {
  }

  /** The keys of a root chain up to one of them are the user rows above it in the birth records. */
  lemma KeyIsBorn(st: Store, p: seq<Id>, keys: seq<Id>, m: nat, k: Id)
    requires BornOk(st) && ParentsOk(st.rows) && RootChain(st.rows, p)
    requires keys == PathKeys(st.rows, p) && m < |keys| && keys[m] == k
    ensures k in st.born && st.born[k].kind == Human && AllIn(st.born, Ancestors(st.born, k))
    ensures PathKeys(st.born, Ancestors(st.born, k)) == keys[..m + 1]
  {
    KeyIsOnPath(st.rows, p, m);
    PartOfChain(st, p, k);
    ChainIncreasing(st.rows, p);
    KeysUpto(st.rows, p, k, m);
  }

  /** A segment built from the ends of any root chain is anchored. */
  lemma ValidIsAnchored(st: Store, p: seq<Id>, s: Segment)
    requires BornOk(st) && ParentsOk(st.rows) && RootChain(st.rows, p) && IsValidForPath(s, PathKeys(st.rows, p))
    ensures Anchored(st.born, s)
  {
    var keys := PathKeys(st.rows, p);
    KeyIsBorn(st, p, keys, s.toIndex - 1, s.toKey);
    AnchoredBy(st.born, s, keys);
  }

  lemma KeyIsOnPath(rows: Rows, p: seq<Id>, i: nat)
    requires AllIn(rows, p) && i < |PathKeys(rows, p)|
    ensures PathKeys(rows, p)[i] in p && PathKeys(rows, p)[i] in rows && rows[PathKeys(rows, p)[i]].kind == Human
  {
    KeysAreOnPath(rows, p);
    KeyIndex(rows, p, i);
  }

  lemma AnchoredBy(born: Rows, s: Segment, keys: seq<Id>)
    requires ParentsOk(born) && IsValidForPath(s, keys)
    requires s.toKey in born && born[s.toKey].kind == Human && AllIn(born, Ancestors(born, s.toKey))
    requires PathKeys(born, Ancestors(born, s.toKey)) == keys[..s.toIndex]
    ensures Anchored(born, s)
  {
  }

  lemma {:induction false} KeyIndex(rows: Rows, p: seq<Id>, i: nat)
    requires AllIn(rows, p) && i < |PathKeys(rows, p)|
    ensures PathKeys(rows, p)[i] in rows && rows[PathKeys(rows, p)[i]].kind == Human
  {
    if i < |PathKeys(rows, p[..|p| - 1])| { KeyIndex(rows, p[..|p| - 1], i); }
  }

  lemma {:induction false} KeysIncreasing(rows: Rows, p: seq<Id>)
    requires AllIn(rows, p) && Increasing(p)
    ensures Increasing(PathKeys(rows, p))
  {
    if p != [] {
      var init, last := p[..|p| - 1], p[|p| - 1];
      KeysIncreasing(rows, init);
      KeysAreOnPath(rows, init);
      var ks := PathKeys(rows, init);
      forall i | 0 <= i < |ks| ensures ks[i] < last {
        var j :| 0 <= j < |init| && init[j] == ks[i];
        assert p[j] == ks[i];
      }
    }
  }

  lemma AnchoredStays(born: Rows, born': Rows, s: Segment)
    requires ParentsOk(born) && ParentsOk(born') && Anchored(born, s)
    requires forall k :: k in born ==> k in born' && born'[k] == born[k]
    ensures Anchored(born', s)
  {
    AncestorsAgree(born, born', s.toKey);
    AncestorsAllIn(born', s.toKey);
    KeysAgree(born, born', Ancestors(born, s.toKey));
  }

  /** What a compaction of a current path writes is built from that path, even if its rows are gone later. */
  lemma CompactionWritesBuilt(st: Store, p: seq<Id>, chain: seq<Segment>, keepFrom: nat, newKeep: nat,
                              summary: string, tokens: nat, merge: bool)
    requires BornOk(st) && RootChain(st.rows, p)
    requires 0 < newKeep <= |PathKeys(st.rows, p)| && keepFrom < newKeep
    ensures BuiltFromPath(st.born, NewSegment(chain, PathKeys(st.rows, p), keepFrom, newKeep, summary, tokens, merge))
  {
    var s := NewSegment(chain, PathKeys(st.rows, p), keepFrom, newKeep, summary, tokens, merge);
    ChainKept(st.rows, st.born, p);
    KeysAgree(st.rows, st.born, p);
    assert IsValidForPath(s, PathKeys(st.born, p));
  }

  // ---------------------------------------------------------------- runs

  datatype World = World(st: Store, table: Table)

  ghost predicate AllAnchored(w: World)
    requires ParentsOk(w.st.born)
  {
    forall s :: s in w.table.rows ==> Anchored(w.st.born, s)
  }

  ghost predicate WorldInv(w: World, lim: Limits) {
    StoreInv(w.st, lim) && TableOk(w.table) && AllAnchored(w)
  }

  /** A compaction that read the path `p` some time ago; its rows may have been evicted since. */
  ghost predicate BuiltFromPath(born: Rows, s: Segment) {
    exists p :: RootChain(born, p) && IsValidForPath(s, PathKeys(born, p))
  }

  /** A request on the tree, a segment written by some compaction, or segments removed by one. */
  ghost predicate WorldStep(w: World, lim: Limits, w': World) {
    || (w'.table == w.table && Step(w.st, lim, w'.st))
    || (w'.st == w.st && exists s :: BuiltFromPath(w.st.born, s) && Strip(s.summary) == s.summary != "" && w'.table == Upsert(w.table, s))
    || (w'.st == w.st && exists ids :: w'.table == w.table.(rows := Without(w.table.rows, ids)))
  }

  ghost predicate WorldStepAt(ws: seq<World>, lim: Limits, n: nat)
    requires 0 < n < |ws|
  {
    WorldStep(ws[n - 1], lim, ws[n])
  }

  ghost predicate WorldRun(ws: seq<World>, lim: Limits) {
    && ws != [] && ws[0] == World(EMPTY, Table([], 1))
    && forall n {:trigger WorldStepAt(ws, lim, n)} :: 0 < n < |ws| ==> WorldStepAt(ws, lim, n)
  }

  lemma StoreStepKeeps(w: World, lim: Limits, w': World)
    requires WorldInv(w, lim) && w'.table == w.table && Step(w.st, lim, w'.st)
    ensures WorldInv(w', lim) && BornGrows(w.st, w'.st)
  {
    var a :| Enabled(w.st, a) && (StoreInv(w.st, lim) ==> w'.st == Apply(w.st, lim, a).0);
    ApplyKeeps(w.st, lim, a);
    forall s | s in w'.table.rows ensures Anchored(w'.st.born, s) {
      AnchoredStays(w.st.born, w'.st.born, s);
    }
  }

  /** The birth records are a store of their own, in which every path that ever existed is a root chain. */
  lemma BuiltIsAnchored(st: Store, s: Segment)
    requires BornOk(st) && BuiltFromPath(st.born, s)
    ensures Anchored(st.born, s)
  {
    var p :| RootChain(st.born, p) && IsValidForPath(s, PathKeys(st.born, p));
    ValidIsAnchored(Store(st.born, st.next, st.born), p, s);
  }

  lemma WriteStepKeeps(w: World, lim: Limits, s: Segment)
    requires WorldInv(w, lim) && BuiltFromPath(w.st.born, s) && Strip(s.summary) == s.summary != ""
    ensures WorldInv(World(w.st, Upsert(w.table, s)), lim)
  {
    UpsertSpec(w.table, s);
    BuiltIsAnchored(w.st, s);
    assert Anchored(w.st.born, StoredAs(w.table, s));
  }

  lemma DeleteStepKeeps(w: World, lim: Limits, ids: seq<SegId>)
    requires WorldInv(w, lim)
    ensures WorldInv(World(w.st, w.table.(rows := Without(w.table.rows, ids))), lim)
  {
    WithoutKeeps(w.table.rows, ids, w.table.nextId);
    WithoutSpec(w.table.rows, ids);
  }

  lemma WorldStepKeeps(w: World, lim: Limits, w': World)
    requires WorldInv(w, lim) && WorldStep(w, lim, w')
    ensures WorldInv(w', lim) && BornGrows(w.st, w'.st)
  {
    if w'.table == w.table && Step(w.st, lim, w'.st) {
      StoreStepKeeps(w, lim, w');
    } else if s :| BuiltFromPath(w.st.born, s) && Strip(s.summary) == s.summary != "" && w'.table == Upsert(w.table, s) {
      WriteStepKeeps(w, lim, s);
    } else {
      var ids :| w'.table == w.table.(rows := Without(w.table.rows, ids));
      DeleteStepKeeps(w, lim, ids);
    }
  }

  lemma {:induction false} WorldRunKeeps(ws: seq<World>, lim: Limits, n: nat)
    requires WorldRun(ws, lim) && n < |ws|
    ensures WorldInv(ws[n], lim)
  {
    if n > 0 {
      WorldRunKeeps(ws, lim, n - 1);
      StepAtKeeps(ws, lim, n);
    }
  }

  lemma StepAtKeeps(ws: seq<World>, lim: Limits, n: nat)
    requires WorldRun(ws, lim) && 0 < n < |ws| && WorldInv(ws[n - 1], lim)
    ensures WorldInv(ws[n], lim) && BornGrows(ws[n - 1].st, ws[n].st)
  {
    var w, w' := ws[n - 1], ws[n];
    assert WorldStep(w, lim, w') by { assert WorldStepAt(ws, lim, n); }
    WorldStepKeeps(w, lim, w');
  }

  lemma StepGrows(ws: seq<World>, lim: Limits, n: nat)
    requires WorldRun(ws, lim) && 0 < n < |ws|
    ensures BornGrows(ws[n - 1].st, ws[n].st)
  {
    WorldRunKeeps(ws, lim, n - 1);
    StepAtKeeps(ws, lim, n);
  }

  /** Nothing is ever removed from or changed in the birth records. */
  lemma {:induction false} BornGrowsAlong(ws: seq<World>, lim: Limits, i: nat, j: nat)
    requires WorldRun(ws, lim) && i <= j < |ws|
    ensures BornGrows(ws[i].st, ws[j].st)
    decreases j
  {
    if i < j {
      BornGrowsAlong(ws, lim, i, j - 1);
      StepGrows(ws, lim, j);
      BornGrowsOn(ws[i].st, ws[j - 1].st, ws[j].st);
    }
  }

  // ---------------------------------------------------------------- the results

  /** In every reachable state, a stored segment fits a root path exactly when its last user row is on it. */
  lemma StoredSegmentsFit(ws: seq<World>, lim: Limits, n: nat, s: Segment, p: seq<Id>)
    requires WorldRun(ws, lim) && n < |ws| && s in ws[n].table.rows && RootChain(ws[n].st.rows, p)
    ensures IsValidForPath(s, PathKeys(ws[n].st.rows, p)) <==> s.toKey in p
  {
    WorldRunKeeps(ws, lim, n);
    EndpointCheckExact(ws[n].st, p, s);
  }

  /**
   * A segment made for path `p` that is accepted on path `q` at any later time covers the same rows on
   * both: the two paths are identical from the root to the segment's last user row.
   */
  lemma EndpointCheckSound(ws: seq<World>, lim: Limits, i: nat, j: nat, s: Segment, p: seq<Id>, q: seq<Id>)
    requires WorldRun(ws, lim) && i <= j < |ws|
    requires RootChain(ws[i].st.rows, p) && IsValidForPath(s, PathKeys(ws[i].st.rows, p))
    requires RootChain(ws[j].st.rows, q) && IsValidForPath(s, PathKeys(ws[j].st.rows, q))
    ensures s.toKey in p && s.toKey in q && Upto(p, s.toKey) == Upto(q, s.toKey)
  {
    WorldRunKeeps(ws, lim, i);
    WorldRunKeeps(ws, lim, j);
    BornGrowsAlong(ws, lim, i, j);
    ValidIsAnchored(ws[i].st, p, s);
    EndpointCheckExact(ws[i].st, p, s);
    AnchoredStays(ws[i].st.born, ws[j].st.born, s);
    EndpointCheckExact(ws[j].st, q, s);
    PartOfChain(ws[i].st, p, s.toKey);
    PartOfChain(ws[j].st, q, s.toKey);
    AncestorsAgree(ws[i].st.born, ws[j].st.born, s.toKey);
  }

  // ---------------------------------------------------------------- what the test does not fix

  /** Two paths agree up to a row exactly when that row is on both. */
  lemma SharedRowSharedPrefix(rows: Rows, p: seq<Id>, q: seq<Id>, i: nat)
    requires ParentsOk(rows) && RootChain(rows, p) && RootChain(rows, q) && i < |p|
    ensures p[i] in q <==> (i + 1 <= |q| && p[..i + 1] == q[..i + 1])
  {
    ChainIsAncestors(rows, p, i);
    if p[i] in q {
      var j :| 0 <= j < |q| && q[j] == p[i];
      ChainIsAncestors(rows, q, j);
      assert |p[..i + 1]| == |q[..j + 1]|;
    }
    if i < |q| && p[..i + 1] == q[..i + 1] {
      assert p[..i + 1][i] == q[..i + 1][i];
    }
  }

  /** Index just past the turn that row `i` of `p` belongs to. */
  ghost function EndOfTurn(rows: Rows, p: seq<Id>, i: nat): (e: nat)
    requires AllIn(rows, p) && i < |p|
    ensures i < e <= |p|
    decreases |p| - i
  {
    if i + 1 == |p| || rows[p[i + 1]].kind == Human then i + 1 else EndOfTurn(rows, p, i + 1)
  }

  lemma {:induction false} EndOfTurnSpec(rows: Rows, p: seq<Id>, i: nat)
    requires AllIn(rows, p) && i < |p|
    ensures forall j :: i < j < EndOfTurn(rows, p, i) ==> rows[p[j]].kind != Human
    ensures EndOfTurn(rows, p, i) < |p| ==> rows[p[EndOfTurn(rows, p, i)]].kind == Human
    decreases |p| - i
  {
    if i + 1 < |p| && rows[p[i + 1]].kind != Human { EndOfTurnSpec(rows, p, i + 1); }
  }

  /**
   * Two paths have the same rows in all turns up to the one that row `i` belongs to exactly when the last row
   * of that turn, on either path, also lies on the other one. This settles the case of a segment that fits both,
   * where row `i` is its last user row.
   */
  lemma CoveredRowsSharedIff(rows: Rows, p: seq<Id>, q: seq<Id>, i: nat)
    requires ParentsOk(rows) && RootChain(rows, p) && RootChain(rows, q) && i < |p| && i < |q|
    ensures var e, f := EndOfTurn(rows, p, i), EndOfTurn(rows, q, i);
      p[..e] == q[..f] <==> (p[e - 1] in q && q[f - 1] in p)
  {
    var e, f := EndOfTurn(rows, p, i), EndOfTurn(rows, q, i);
    SharedCount(rows, p, q, e);
    SharedCount(rows, q, p, f);
    SameEnds(rows, p, q, i);
    SharedEnds(p, q, e, f);
  }

  lemma SharedCount(rows: Rows, p: seq<Id>, q: seq<Id>, n: nat)
    requires ParentsOk(rows) && RootChain(rows, p) && RootChain(rows, q) && 0 < n <= |p|
    ensures p[n - 1] in q <==> (n <= |q| && p[..n] == q[..n])
  {
    var i := n - 1;
    SharedRowSharedPrefix(rows, p, q, i);
    assert n == i + 1;
  }

  lemma SameEnds(rows: Rows, p: seq<Id>, q: seq<Id>, i: nat)
    requires AllIn(rows, p) && AllIn(rows, q) && i < |p| && i < |q|
    ensures var e, f := EndOfTurn(rows, p, i), EndOfTurn(rows, q, i);
      e <= |q| && p[..e] == q[..e] && f <= |p| && p[..f] == q[..f] ==> e == f
  {
    var e, f := EndOfTurn(rows, p, i), EndOfTurn(rows, q, i);
    if e <= |q| && p[..e] == q[..e] && f <= |p| && p[..f] == q[..f] {
      SameTurnEnd(rows, p, q, i);
      SameTurnEnd(rows, q, p, i);
    }
  }

  /** If rows fix what is above them, equal parts are parts whose ends lie on both paths. */
  lemma SharedEnds(p: seq<Id>, q: seq<Id>, e: nat, f: nat)
    requires 0 < e <= |p| && 0 < f <= |q|
    requires p[e - 1] in q <==> (e <= |q| && p[..e] == q[..e])
    requires q[f - 1] in p <==> (f <= |p| && q[..f] == p[..f])
    requires e <= |q| && p[..e] == q[..e] && f <= |p| && p[..f] == q[..f] ==> e == f
    ensures p[..e] == q[..f] <==> (p[e - 1] in q && q[f - 1] in p)
  {
    if p[..e] == q[..f] { SameLength(p, q, e, f); }
  }

  lemma SameLength(p: seq<Id>, q: seq<Id>, e: nat, f: nat)
    requires e <= |p| && f <= |q| && p[..e] == q[..f]
    ensures e == f
  {
    assert |p[..e]| == |q[..f]|;
  }

  lemma SameTurnEnd(rows: Rows, p: seq<Id>, q: seq<Id>, i: nat)
    requires AllIn(rows, p) && AllIn(rows, q) && i < |p| && i < |q|
    requires var e, f := EndOfTurn(rows, p, i), EndOfTurn(rows, q, i);
      f <= |p| && p[..f] == q[..f]
    ensures EndOfTurn(rows, q, i) <= EndOfTurn(rows, p, i)
  {
    var e, f := EndOfTurn(rows, p, i), EndOfTurn(rows, q, i);
    EndOfTurnSpec(rows, p, i);
    EndOfTurnSpec(rows, q, i);
    SamePositions(p, q, f);
  }

  lemma SamePositions(p: seq<Id>, q: seq<Id>, n: nat)
    requires n <= |p| && n <= |q| && p[..n] == q[..n]
    ensures forall j :: 0 <= j < n ==> p[j] == q[j]
  {
    forall j | 0 <= j < n ensures p[j] == q[j] { assert p[..n][j] == q[..n][j]; }
  }

  ghost function TwoReplies(): Rows {
    map[1 := Row(None, Some(3), Human, "q"), 2 := Row(Some(1), None, Ai, "a"), 3 := Row(Some(1), None, Ai, "b")]
  }

  lemma TwoRepliesTree()
    ensures TreeInv(TwoReplies())
  {
    var rows := TwoReplies();
    forall k | k in rows ensures ParentLink(rows, k) && SelectedLink(rows, k) && ChildLink(rows, k) {}
  }

  lemma TwoRepliesKeys(reply: Id)
    requires reply == 2 || reply == 3
    ensures RootChain(TwoReplies(), [1, reply]) && PathKeys(TwoReplies(), [1, reply]) == [1]
  {
    assert PathKeys(TwoReplies(), [1]) == [1] by { assert [1][..0] == []; }
    assert [1, reply][..1] == [1];
  }

  /**
   * The reply of the last covered turn is not fixed: with two versions of that reply, one segment fits
   * both paths although they differ inside the covered turns.
   */
  lemma LastReplyNotFixed(text: string)
    ensures var s := Segment(1, 1, 1, 0, 1, 0, [], text, 1);
      && TreeInv(TwoReplies()) && RootChain(TwoReplies(), [1, 2]) && RootChain(TwoReplies(), [1, 3])
      && IsValidForPath(s, PathKeys(TwoReplies(), [1, 2])) && IsValidForPath(s, PathKeys(TwoReplies(), [1, 3]))
  {
    TwoRepliesTree();
    TwoRepliesKeys(2);
    TwoRepliesKeys(3);
  }
}
