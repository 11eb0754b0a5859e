/**
 * Storing the result of one compaction: append a segment to the chain, or merge the whole chain into
 * one coarser segment. Reading the table back gives the chain that was computed.
 */
module Persistence {
  import opened Common
  import opened Text
  import opened Segments
  import opened SegmentTable

  function MaxLevel(chain: seq<Segment>): (m: nat)
    requires chain != []
    ensures forall i :: 0 <= i < |chain| ==> chain[i].level <= m
  {
    var last := chain[|chain| - 1].level;
    if |chain| == 1 then last
    else var m := MaxLevel(chain[..|chain| - 1]); if m < last then last else m
  }

  function SegIds(chain: seq<Segment>): (r: seq<SegId>)
    ensures |r| == |chain| && forall i :: 0 <= i < |chain| ==> r[i] == SegIdOf(chain[i])
  {
    seq(|chain|, i requires 0 <= i < |chain| => SegIdOf(chain[i]))
  }

  /** A merge is anchored at turn 0 and outranks everything it replaces; otherwise the chain grows by one. */
  function NewSegment(chain: seq<Segment>, keys: seq<Id>, keepFrom: nat, newKeep: nat,
                      summary: string, tokens: nat, merge: bool): Segment
    requires 0 < newKeep <= |keys| && (merge || keepFrom < newKeep)
  {
    if merge then
      Segment(0, keys[0], keys[newKeep - 1], 0, newKeep,
              if chain == [] then 0 else MaxLevel(chain) + 1, SegIds(chain), summary, tokens)
    else
      Segment(0, keys[keepFrom], keys[newKeep - 1], keepFrom, newKeep, 0, [], summary, tokens)
  }

  lemma NewSegmentFits(chain: seq<Segment>, keys: seq<Id>, keepFrom: nat, newKeep: nat,
                       summary: string, tokens: nat, merge: bool)
    requires keepFrom < newKeep <= |keys|
    ensures var s := NewSegment(chain, keys, keepFrom, newKeep, summary, tokens, merge);
      && Candidate(s, keys, if merge then 0 else keepFrom) && s.toIndex == newKeep && s.summary == summary
      && s.mergedFrom == if merge then SegIds(chain) else []
  {
  }

  /** The rows afterwards, and the chain handed back to the caller. */
  function Stored(t: Table, s: Segment, merge: bool, deleteFails: bool): Table {
    var t1 := Upsert(t, s.(summary := Strip(s.summary)));
    if merge && s.mergedFrom != [] && !deleteFails then t1.(rows := Without(t1.rows, s.mergedFrom)) else t1
  }

  function Returned(t: Table, chain: seq<Segment>, s: Segment, merge: bool): seq<Segment> {
    var inMemory := s.(rowId := StoredAs(t, s).rowId);
    if merge && s.mergedFrom != [] then [inMemory] else chain + [inMemory]
  }

  /** Table and chain after one new segment was stored for the turns from `keepFrom` (or 0) to `newKeep`. */
  ghost predicate Persisted(t: Table, t': Table, chain: seq<Segment>, chain': seq<Segment>, keys: seq<Id>,
                            keepFrom: nat, newKeep: nat, summary: string, tokens: nat, merge: bool, deleteFails: bool)
    requires 0 < newKeep <= |keys| && (merge || keepFrom < newKeep)
  {
    var s := NewSegment(chain, keys, keepFrom, newKeep, summary, tokens, merge);
    t' == Stored(t, s, merge, deleteFails) && chain' == Returned(t, chain, s, merge)
  }

  ghost function Reload(t: Table, keys: seq<Id>): seq<Segment> {
    ChainFrom(Loaded(t.rows), keys, 0)
  }

  /** `loaded` starts with the segments of `chain`, up to trimming of summaries. */
  ghost predicate BeginsWith(loaded: seq<Segment>, chain: seq<Segment>) {
    && |chain| <= |loaded|
    && forall i :: 0 <= i < |chain| ==> loaded[i] == chain[i].(summary := Strip(chain[i].summary))
  }

  lemma StoredSpec(t: Table, s: Segment, merge: bool, deleteFails: bool)
    requires TableOk(t) && Strip(s.summary) != ""
    requires SegIdOf(s) !in s.mergedFrom
    ensures var t' := Stored(t, s, merge, deleteFails);
      var kept := StoredAs(t, s.(summary := Strip(s.summary)));
      && TableOk(t') && kept in t'.rows
      && (forall x :: x in t'.rows ==> x == kept || (x in t.rows && SegIdOf(x) != SegIdOf(s)))
      && (forall x :: x in t.rows && SegIdOf(x) != SegIdOf(s) && SegIdOf(x) !in s.mergedFrom ==> x in t'.rows)
  {
    StripIdempotent(s.summary);
    var trimmed := s.(summary := Strip(s.summary));
    UpsertSpec(t, trimmed);
    var t1 := Upsert(t, trimmed);
    WithoutSpec(t1.rows, s.mergedFrom);
    WithoutKeeps(t1.rows, s.mergedFrom, t1.nextId);
  }

  /** Keys identify turns, so two valid segments with the same keys span the same turns. */
  lemma SameKeysSameSpan(a: Segment, b: Segment, keys: seq<Id>)
    requires Increasing(keys) && IsValidForPath(a, keys) && IsValidForPath(b, keys) && SegIdOf(a) == SegIdOf(b)
    ensures a.fromIndex == b.fromIndex && a.toIndex == b.toIndex
  {
  }

  lemma ReloadedAreStored(t: Table, keys: seq<Id>)
    requires TableOk(t)
    ensures Ordered(Loaded(t.rows)) && Tiles(Reload(t, keys), keys, 0)
    ensures forall x :: x in Loaded(t.rows) <==> x in t.rows
    ensures forall i :: 0 <= i < |Reload(t, keys)| ==> Reload(t, keys)[i] in t.rows
  {
    LoadedSpec(t.rows);
    ChainTiles(Loaded(t.rows), keys, 0);
    ChainMembers(Loaded(t.rows), keys, 0);
  }

  lemma {:induction false} ChainMembers(segs: seq<Segment>, keys: seq<Id>, pos: int)
    ensures forall i :: 0 <= i < |ChainFrom(segs, keys, pos)| ==>
      ChainFrom(segs, keys, pos)[i] in segs
    decreases |keys| - pos
  {
    var next := Pick(segs, keys, pos);
    if next.Some? && next.value.toIndex < |keys| { ChainMembers(segs, keys, next.value.toIndex); }
  }

  /** What a write of `s` as `kept` does to the rows that are loaded next. */
  ghost predicate Rewritten(a: seq<Segment>, b: seq<Segment>, s: Segment, kept: Segment) {
    && Ordered(a) && Ordered(b) && kept in b
    && (forall x :: x in b ==> x == kept || (x in a && SegIdOf(x) != SegIdOf(s)))
    && (forall x :: x in a && SegIdOf(x) != SegIdOf(s) && SegIdOf(x) !in s.mergedFrom ==> x in b)
  }

  lemma WriteReload(t: Table, s: Segment, merge: bool, deleteFails: bool)
    requires TableOk(t) && Strip(s.summary) != ""
    requires SegIdOf(s) !in s.mergedFrom
    ensures var kept := StoredAs(t, s.(summary := Strip(s.summary)));
      && TableOk(Stored(t, s, merge, deleteFails))
      && Rewritten(Loaded(t.rows), Loaded(Stored(t, s, merge, deleteFails).rows), s, kept)
      && kept == s.(rowId := StoredAs(t, s).rowId, summary := Strip(s.summary))
  {
    StoredSpec(t, s, merge, deleteFails);
    LoadedSpec(t.rows);
    LoadedSpec(Stored(t, s, merge, deleteFails).rows);
  }

  // ---------------------------------------------------------------- growing the chain by one

  /** Away from its own start, a new segment leaves every choice as it was. */
  lemma OtherPicksUnchanged(a: seq<Segment>, b: seq<Segment>, keys: seq<Id>, s: Segment, f: int)
    requires Ordered(a) && Ordered(b) && Increasing(keys) && IsValidForPath(s, keys) && f != s.fromIndex
    requires forall x :: SegIdOf(x) != SegIdOf(s) ==> (x in a <==> x in b)
    ensures Pick(a, keys, f) == Pick(b, keys, f)
  {
    forall x | Candidate(x, keys, f) ensures SegIdOf(x) != SegIdOf(s) {
      if SegIdOf(x) == SegIdOf(s) { SameKeysSameSpan(x, s, keys); }
    }
    SameCandidatesSamePick(a, b, keys, f);
  }

  /** Where nothing started before, the new segment is the only choice. */
  lemma NewIsPicked(a: seq<Segment>, b: seq<Segment>, keys: seq<Id>, s: Segment, kept: Segment)
    requires Ordered(a) && Ordered(b) && Candidate(kept, keys, s.fromIndex) && kept in b
    requires forall x :: x in b ==> x == kept || x in a
    requires Pick(a, keys, s.fromIndex).None?
    ensures Pick(b, keys, s.fromIndex) == Some(kept)
  {
    PickIsBest(a, keys, s.fromIndex);
    BestIsPicked(b, keys, s.fromIndex, kept);
  }

  lemma ChainGrows(a: seq<Segment>, b: seq<Segment>, keys: seq<Id>, s: Segment, kept: Segment)
    requires Increasing(keys) && Rewritten(a, b, s, kept) && s.mergedFrom == []
    requires IsValidForPath(s, keys) && s.fromIndex == Covered(ChainFrom(a, keys, 0))
    requires SegIdOf(kept) == SegIdOf(s) && Candidate(kept, keys, s.fromIndex)
    ensures ChainFrom(a, keys, 0) + [kept] <= ChainFrom(b, keys, 0)
  {
    var end := s.fromIndex;
    ChainTiles(a, keys, 0);
    forall f | 0 <= f < end ensures Pick(a, keys, f) == Pick(b, keys, f) {
      OtherPicksUnchanged(a, b, keys, s, f);
    }
    NewIsPicked(a, b, keys, s, kept);
    ChainExtends(a, b, keys, 0, end);
  }

  lemma AppendedReload(t: Table, keys: seq<Id>, s: Segment)
    requires TableOk(t) && Increasing(keys) && Strip(s.summary) != "" && s.mergedFrom == []
    requires IsValidForPath(s, keys) && s.fromIndex == Covered(Reload(t, keys))
    ensures BeginsWith(Reload(Stored(t, s, false, false), keys), Returned(t, Reload(t, keys), s, false))
  {
    var t' := Stored(t, s, false, false);
    var kept := StoredAs(t, s.(summary := Strip(s.summary)));
    WriteReload(t, s, false, false);
    StoredTrimmed(t, keys);
    AppendedOn(Loaded(t.rows), Loaded(t'.rows), keys, s, kept);
    assert Returned(t, Reload(t, keys), s, false) == Reload(t, keys) + [s.(rowId := kept.rowId)];
  }

  lemma AppendedOn(a: seq<Segment>, b: seq<Segment>, keys: seq<Id>, s: Segment, kept: Segment)
    requires Increasing(keys) && Rewritten(a, b, s, kept) && s.mergedFrom == []
    requires kept == s.(rowId := kept.rowId, summary := Strip(s.summary))
    requires IsValidForPath(s, keys) && s.fromIndex == Covered(ChainFrom(a, keys, 0))
    requires AllTrimmed(ChainFrom(a, keys, 0))
    ensures BeginsWith(ChainFrom(b, keys, 0), ChainFrom(a, keys, 0) + [s.(rowId := kept.rowId)])
  {
    ChainGrows(a, b, keys, s, kept);
    BeginsWithGrown(ChainFrom(b, keys, 0), ChainFrom(a, keys, 0), s.(rowId := kept.rowId), kept);
  }

  ghost predicate AllTrimmed(chain: seq<Segment>) {
    forall i :: 0 <= i < |chain| ==> Strip(chain[i].summary) == chain[i].summary
  }

  lemma BeginsWithGrown(loaded: seq<Segment>, chain: seq<Segment>, inMemory: Segment, kept: Segment)
    requires chain + [kept] <= loaded && kept == inMemory.(summary := Strip(inMemory.summary))
    requires AllTrimmed(chain)
    ensures BeginsWith(loaded, chain + [inMemory])
  {
    var grown, r := chain + [kept], chain + [inMemory];
    forall i | 0 <= i < |r| ensures loaded[i] == r[i].(summary := Strip(r[i].summary)) {
      assert loaded[i] == grown[i];
    }
  }

  lemma StoredTrimmed(t: Table, keys: seq<Id>)
    requires TableOk(t)
    ensures AllTrimmed(Reload(t, keys))
  {
    ReloadedAreStored(t, keys);
  }

  // ---------------------------------------------------------------- merging the chain

  /** A merged segment has an identifier of its own, so cleaning up what it replaces never removes it. */
  lemma MergeKeepsItself(keys: seq<Id>, chain: seq<Segment>, keepFrom: nat, newKeep: nat, summary: string, tokens: nat)
    requires Increasing(keys) && Tiles(chain, keys, 0) && Covered(chain) <= keepFrom < newKeep <= |keys|
    ensures SegIdOf(NewSegment(chain, keys, keepFrom, newKeep, summary, tokens, true)) !in SegIds(chain)
  {
    forall i | 0 <= i < |chain| ensures chain[i].toKey != keys[newKeep - 1] {
      EndsGrow(chain, keys, i);
    }
  }

  lemma {:induction false} EndsGrow(chain: seq<Segment>, keys: seq<Id>, i: nat)
    requires Tiles(chain, keys, 0) && i < |chain|
    ensures chain[i].toIndex <= Covered(chain)
    decreases |chain| - i
  {
    if i + 1 < |chain| {
      assert StartsWhereLastEnds(chain, i + 1);
      EndsGrow(chain, keys, i + 1);
    }
  }

  /** At turn 0 the merged segment beats whatever was chosen there before. */
  lemma MergedIsBest(a: seq<Segment>, b: seq<Segment>, keys: seq<Id>, s: Segment, kept: Segment)
    requires Rewritten(a, b, s, kept) && Candidate(kept, keys, 0) && kept.level == s.level
    requires Pick(a, keys, 0).Some? ==> Pick(a, keys, 0).value.level < s.level
    ensures Pick(b, keys, 0) == Some(kept)
  {
    PickIsBest(a, keys, 0);
    BestIsPicked(b, keys, 0, kept);
  }

  lemma OutranksChain(a: seq<Segment>, keys: seq<Id>, keepFrom: nat, newKeep: nat, summary: string, tokens: nat)
    requires keepFrom < newKeep <= |keys|
    ensures Pick(a, keys, 0).Some? ==>
      Pick(a, keys, 0).value.level < NewSegment(ChainFrom(a, keys, 0), keys, keepFrom, newKeep, summary, tokens, true).level
  {
    var chain := ChainFrom(a, keys, 0);
    FirstOfChain(a, keys);
    assert chain != [] ==> chain[0].level <= MaxLevel(chain);
  }

  lemma MergedReload(t: Table, keys: seq<Id>, keepFrom: nat, newKeep: nat, summary: string, tokens: nat, deleteFails: bool)
    requires TableOk(t) && Increasing(keys) && Strip(summary) != ""
    requires Covered(Reload(t, keys)) <= keepFrom < newKeep <= |keys|
    ensures var chain := Reload(t, keys);
      var s := NewSegment(chain, keys, keepFrom, newKeep, summary, tokens, true);
      BeginsWith(Reload(Stored(t, s, true, deleteFails), keys), Returned(t, chain, s, true))
  {
    var chain := Reload(t, keys);
    var s := NewSegment(chain, keys, keepFrom, newKeep, summary, tokens, true);
    ChainTiles(Loaded(t.rows), keys, 0);
    NewSegmentFits(chain, keys, keepFrom, newKeep, summary, tokens, true);
    MergeKeepsItself(keys, chain, keepFrom, newKeep, summary, tokens);
    OutranksChain(Loaded(t.rows), keys, keepFrom, newKeep, summary, tokens);
    MergedIsReloaded(t, keys, chain, s, deleteFails);
  }

  lemma MergedIsReloaded(t: Table, keys: seq<Id>, chain: seq<Segment>, s: Segment, deleteFails: bool)
    requires TableOk(t) && Strip(s.summary) != "" && Candidate(s, keys, 0) && SegIdOf(s) !in s.mergedFrom
    requires Pick(Loaded(t.rows), keys, 0).Some? ==> Pick(Loaded(t.rows), keys, 0).value.level < s.level
    requires s.mergedFrom == [] ==> chain == []
    ensures BeginsWith(Reload(Stored(t, s, true, deleteFails), keys), Returned(t, chain, s, true))
  {
    var kept := StoredAs(t, s.(summary := Strip(s.summary)));
    WriteReload(t, s, true, deleteFails);
    var loaded := Loaded(Stored(t, s, true, deleteFails).rows);
    MergedOn(Loaded(t.rows), loaded, keys, s, kept);
    assert Returned(t, chain, s, true) == [s.(rowId := kept.rowId)];
  }

  lemma MergedOn(a: seq<Segment>, b: seq<Segment>, keys: seq<Id>, s: Segment, kept: Segment)
    requires Rewritten(a, b, s, kept) && kept == s.(rowId := kept.rowId, summary := Strip(s.summary))
    requires Candidate(s, keys, 0) && (Pick(a, keys, 0).Some? ==> Pick(a, keys, 0).value.level < s.level)
    ensures BeginsWith(ChainFrom(b, keys, 0), [s.(rowId := kept.rowId)])
  {
    MergedIsBest(a, b, keys, s, kept);
    FirstOfChain(b, keys);
  }

  lemma FirstOfChain(segs: seq<Segment>, keys: seq<Id>)
    ensures Pick(segs, keys, 0).Some? ==>
      ChainFrom(segs, keys, 0) != [] && ChainFrom(segs, keys, 0)[0] == Pick(segs, keys, 0).value
  {
  }

  // ---------------------------------------------------------------- the two results

  /** Write then reload: the next load starts with the chain just returned and covers the new window. */
  lemma PersistThenReload(t: Table, keys: seq<Id>, keepFrom: nat, newKeep: nat, summary: string, tokens: nat,
                          merge: bool, deleteFails: bool)
    requires TableOk(t) && Increasing(keys) && Strip(summary) != ""
    requires Covered(Reload(t, keys)) <= keepFrom < newKeep <= |keys|
    requires merge || keepFrom == Covered(Reload(t, keys))
    ensures var chain := Reload(t, keys);
      var s := NewSegment(chain, keys, keepFrom, newKeep, summary, tokens, merge);
      var loaded := Reload(Stored(t, s, merge, deleteFails), keys);
      && TableOk(Stored(t, s, merge, deleteFails))
      && BeginsWith(loaded, Returned(t, chain, s, merge))
      && Covered(Returned(t, chain, s, merge)) == newKeep <= Covered(loaded)
  {
    var chain := Reload(t, keys);
    var s := NewSegment(chain, keys, keepFrom, newKeep, summary, tokens, merge);
    var t' := Stored(t, s, merge, deleteFails);
    var r := Returned(t, chain, s, merge);
    ChainTiles(Loaded(t.rows), keys, 0);
    NewSegmentFits(chain, keys, keepFrom, newKeep, summary, tokens, merge);
    if merge {
      MergeKeepsItself(keys, chain, keepFrom, newKeep, summary, tokens);
      MergedReload(t, keys, keepFrom, newKeep, summary, tokens, deleteFails);
    } else {
      AppendedReload(t, keys, s);
    }
    WriteReload(t, s, merge, deleteFails);
    ChainTiles(Loaded(t'.rows), keys, 0);
    assert r[|r| - 1] == s.(rowId := StoredAs(t, s).rowId);
    CoversAtLeast(Reload(t', keys), r, keys);
  }

  lemma CoversAtLeast(loaded: seq<Segment>, r: seq<Segment>, keys: seq<Id>)
    requires Tiles(loaded, keys, 0) && r != [] && BeginsWith(loaded, r)
    ensures Covered(r) <= Covered(loaded)
  {
    EndsGrow(loaded, keys, |r| - 1);
  }

  /** Without a merge, the returned chain is found again exactly when it had no gap before the new segment. */
  lemma PersistReloadsIffNoGap(t: Table, keys: seq<Id>, keepFrom: nat, newKeep: nat, summary: string, tokens: nat)
    requires TableOk(t) && Increasing(keys) && Strip(summary) != ""
    requires Covered(Reload(t, keys)) <= keepFrom < newKeep <= |keys|
    ensures var chain := Reload(t, keys);
      var s := NewSegment(chain, keys, keepFrom, newKeep, summary, tokens, false);
      BeginsWith(Reload(Stored(t, s, false, false), keys), Returned(t, chain, s, false)) <==> keepFrom == Covered(chain)
  {
    var chain := Reload(t, keys);
    var s := NewSegment(chain, keys, keepFrom, newKeep, summary, tokens, false);
    var t' := Stored(t, s, false, false);
    NewSegmentFits(chain, keys, keepFrom, newKeep, summary, tokens, false);
    if keepFrom == Covered(chain) {
      AppendedReload(t, keys, s);
    } else {
      StoredSpec(t, s, false, false);
      ReloadedAreStored(t', keys);
      ReloadedAreStored(t, keys);
      GapIsNotReloaded(Reload(t', keys), chain, keys, s.(rowId := StoredAs(t, s).rowId));
    }
  }

  lemma GapIsNotReloaded(loaded: seq<Segment>, chain: seq<Segment>, keys: seq<Id>, s: Segment)
    requires Tiles(loaded, keys, 0) && Tiles(chain, keys, 0) && s.fromIndex != Covered(chain)
    ensures !BeginsWith(loaded, chain + [s])
  {
    var r := chain + [s];
    assert r[|chain|] == s && |r| == |chain| + 1;
    if chain != [] && |r| <= |loaded| {
      assert StartsWhereLastEnds(loaded, |chain|) && r[|chain| - 1] == chain[|chain| - 1];
    }
  }
}
