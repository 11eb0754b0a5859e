/**
 * Summary segments: the table that holds the segments of all branches, the endpoint test that says
 * whether a segment belongs to a path, and the greedy chain built from those that do.
 */
module Segments {
  import opened Common
  import opened Text

  /** `s_{from}_{to}`: two keys determine the identifier and are determined by it. */
  datatype SegId = SegId(fromKey: Id, toKey: Id)

  datatype Segment = Segment(
    rowId: nat, fromKey: Id, toKey: Id, fromIndex: int, toIndex: int,
    level: nat, mergedFrom: seq<SegId>, summary: string, tokens: nat)

  function SegIdOf(s: Segment): SegId {
    SegId(s.fromKey, s.toKey)
  }

  /** Only the two end turns are compared. */
  predicate IsValidForPath(s: Segment, keys: seq<Id>) {
    && 0 <= s.fromIndex < s.toIndex <= |keys|
    && keys[s.fromIndex] == s.fromKey
    && keys[s.toIndex - 1] == s.toKey
  }

  // ---------------------------------------------------------------- the chain, specified

  predicate Candidate(s: Segment, keys: seq<Id>, from: int) {
    IsValidForPath(s, keys) && s.fromIndex == from
  }

  /** First segment of the highest level among those that start at `from`. */
  function Pick(segs: seq<Segment>, keys: seq<Id>, from: int): (r: Option<Segment>)
    ensures r.Some? ==> r.value in segs && Candidate(r.value, keys, from)
  {
    if segs == [] then None
    else
      var best := Pick(segs[..|segs| - 1], keys, from);
      var s := segs[|segs| - 1];
      if Candidate(s, keys, from) && (best.None? || s.level > best.value.level) then Some(s) else best
  }

  function ChainFrom(segs: seq<Segment>, keys: seq<Id>, pos: int): seq<Segment>
    decreases |keys| - pos
  {
    var next := Pick(segs, keys, pos);
    if next.None? then []
    else [next.value] + if next.value.toIndex >= |keys| then [] else ChainFrom(segs, keys, next.value.toIndex)
  }

  function Covered(chain: seq<Segment>): int {
    if chain == [] then 0 else chain[|chain| - 1].toIndex
  }

  function ChainTokens(chain: seq<Segment>): nat {
    if chain == [] then 0 else ChainTokens(chain[..|chain| - 1]) + chain[|chain| - 1].tokens
  }

  ghost predicate StartsWhereLastEnds(chain: seq<Segment>, i: nat)
    requires 0 < i < |chain|
  {
    chain[i].fromIndex == chain[i - 1].toIndex
  }

  /** The segments lie end to end from `pos`, each on the path. */
  ghost predicate Tiles(chain: seq<Segment>, keys: seq<Id>, pos: int) {
    && (forall i :: 0 <= i < |chain| ==> IsValidForPath(chain[i], keys))
    && (chain != [] ==> chain[0].fromIndex == pos)
    && (forall i {:trigger StartsWhereLastEnds(chain, i)} :: 0 < i < |chain| ==> StartsWhereLastEnds(chain, i))
  }

  ghost function EndOf(chain: seq<Segment>, pos: int): int {
    if chain == [] then pos else chain[|chain| - 1].toIndex
  }

  lemma TilesSnoc(chain: seq<Segment>, s: Segment, keys: seq<Id>, pos: int)
    requires Tiles(chain, keys, pos) && IsValidForPath(s, keys) && s.fromIndex == EndOf(chain, pos)
    ensures Tiles(chain + [s], keys, pos)
  {
    var r := chain + [s];
    forall i | 0 < i < |r| ensures StartsWhereLastEnds(r, i) {
      if i < |chain| { assert StartsWhereLastEnds(chain, i); }
    }
  }

  lemma TilesCons(s: Segment, rest: seq<Segment>, keys: seq<Id>)
    requires IsValidForPath(s, keys) && Tiles(rest, keys, s.toIndex)
    ensures Tiles([s] + rest, keys, s.fromIndex) && EndOf([s] + rest, s.fromIndex) == EndOf(rest, s.toIndex)
  {
    var c := [s] + rest;
    forall i | 0 < i < |c| ensures StartsWhereLastEnds(c, i) {
      if i > 1 { assert StartsWhereLastEnds(rest, i - 1); }
    }
  }

  /** A chain tiles an initial part of the path and stops only where nothing starts. */
  lemma {:induction false} ChainTiles(segs: seq<Segment>, keys: seq<Id>, pos: int)
    ensures Tiles(ChainFrom(segs, keys, pos), keys, pos)
    ensures pos <= EndOf(ChainFrom(segs, keys, pos), pos)
    ensures EndOf(ChainFrom(segs, keys, pos), pos) < |keys| ==> Pick(segs, keys, EndOf(ChainFrom(segs, keys, pos), pos)).None?
    decreases |keys| - pos
  {
    var next := Pick(segs, keys, pos);
    if next.Some? && next.value.toIndex < |keys| {
      ChainTiles(segs, keys, next.value.toIndex);
      TilesCons(next.value, ChainFrom(segs, keys, next.value.toIndex), keys);
    }
  }

  // ---------------------------------------------------------------- which segment is picked does not depend on the listing

  predicate Before(a: Segment, b: Segment) {
    a.fromIndex < b.fromIndex || (a.fromIndex == b.fromIndex && a.rowId < b.rowId)
  }

  /** `ORDER BY from_index, id`, with ids unique. */
  ghost predicate Ordered(segs: seq<Segment>) {
    forall i, j :: 0 <= i < j < |segs| ==> Before(segs[i], segs[j])
  }

  /** Highest level, oldest row among equals. */
  ghost predicate Beats(s: Segment, o: Segment) {
    o.level < s.level || (o.level == s.level && s.rowId <= o.rowId)
  }

  ghost predicate Best(segs: seq<Segment>, keys: seq<Id>, from: int, s: Segment) {
    && s in segs && Candidate(s, keys, from)
    && forall o :: o in segs && Candidate(o, keys, from) ==> Beats(s, o)
  }

  lemma {:induction false} PickIsBest(segs: seq<Segment>, keys: seq<Id>, from: int)
    requires Ordered(segs)
    ensures Pick(segs, keys, from).Some? ==> Best(segs, keys, from, Pick(segs, keys, from).value)
    ensures Pick(segs, keys, from).None? ==> forall o :: o in segs ==> !Candidate(o, keys, from)
  {
    if segs != [] {
      var init, s := segs[..|segs| - 1], segs[|segs| - 1];
      PickIsBest(init, keys, from);
      assert forall o :: o in segs <==> o in init || o == s;
      forall o | o in init && Candidate(o, keys, from) && Candidate(s, keys, from) ensures o.rowId < s.rowId {
        var i :| 0 <= i < |init| && init[i] == o;
        assert segs[i] == o;
      }
    }
  }

  /** A segment that beats every other candidate is the one picked. */
  lemma BestIsPicked(segs: seq<Segment>, keys: seq<Id>, from: int, s: Segment)
    requires Ordered(segs) && Best(segs, keys, from, s)
    ensures Pick(segs, keys, from) == Some(s)
  {
    PickIsBest(segs, keys, from);
    var p := Pick(segs, keys, from).value;
    assert p.rowId == s.rowId && p.fromIndex == s.fromIndex;
    var i :| 0 <= i < |segs| && segs[i] == s;
    var j :| 0 <= j < |segs| && segs[j] == p;
    assert i == j;
  }

  lemma SameCandidatesSamePick(a: seq<Segment>, b: seq<Segment>, keys: seq<Id>, from: int)
    requires Ordered(a) && Ordered(b)
    requires forall s :: Candidate(s, keys, from) ==> (s in a <==> s in b)
    ensures Pick(a, keys, from) == Pick(b, keys, from)
  {
    PickIsBest(a, keys, from);
    PickIsBest(b, keys, from);
    if Pick(a, keys, from).Some? {
      BestIsPicked(b, keys, from, Pick(a, keys, from).value);
    }
  }

  /** If nothing changes before the end of a chain, the new chain continues where the old one stopped. */
  lemma {:induction false} ChainExtends(a: seq<Segment>, b: seq<Segment>, keys: seq<Id>, pos: int, end: int)
    requires end == EndOf(ChainFrom(a, keys, pos), pos) && end < |keys|
    requires forall f :: pos <= f < end ==> Pick(a, keys, f) == Pick(b, keys, f)
    ensures ChainFrom(b, keys, pos) == ChainFrom(a, keys, pos) + ChainFrom(b, keys, end)
    decreases |keys| - pos
  {
    var next := Pick(a, keys, pos);
    ChainTiles(a, keys, pos);
    if next.None? {
      assert ChainFrom(a, keys, pos) == [];
    } else {
      var mid := next.value.toIndex;
      var rest := ChainFrom(a, keys, mid);
      assert ChainFrom(a, keys, pos) == [next.value] + (if mid >= |keys| then [] else rest);
      ChainStep(a, keys, pos);
      ChainTiles(a, keys, mid);
      assert EndOf(rest, mid) == end;
      ChainExtends(a, b, keys, mid, end);
      ChainStep(b, keys, pos);
      ConsAppend(next.value, rest, ChainFrom(b, keys, end));
    }
  }

  lemma ChainStep(segs: seq<Segment>, keys: seq<Id>, pos: int)
    requires Pick(segs, keys, pos).Some? && Pick(segs, keys, pos).value.toIndex < |keys|
    ensures var s := Pick(segs, keys, pos).value;
      ChainFrom(segs, keys, pos) == [s] + ChainFrom(segs, keys, s.toIndex)
  {
  }

  lemma ConsAppend(x: Segment, a: seq<Segment>, b: seq<Segment>)
    ensures [x] + (a + b) == ([x] + a) + b
  {
  }

  // ---------------------------------------------------------------- the loops

  method ChainForPath(segs: seq<Segment>, keys: seq<Id>) returns (chain: seq<Segment>)
    ensures chain == ChainFrom(segs, keys, 0)
  {
    var byFrom: map<int, Segment> := map[];
    for i := 0 to |segs|
      invariant forall f: int :: Pick(segs[..i], keys, f) == if f in byFrom then Some(byFrom[f]) else None
    {
      var s := segs[i];
      assert segs[..i + 1][..i] == segs[..i];
      if IsValidForPath(s, keys) {
        var f := s.fromIndex;
        if f !in byFrom || s.level > byFrom[f].level {
          byFrom := byFrom[f := s];
        }
      }
    }
    assert segs[..|segs|] == segs;
    chain := [];
    var pos := 0;
    while pos in byFrom
      invariant 0 <= pos
      invariant chain + ChainFrom(segs, keys, pos) == ChainFrom(segs, keys, 0)
      decreases |keys| - pos
    {
      var next := byFrom[pos];
      assert Pick(segs, keys, pos) == Some(next);
      MoveHead(chain, ChainFrom(segs, keys, pos));
      chain := chain + [next];
      pos := next.toIndex;
      if pos >= |keys| {
        break;
      }
    }
  }

  method CountTokens(chain: seq<Segment>) returns (n: nat)
    ensures n == ChainTokens(chain)
  {
    n := 0;
    for i := 0 to |chain|
      invariant n == ChainTokens(chain[..i])
    {
      assert chain[..i + 1][..i] == chain[..i];
      n := n + chain[i].tokens;
    }
    assert chain[..|chain|] == chain;
  }
}
