/** Chunking an attachment's text for search, and widening a hit into a snippet. */
module Snippets {
  import opened Common

  datatype Span = Span(start: int, end: int)

  /** An overlap of a whole chunk or more falls back to a quarter of one. */
  function EffectiveOverlap(chunkSize: int, overlap: int): (o: int)
    requires chunkSize >= 1
    ensures o < chunkSize
  {
    if overlap >= chunkSize then chunkSize / 4 else overlap
  }

  predicate FullOrLast(s: Span, n: nat, size: int) {
    0 <= s.start < s.end <= n && s.end == if s.start + size < n then s.start + size else n
  }

  ghost predicate Follows(spans: seq<Span>, i: int, n: nat, o: int)
    requires 0 < i < |spans|
  {
    spans[i - 1].end < n && spans[i].start == spans[i - 1].end - o
  }

  ghost predicate IsChain(spans: seq<Span>, n: nat, size: int, o: int) {
    && (spans != [] ==> spans[0].start == 0)
    && (forall i :: 0 <= i < |spans| ==> FullOrLast(spans[i], n, size))
    && (forall i {:trigger Follows(spans, i, n, o)} :: 0 < i < |spans| ==> Follows(spans, i, n, o))
  }

  /** Chunks of full size, each starting `o` before the end of the one before, until the text is used up. */
  ghost predicate IsChunking(spans: seq<Span>, n: nat, size: int, o: int) {
    && IsChain(spans, n, size, o)
    && (n == 0 <==> spans == [])
    && (spans != [] ==> spans[|spans| - 1].end == n || spans[|spans| - 1].end - o >= n)
  }

  lemma AddSpan(spans: seq<Span>, s: Span, n: nat, size: int, o: int)
    requires IsChain(spans, n, size, o) && FullOrLast(s, n, size)
    requires if spans == [] then s.start == 0 else spans[|spans| - 1].end < n && s.start == spans[|spans| - 1].end - o
    ensures IsChain(spans + [s], n, size, o)
  {
    var r := spans + [s];
    forall i | 0 < i < |r| ensures Follows(r, i, n, o) {
      if i < |spans| { assert Follows(spans, i, n, o); }
    }
  }

  /** A chunk size below 1 would never advance. */
  method ChunkSpans(n: nat, chunkSize: int, overlap: int) returns (spans: seq<Span>)
    requires chunkSize >= 1
    ensures IsChunking(spans, n, chunkSize, EffectiveOverlap(chunkSize, overlap))
  {
    if n == 0 {
      return [];
    }
    var o := EffectiveOverlap(chunkSize, overlap);
    spans := [];
    var start := 0;
    while start < n
      invariant 0 <= start && IsChain(spans, n, chunkSize, o)
      invariant if spans == [] then start == 0 else spans[|spans| - 1].end < n && start == spans[|spans| - 1].end - o
      decreases n - start
    {
      var end := if start + chunkSize < n then start + chunkSize else n;
      AddSpan(spans, Span(start, end), n, chunkSize, o);
      spans := spans + [Span(start, end)];
      if end >= n {
        break;
      }
      start := if end - o > 0 then end - o else 0;
    }
  }

  predicate Within(p: int, s: Span) {
    s.start <= p < s.end
  }

  ghost predicate Covered(spans: seq<Span>, p: int) {
    exists i :: 0 <= i < |spans| && Within(p, spans[i])
  }

  ghost predicate Covers(spans: seq<Span>, n: nat) {
    forall p :: 0 <= p < n ==> Covered(spans, p)
  }

  lemma {:induction false} StartsGrow(spans: seq<Span>, n: nat, size: int, o: int, i: nat, j: nat)
    requires IsChain(spans, n, size, o) && o < size && i <= j < |spans|
    ensures spans[i].start + (j - i) <= spans[j].start
    decreases j - i
  {
    if i < j {
      StartsGrow(spans, n, size, o, i, j - 1);
      assert Follows(spans, j, n, o);
      assert FullOrLast(spans[j - 1], n, size);
    }
  }

  /** A position before the end of chunk `k` lies in a chunk up to `k`, if chunks leave no gap. */
  lemma {:induction false} FindSpan(spans: seq<Span>, n: nat, size: int, o: int, k: nat, p: int)
    requires IsChain(spans, n, size, o) && o >= 0 && k < |spans| && 0 <= p < spans[k].end
    ensures Covered(spans, p)
    decreases k
  {
    if spans[k].start <= p {
      assert Within(p, spans[k]);
    } else {
      assert Follows(spans, k, n, o);
      FindSpan(spans, n, size, o, k - 1, p);
    }
  }

  /** A gap between chunks shows right after the first one. */
  lemma GapAfterFirst(spans: seq<Span>, n: nat, size: int, o: int)
    requires IsChain(spans, n, size, o) && o < 0 && 1 <= size < n
    ensures !Covered(spans, size)
  {
    forall i | 0 <= i < |spans| ensures !Within(size, spans[i]) {
      assert FullOrLast(spans[0], n, size);
      if i > 0 {
        assert Follows(spans, 1, n, o);
        StartsGrow(spans, n, size, o, 1, i);
      }
    }
  }

  /** Every character is in some chunk exactly when chunks overlap or touch, or one chunk holds the whole text. */
  lemma CoversIff(spans: seq<Span>, n: nat, size: int, o: int)
    requires IsChunking(spans, n, size, o) && size >= 1
    ensures Covers(spans, n) <==> o >= 0 || n <= size
  {
    if n > 0 {
      assert FullOrLast(spans[|spans| - 1], n, size) && FullOrLast(spans[0], n, size);
      if o >= 0 {
        forall p | 0 <= p < n ensures Covered(spans, p) {
          FindSpan(spans, n, size, o, |spans| - 1, p);
        }
      } else if n > size {
        GapAfterFirst(spans, n, size, o);
        assert !Covers(spans, n);
      } else {
        forall p | 0 <= p < n ensures Covered(spans, p) {
          assert Within(p, spans[0]);
        }
      }
    }
  }

  // ---------------------------------------------------------------- snippets

  function ExpandSnippet(n: nat, coreStart: int, coreEnd: int, margin: int, limit: int): Span {
    var s, e := Max(0, coreStart - margin), Min(n, coreEnd + margin);
    if e - s <= limit then Span(s, e)
    else
      var s2 := Max(0, (coreStart + coreEnd) / 2 - limit / 2);
      var e2 := Min(n, s2 + limit);
      Span(if e2 - s2 < limit then Max(0, e2 - limit) else s2, e2)
  }

  /**
   * A snippet stays inside the text and within the limit, and holds the middle of its core. It is the core
   * with its margins if that fits, and otherwise as long as the limit allows.
   */
  lemma SnippetShape(n: nat, coreStart: int, coreEnd: int, margin: int, limit: int)
    requires 0 <= coreStart < coreEnd <= n && margin >= 0 && limit >= 1
    ensures var r := ExpandSnippet(n, coreStart, coreEnd, margin, limit);
      var wanted := Min(n, coreEnd + margin) - Max(0, coreStart - margin);
      && 0 <= r.start <= (coreStart + coreEnd) / 2 < r.end <= n
      && r.end - r.start == Min(wanted, limit)
      && (wanted <= limit ==> r.start <= coreStart && coreEnd <= r.end)
  {
    var mid := (coreStart + coreEnd) / 2;
    assert coreStart <= mid < coreEnd;
  }

  // ---------------------------------------------------------------- pages

  ghost predicate Sorted(a: seq<int>) {
    forall i, j :: 0 <= i < j < |a| ==> a[i] <= a[j]
  }

  /** Position after the last start that is not beyond `pos`. */
  function BisectRight(starts: seq<int>, pos: int): (k: nat)
    ensures k <= |starts|
    ensures k < |starts| ==> starts[k] > pos
  {
    if starts == [] || starts[0] > pos then 0 else 1 + BisectRight(starts[1..], pos)
  }

  function PageForOffset(starts: seq<int>, pos: int): Option<nat> {
    if starts == [] then None else Some(if BisectRight(starts, pos) == 0 then 1 else BisectRight(starts, pos))
  }

  /** The page found is the last one that starts at or before the offset; before all starts it is the first. */
  lemma {:induction false} PageHoldsOffset(starts: seq<int>, pos: int)
    requires starts != [] && Sorted(starts)
    ensures PageForOffset(starts, pos).Some? && 1 <= PageForOffset(starts, pos).value <= |starts|
    ensures var page := PageForOffset(starts, pos).value;
      && (page < |starts| ==> pos < starts[page])
      && (starts[0] <= pos ==> starts[page - 1] <= pos)
      && (pos < starts[0] ==> page == 1)
  {
    if starts[0] <= pos && |starts| > 1 {
      PageHoldsOffset(starts[1..], pos);
    }
  }
}
