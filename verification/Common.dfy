/** Shared vocabulary: optional values, row ids and id-ordered listings. */
module Common {

  datatype Option<+T> = None | Some(value: T)

  datatype Result<+T, +E> = Ok(value: T) | Err(error: E)

  function Max(a: int, b: int): int {
    if a < b then b else a
  }

  function Min(a: int, b: int): int {
    if b < a then b else a
  }

  /** Primary keys come from a database sequence that starts at 1. */
  type Id = x: int | 0 < x witness 1

  ghost predicate Increasing(s: seq<Id>)
  {
    forall i, j :: 0 <= i < j < |s| ==> s[i] < s[j]
  }

  ghost predicate IsMin(s: set<Id>, m: Id) {
    m in s && forall y :: y in s ==> m <= y
  }

  lemma MinExists(s: set<Id>) returns (m: Id)
    requires s != {}
    ensures IsMin(s, m)
    decreases |s|
  {
    var x :| x in s;
    if s == {x} {
      m := x;
    } else {
      m := MinExists(s - {x});
      assert s == {x} + (s - {x});
      m := if x <= m then x else m;
    }
  }

  ghost function MinOf(s: set<Id>): (m: Id)
    requires s != {}
    ensures IsMin(s, m)
  {
    assert exists x :: IsMin(s, x) by { var m := MinExists(s); }
    var x :| IsMin(s, x);
    x
  }

  lemma ConsIncreasing(m: Id, rest: seq<Id>)
    requires Increasing(rest) && forall x :: x in rest ==> m < x
    ensures Increasing([m] + rest)
    ensures forall x :: x in [m] + rest <==> x == m || x in rest
  {
    var r := [m] + rest;
    forall i, j | 0 <= i < j < |r| ensures r[i] < r[j] {
      assert r[j] == rest[j - 1] && r[j] in rest;
      if i > 0 { assert r[i] == rest[i - 1]; }
    }
    assert r[0] == m && forall i :: 0 <= i < |rest| ==> r[i + 1] == rest[i];
  }

  /** The listing `ORDER BY id ASC` of a set of rows. */
  ghost function SortedIds(s: set<Id>): (r: seq<Id>)
    ensures Increasing(r)
    ensures forall x :: x in r <==> x in s
    ensures |r| == |s|
    decreases |s|
  {
    if s == {} then [] else
      var m := MinOf(s);
      var rest := SortedIds(s - {m});
      ConsIncreasing(m, rest);
      assert s == {m} + (s - {m});
      [m] + rest
  }

  lemma HeadIsLeast(a: seq<Id>, x: Id)
    requires Increasing(a) && x in a
    ensures a[0] <= x && (x in a[1..] <==> x != a[0])
  {
    var i :| 0 <= i < |a| && a[i] == x;
    assert a[0] <= a[i];
    if i > 0 { assert a[1..][i - 1] == x; }
  }

  lemma {:induction false} SortedListingUnique(a: seq<Id>, b: seq<Id>)
    requires Increasing(a) && Increasing(b)
    requires |a| == |b| && forall x :: x in a <==> x in b
    ensures a == b
    decreases |a|
  {
    if a != [] {
      assert a[0] in a && b[0] in b;
      HeadIsLeast(a, b[0]);
      HeadIsLeast(b, a[0]);
      var a', b' := a[1..], b[1..];
      forall x ensures x in a' <==> x in b' {
        if x in a { HeadIsLeast(a, x); HeadIsLeast(b, x); }
      }
      SortedListingUnique(a', b');
    }
  }

  lemma SortedIdsStep(s: set<Id>)
    requires s != {}
    ensures SortedIds(s) == [MinOf(s)] + SortedIds(s - {MinOf(s)})
  {
  }

  lemma MoveHead<T>(a: seq<T>, b: seq<T>)
    requires b != []
    ensures (a + [b[0]]) + b[1..] == a + b
  {
  }

  lemma ConcatAssoc<T>(a: seq<T>, b: seq<T>, c: seq<T>)
    ensures (a + b) + c == a + (b + c)
  {
  }

  lemma TakeOneMore<T>(s: seq<T>, i: nat)
    requires i < |s|
    ensures s[..i + 1] == s[..i] + [s[i]] && s[..i + 1][..i] == s[..i]
  {
  }

  lemma TakeDrop<T>(s: seq<T>, i: nat)
    requires i <= |s|
    ensures s[..i] + s[i..] == s
  {
  }

  /** What comes after `head + s[..i]` is the first part of the next slice of `s`. */
  lemma TakeFurther<T>(head: seq<T>, s: seq<T>, i: nat, j: nat, k: nat)
    requires i <= j <= |s| && k <= j - i
    ensures head + s[..i] + s[i..j][..k] == head + s[..i + k]
  {
    assert s[..i] + s[i..j][..k] == s[..i + k];
  }

  ghost function Elems(s: seq<Id>): set<Id> {
    set x | x in s
  }

  lemma ElemsHead(s: seq<Id>)
    requires s != []
    ensures Elems(s) == {s[0]} + Elems(s[1..])
  {
    forall x | x in Elems(s) ensures x in {s[0]} + Elems(s[1..]) {
      var i :| 0 <= i < |s| && s[i] == x;
      if i > 0 { assert s[1..][i - 1] == x; }
    }
  }

  lemma UnionAssoc(a: set<Id>, b: set<Id>, c: set<Id>)
    ensures (a + b) + c == a + (b + c)
    ensures a + Elems([]) == a
  {
  }
}
