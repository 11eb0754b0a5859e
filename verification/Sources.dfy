/** Collecting the sources that tools running in parallel report for one answer. */
module Sources {
  import opened Common
  import opened Text

  /** A reported source; a missing field is empty, `raw` is its serialised form. */
  datatype Item = Item(imageUrl: string, url: string, title: string, raw: string)

  datatype Identity = ByImage(v: string) | ByUrl(v: string) | ByTitle(v: string) | ByContent(v: string)

  function IdentityOf(item: Item): Identity {
    if Strip(item.imageUrl) != "" then ByImage(Strip(item.imageUrl))
    else if Strip(item.url) != "" then ByUrl(Strip(item.url))
    else if Strip(item.title) != "" then ByTitle(Strip(item.title))
    else ByContent(item.raw)
  }

  function Identities(items: seq<Item>): (r: seq<Identity>)
    ensures |r| == |items| && forall i :: 0 <= i < |r| ==> r[i] == IdentityOf(items[i])
  {
    seq(|items|, i requires 0 <= i < |items| => IdentityOf(items[i]))
  }

  function Ids(items: seq<Item>): set<Identity> {
    set id | id in Identities(items)
  }

  /** Items of `incoming` whose identity is new, the first of each. */
  function NewOnes(seen: set<Identity>, incoming: seq<Item>): seq<Item>
    decreases |incoming|
  {
    if incoming == [] then []
    else if IdentityOf(incoming[0]) in seen then NewOnes(seen, incoming[1..])
    else [incoming[0]] + NewOnes(seen + {IdentityOf(incoming[0])}, incoming[1..])
  }

  ghost function Merged(existing: seq<Item>, incoming: seq<Item>): seq<Item> {
    existing + NewOnes(Ids(existing), incoming)
  }

  method MergeSourceList(existing: seq<Item>, incoming: seq<Item>) returns (kept: seq<Item>)
    ensures kept == Merged(existing, incoming)
  {
    kept := existing;
    var seen := Ids(kept);
    for i := 0 to |incoming|
      invariant kept + NewOnes(seen, incoming[i..]) == Merged(existing, incoming)
    {
      var sig := IdentityOf(incoming[i]);
      assert incoming[i..][0] == incoming[i] && incoming[i..][1..] == incoming[i + 1..];
      if sig in seen {
        continue;
      }
      ConcatAssoc(kept, [incoming[i]], NewOnes(seen + {sig}, incoming[i + 1..]));
      seen := seen + {sig};
      kept := kept + [incoming[i]];
    }
  }

  // ---------------------------------------------------------------- what a merge adds

  lemma IdentitiesSum(a: seq<Item>, b: seq<Item>)
    ensures Identities(a + b) == Identities(a) + Identities(b)
  {
  }

  lemma IdsSum(a: seq<Item>, b: seq<Item>)
    ensures Ids(a + b) == Ids(a) + Ids(b)
  {
    IdentitiesSum(a, b);
  }

  lemma IdsCons(x: Item, rest: seq<Item>)
    ensures Ids([x] + rest) == {IdentityOf(x)} + Ids(rest)
  {
    IdentitiesSum([x], rest);
    assert Identities([x]) == [IdentityOf(x)];
  }

  ghost predicate NoRepeats(ids: seq<Identity>) {
    forall i, j :: 0 <= i < j < |ids| ==> ids[i] != ids[j]
  }

  ghost predicate Distinct(items: seq<Item>) {
    NoRepeats(Identities(items))
  }

  lemma NoRepeatsParts(a: seq<Identity>, b: seq<Identity>)
    requires NoRepeats(a + b)
    ensures NoRepeats(a) && NoRepeats(b) && forall id :: id in a ==> id !in b
  {
    var all := a + b;
    forall i, j | 0 <= i < j < |a| ensures a[i] != a[j] { assert all[i] == a[i] && all[j] == a[j]; }
    forall i, j | 0 <= i < j < |b| ensures b[i] != b[j] { assert all[|a| + i] == b[i] && all[|a| + j] == b[j]; }
    forall i, j | 0 <= i < |a| && 0 <= j < |b| ensures a[i] != b[j] { assert all[i] == a[i] && all[|a| + j] == b[j]; }
  }

  lemma NoRepeatsJoin(a: seq<Identity>, b: seq<Identity>)
    requires NoRepeats(a) && NoRepeats(b) && forall id :: id in a ==> id !in b
    ensures NoRepeats(a + b)
  {
    var all := a + b;
    forall i, j | 0 <= i < j < |all| ensures all[i] != all[j] {
      if i < |a| <= j { assert all[i] in a && all[j] == b[j - |a|] && all[j] in b; }
    }
  }

  ghost predicate Apart(a: seq<Item>, b: seq<Item>) {
    forall id :: id in Identities(a) ==> id !in Identities(b)
  }

  lemma DistinctSum(a: seq<Item>, b: seq<Item>)
    ensures Distinct(a + b) <==> Distinct(a) && Distinct(b) && Apart(a, b)
  {
    IdentitiesSum(a, b);
    if Distinct(a + b) {
      NoRepeatsParts(Identities(a), Identities(b));
    }
    if Distinct(a) && Distinct(b) && Apart(a, b) {
      NoRepeatsJoin(Identities(a), Identities(b));
    }
  }

  lemma DistinctHead(x: Item, rest: seq<Item>)
    ensures Distinct([x] + rest) <==> Distinct(rest) && IdentityOf(x) !in Ids(rest)
  {
    DistinctSum([x], rest);
    assert Identities([x]) == [IdentityOf(x)];
  }

  lemma {:induction false} NewOnesSpec(seen: set<Identity>, incoming: seq<Item>)
    ensures Ids(NewOnes(seen, incoming)) == Ids(incoming) - seen
    ensures Distinct(NewOnes(seen, incoming))
    decreases |incoming|
  {
    if incoming != [] {
      var id := IdentityOf(incoming[0]);
      assert incoming == [incoming[0]] + incoming[1..];
      IdsCons(incoming[0], incoming[1..]);
      if id in seen {
        NewOnesSpec(seen, incoming[1..]);
      } else {
        var rest := NewOnes(seen + {id}, incoming[1..]);
        NewOnesSpec(seen + {id}, incoming[1..]);
        IdsCons(incoming[0], rest);
        DistinctHead(incoming[0], rest);
      }
    }
  }

  /** Existing sources keep their places, every new identity is added exactly once, and none is lost. */
  lemma MergeAddsOnce(existing: seq<Item>, incoming: seq<Item>)
    ensures existing <= Merged(existing, incoming)
    ensures Ids(Merged(existing, incoming)) == Ids(existing) + Ids(incoming)
    ensures Distinct(existing) ==> Distinct(Merged(existing, incoming))
    ensures Distinct(Merged(existing, incoming)[|existing|..])
  {
    var added := NewOnes(Ids(existing), incoming);
    NewOnesSpec(Ids(existing), incoming);
    IdsSum(existing, added);
    assert Merged(existing, incoming)[|existing|..] == added;
    DistinctSum(existing, added);
    forall id | id in Identities(existing) ensures id !in Identities(added) {
      assert id in Ids(existing) && id !in Ids(added);
    }
  }

  // ---------------------------------------------------------------- algebra

  lemma {:induction false} NothingNew(seen: set<Identity>, incoming: seq<Item>)
    requires Ids(incoming) <= seen
    ensures NewOnes(seen, incoming) == []
    decreases |incoming|
  {
    if incoming != [] {
      assert incoming == [incoming[0]] + incoming[1..];
      IdsCons(incoming[0], incoming[1..]);
      NothingNew(seen, incoming[1..]);
    }
  }

  lemma {:induction false} NewOnesOfSum(seen: set<Identity>, a: seq<Item>, b: seq<Item>)
    ensures NewOnes(seen, a + b) == NewOnes(seen, a) + NewOnes(seen + Ids(a), b)
    decreases |a|
  {
    if a == [] {
      assert a + b == b && seen + Ids(a) == seen;
    } else {
      var id, rest := IdentityOf(a[0]), a[1..];
      assert (a + b)[1..] == rest + b && a == [a[0]] + rest;
      IdsCons(a[0], rest);
      if id in seen {
        NewOnesOfSum(seen, rest, b);
        assert seen + Ids(a) == seen + Ids(rest);
      } else {
        NewOnesOfSum(seen + {id}, rest, b);
        assert seen + Ids(a) == seen + {id} + Ids(rest);
        ConcatAssoc([a[0]], NewOnes(seen + {id}, rest), NewOnes(seen + Ids(a), b));
      }
    }
  }

  /** Filtering what has been filtered with fewer identities gives the same. */
  lemma {:induction false} NewOnesTwice(seen: set<Identity>, less: set<Identity>, items: seq<Item>)
    requires less <= seen
    ensures NewOnes(seen, NewOnes(less, items)) == NewOnes(seen, items)
    decreases |items|
  {
    if items != [] {
      var x, rest := items[0], items[1..];
      var id := IdentityOf(x);
      if id in less {
        NewOnesTwice(seen, less, rest);
      } else {
        var inner := NewOnes(less + {id}, rest);
        assert ([x] + inner)[1..] == inner;
        if id in seen {
          NewOnesTwice(seen, less + {id}, rest);
        } else {
          NewOnesTwice(seen + {id}, less + {id}, rest);
        }
      }
    }
  }

  lemma MergeAssociative(a: seq<Item>, b: seq<Item>, c: seq<Item>)
    ensures Merged(Merged(a, b), c) == Merged(a, Merged(b, c))
  {
    var ia, ib := Ids(a), Ids(b);
    MergeAddsOnce(a, b);
    NewOnesOfSum(ia, b, NewOnes(ib, c));
    NewOnesTwice(ia + ib, ib, c);
    ConcatAssoc(a, NewOnes(ia, b), NewOnes(ia + ib, c));
  }

  /** Merging nothing changes nothing; merging into nothing changes nothing iff there were no repeats. */
  lemma EmptyListIdentity(a: seq<Item>)
    ensures Merged(a, []) == a
    ensures Merged([], a) == a <==> Distinct(a)
  {
    NewOnesSpec({}, a);
    assert Ids([]) == {};
    if Distinct(a) { DistinctIsKept({}, a); }
  }

  lemma {:induction false} DistinctIsKept(seen: set<Identity>, a: seq<Item>)
    requires Distinct(a) && Ids(a) !! seen
    ensures NewOnes(seen, a) == a
    decreases |a|
  {
    if a != [] {
      assert a == [a[0]] + a[1..];
      IdsCons(a[0], a[1..]);
      DistinctHead(a[0], a[1..]);
      DistinctIsKept(seen + {IdentityOf(a[0])}, a[1..]);
    }
  }

  // ---------------------------------------------------------------- parallel tools

  ghost function MergedAll(lists: seq<seq<Item>>): seq<Item> {
    if lists == [] then [] else Merged(MergedAll(lists[..|lists| - 1]), lists[|lists| - 1])
  }

  ghost predicate Reports(items: seq<Item>, id: Identity) {
    id in Ids(items)
  }

  ghost predicate InSome(lists: seq<seq<Item>>, id: Identity) {
    exists k :: 0 <= k < |lists| && Reports(lists[k], id)
  }

  lemma InSomeLast(lists: seq<seq<Item>>, last: seq<Item>, id: Identity)
    ensures InSome(lists + [last], id) <==> InSome(lists, id) || Reports(last, id)
  {
    var all := lists + [last];
    assert all[|lists|] == last;
    forall k | 0 <= k < |lists| ensures all[k] == lists[k] {}
  }

  lemma MergedAllStep(lists: seq<seq<Item>>, last: seq<Item>, id: Identity)
    ensures id in Ids(MergedAll(lists + [last])) <==> id in Ids(MergedAll(lists)) || Reports(last, id)
  {
    assert (lists + [last])[..|lists|] == lists;
    MergeAddsOnce(MergedAll(lists), last);
  }

  lemma {:induction false} MergedAllIds(lists: seq<seq<Item>>, id: Identity)
    ensures id in Ids(MergedAll(lists)) <==> InSome(lists, id)
    decreases |lists|
  {
    if lists != [] {
      var init, last := lists[..|lists| - 1], lists[|lists| - 1];
      assert lists == init + [last];
      MergedAllIds(init, id);
      MergedAllStep(init, last, id);
      InSomeLast(init, last, id);
    }
  }

  lemma {:induction false} MergedAllDistinct(lists: seq<seq<Item>>)
    ensures Distinct(MergedAll(lists))
  {
    if lists != [] {
      MergedAllDistinct(lists[..|lists| - 1]);
      MergeAddsOnce(MergedAll(lists[..|lists| - 1]), lists[|lists| - 1]);
    }
  }

  /** Whatever order the lock lets the tools in, the answer ends with the same set of sources, each once. */
  lemma OrderDoesNotMatter(lists: seq<seq<Item>>, other: seq<seq<Item>>)
    requires multiset(lists) == multiset(other)
    ensures Ids(MergedAll(lists)) == Ids(MergedAll(other))
    ensures Distinct(MergedAll(lists)) && |MergedAll(lists)| == |MergedAll(other)|
  {
    forall id ensures id in Ids(MergedAll(lists)) <==> id in Ids(MergedAll(other)) {
      MergedAllIds(lists, id);
      MergedAllIds(other, id);
      if InSome(lists, id) { InSomeOf(lists, other, id); }
      if InSome(other, id) { InSomeOf(other, lists, id); }
    }
    MergedAllDistinct(lists);
    MergedAllDistinct(other);
    DistinctCount(MergedAll(lists));
    DistinctCount(MergedAll(other));
  }

  lemma InSomeOf(lists: seq<seq<Item>>, other: seq<seq<Item>>, id: Identity)
    requires multiset(lists) == multiset(other) && InSome(lists, id)
    ensures InSome(other, id)
  {
    var k :| 0 <= k < |lists| && Reports(lists[k], id);
    assert lists[k] in multiset(other);
    var j :| 0 <= j < |other| && other[j] == lists[k];
  }

  lemma {:induction false} DistinctCount(items: seq<Item>)
    requires Distinct(items)
    ensures |Ids(items)| == |items|
  {
    if items == [] {
      assert Ids(items) == {};
    } else {
      assert items == [items[0]] + items[1..];
      DistinctHead(items[0], items[1..]);
      IdsCons(items[0], items[1..]);
      DistinctCount(items[1..]);
    }
  }
}
