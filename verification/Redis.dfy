/** The atomic Redis primitives that the job and queue protocols are built from. */
module Redis {
  import opened Common

  /** SET NX: writes only if the key is absent. */
  function SetNx(refs: map<string, string>, key: string, job: string): (map<string, string>, bool) {
    if key in refs then (refs, false) else (refs[key := job], true)
  }

  /** Compare-and-delete: removes the key only if it still names `job`. */
  function DeleteIfMatches(refs: map<string, string>, key: string, job: string): map<string, string> {
    if key in refs && refs[key] == job then refs - {key} else refs
  }

  function CounterOf(counters: map<string, int>, key: string): int {
    if key in counters then counters[key] else 0
  }

  /** 0 if the limit is reached, else the new value; a limit of 0 or less means none. */
  function IncrIfBelow(counter: int, maxDepth: int): (int, int) {
    if maxDepth > 0 && counter >= maxDepth then (counter, 0) else (counter + 1, counter + 1)
  }

  function DecrFloor(counter: int): int {
    if counter <= 0 then 0 else counter - 1
  }

  function ListOf<T>(lists: map<string, seq<T>>, key: string): seq<T> {
    if key in lists then lists[key] else []
  }

  /** Elements `start` to `stop`, both included, of a list; fewer if the list is shorter. */
  function Range<T>(list: seq<T>, start: nat, stop: nat): (r: seq<T>)
    ensures r == [] <==> start >= |list| || stop < start
    ensures r != [] ==> start + |r| <= |list| && r == list[start..start + |r|]
    ensures r != [] ==> start + |r| == if stop < |list| then stop + 1 else |list|
  {
    if start >= |list| || stop < start then []
    else if stop + 1 < |list| then list[start..stop + 1] else list[start..]
  }

  /** One server; each method is one command or one script, so it runs without interruption. */
  class Server {
    var refs: map<string, string>
    var counters: map<string, int>
    var lists: map<string, seq<string>>

    constructor ()
      ensures refs == map[] && counters == map[] && lists == map[]
    {
      refs, counters, lists := map[], map[], map[];
    }

    method SetIfAbsent(key: string, job: string) returns (ok: bool)
      modifies this`refs
      ensures (refs, ok) == SetNx(old(refs), key, job)
      ensures ok <==> key !in old(refs)
      ensures key in refs && (ok ==> refs[key] == job)
      ensures forall k :: k in old(refs) ==> k in refs && refs[k] == old(refs)[k]
    {
      if key in refs {
        return false;
      }
      refs := refs[key := job];
      return true;
    }

    method DeleteIfJobMatches(key: string, job: string) returns (ok: bool)
      modifies this`refs
      ensures refs == DeleteIfMatches(old(refs), key, job)
      ensures ok <==> key in old(refs) && old(refs)[key] == job
      ensures !(key in refs && refs[key] == job)
      ensures forall k :: k in old(refs) && old(refs)[k] != job ==> k in refs && refs[k] == old(refs)[k]
    {
      if key !in refs {
        return false;
      }
      if refs[key] == job {
        refs := refs - {key};
        return true;
      }
      return false;
    }

    method IncrementIfBelow(key: string, maxDepth: int) returns (n: int)
      modifies this`counters
      ensures (CounterOf(counters, key), n) == IncrIfBelow(CounterOf(old(counters), key), maxDepth)
      ensures forall k :: k != key ==> CounterOf(counters, k) == CounterOf(old(counters), k)
    {
      var cur := CounterOf(counters, key);
      if maxDepth > 0 && cur >= maxDepth {
        return 0;
      }
      n := cur + 1;
      counters := counters[key := n];
    }

    method DecrementFloor(key: string) returns (n: int)
      modifies this`counters
      ensures CounterOf(counters, key) == n == DecrFloor(CounterOf(old(counters), key))
      ensures forall k :: k != key ==> CounterOf(counters, k) == CounterOf(old(counters), k)
    {
      var cur := CounterOf(counters, key);
      n := if cur <= 0 then 0 else cur - 1;
      counters := counters[key := n];
    }

    method AppendEvent(key: string, payload: string)
      modifies this`lists
      ensures ListOf(lists, key) == ListOf(old(lists), key) + [payload]
      ensures forall k :: k != key ==> ListOf(lists, k) == ListOf(old(lists), k)
    {
      lists := lists[key := ListOf(lists, key) + [payload]];
    }
  }
}
