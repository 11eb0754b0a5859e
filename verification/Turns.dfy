/** Messages, their grouping into turns, and the turn keys that identify turns by user-row id. */
module Turns {
  import opened Common

  datatype ToolCall = ToolCall(id: string, name: string)

  datatype Message =
    | System(text: string)
    | Human(text: string)
    | Ai(text: string, calls: seq<ToolCall>)
    | Tool(text: string, callId: string, name: string)

  type Pair = (Id, Message)

  // ---------------------------------------------------------------- specification

  function SystemRun(msgs: seq<Message>): (n: nat)
    ensures n <= |msgs|
    ensures forall i :: 0 <= i < n ==> msgs[i].System?
    ensures n < |msgs| ==> !msgs[n].System?
  {
    if msgs != [] && msgs[0].System? then 1 + SystemRun(msgs[1..]) else 0
  }

  /** Length of the run of messages before the first user message. */
  function ReplyRun(body: seq<Message>): (n: nat)
    ensures n <= |body|
  {
    if body != [] && !body[0].Human? then 1 + ReplyRun(body[1..]) else 0
  }

  /** A turn is a user message and everything up to the next one; what precedes the first is dropped. */
  function TurnsOf(body: seq<Message>): seq<seq<Message>>
    decreases |body|
  {
    if body == [] then []
    else if body[0].Human? then
      var n := 1 + ReplyRun(body[1..]);
      [body[..n]] + TurnsOf(body[n..])
    else TurnsOf(body[1..])
  }

  function Flatten(turns: seq<seq<Message>>): seq<Message> {
    if turns == [] then [] else turns[0] + Flatten(turns[1..])
  }

  ghost predicate IsTurn(t: seq<Message>) {
    t != [] && t[0].Human? && forall i :: 0 < i < |t| ==> !t[i].Human?
  }

  /** One pass over (row id, message) pairs that opens a turn at each user message. */
  function PairTurns(pairs: seq<Pair>): seq<seq<Pair>> {
    if pairs == [] then []
    else
      WithPair(PairTurns(pairs[..|pairs| - 1]), pairs[|pairs| - 1])
  }

  function WithPair(turns: seq<seq<Pair>>, last: Pair): seq<seq<Pair>> {
    if last.1.Human? then turns + [[last]]
    else if turns == [] then []
    else turns[..|turns| - 1] + [turns[|turns| - 1] + [last]]
  }

  function Messages(pairs: seq<Pair>): (r: seq<Message>)
    ensures |r| == |pairs|
  {
    seq(|pairs|, i requires 0 <= i < |pairs| => pairs[i].1)
  }

  function Zip(ids: seq<Id>, msgs: seq<Message>): (r: seq<Pair>)
    requires |ids| == |msgs|
    ensures |r| == |ids| && Messages(r) == msgs
  {
    seq(|ids|, i requires 0 <= i < |ids| => (ids[i], msgs[i]))
  }

  /** Ids of the user messages, in order. */
  function UserIds(pairs: seq<Pair>): seq<Id> {
    if pairs == [] then []
    else UserIds(pairs[..|pairs| - 1]) + if pairs[|pairs| - 1].1.Human? then [pairs[|pairs| - 1].0] else []
  }

  function TurnKeys(msgs: seq<Message>, ids: seq<Id>): seq<Id> {
    if |ids| != |msgs| then [] else UserIds(Zip(ids, msgs))
  }

  // ---------------------------------------------------------------- the loops

  method SplitSystemPrefix(msgs: seq<Message>) returns (prefix: seq<Message>, body: seq<Message>)
    ensures prefix == msgs[..SystemRun(msgs)] && body == msgs[SystemRun(msgs)..]
  {
    var i := 0;
    while i < |msgs| && msgs[i].System?
      invariant i <= |msgs| && SystemRun(msgs) == i + SystemRun(msgs[i..])
    {
      i := i + 1;
    }
    return msgs[..i], msgs[i..];
  }

  method GroupTurns(body: seq<Message>) returns (turns: seq<seq<Message>>)
    ensures turns == TurnsOf(body)
  {
    turns := [];
    var i := 0;
    while i < |body|
      invariant i <= |body| && turns + TurnsOf(body[i..]) == TurnsOf(body)
    {
      ghost var start := i;
      if body[i].Human? {
        var turn := [body[i]];
        i := i + 1;
        while i < |body| && !body[i].Human?
          invariant start < i <= |body| && turn == body[start..i]
          invariant forall k :: start < k < i ==> !body[k].Human?
        {
          turn := turn + [body[i]];
          i := i + 1;
        }
        TurnAt(body, start, i);
        ConcatAssoc(turns, [turn], TurnsOf(body[i..]));
        turns := turns + [turn];
      } else {
        NotATurn(body, i);
        i := i + 1;
      }
    }
  }

  lemma NotATurn(body: seq<Message>, i: nat)
    requires i < |body| && !body[i].Human?
    ensures TurnsOf(body[i..]) == TurnsOf(body[i + 1..])
  {
    assert body[i..][1..] == body[i + 1..];
  }

  lemma {:induction false} ReplyRunSpec(body: seq<Message>)
    ensures forall i :: 0 <= i < ReplyRun(body) ==> !body[i].Human?
    ensures ReplyRun(body) < |body| ==> body[ReplyRun(body)].Human?
    decreases |body|
  {
    if body != [] && !body[0].Human? {
      var rest := body[1..];
      ReplyRunSpec(rest);
      forall i | 0 <= i < ReplyRun(body) ensures !body[i].Human? {
        if i > 0 { assert rest[i - 1] == body[i]; }
      }
    }
  }

  lemma ReplyRunIs(body: seq<Message>, n: nat)
    requires n <= |body| && (forall k :: 0 <= k < n ==> !body[k].Human?)
    requires n < |body| ==> body[n].Human?
    ensures ReplyRun(body) == n
  {
    ReplyRunSpec(body);
  }

  /** The first `n` messages are one turn. */
  ghost predicate OpensWithTurn(body: seq<Message>, n: nat) {
    && 0 < n <= |body| && body[0].Human?
    && (forall k :: 0 < k < n ==> !body[k].Human?)
    && (n < |body| ==> body[n].Human?)
  }

  lemma TurnEnd(body: seq<Message>)
    requires body != [] && body[0].Human?
    ensures OpensWithTurn(body, 1 + ReplyRun(body[1..]))
  {
    var rest := body[1..];
    ReplyRunSpec(rest);
    forall k | 0 < k < 1 + ReplyRun(rest) ensures !body[k].Human? { assert body[k] == rest[k - 1]; }
  }

  lemma FirstTurn(body: seq<Message>, n: nat)
    requires OpensWithTurn(body, n)
    ensures TurnsOf(body) == [body[..n]] + TurnsOf(body[n..])
  {
    ReplyRunIs(body[1..], n - 1);
  }

  lemma FirstTurnIs(body: seq<Message>, turn: seq<Message>, rest: seq<Message>)
    requires turn != [] && body == turn + rest && turn[0].Human? && (forall k :: 0 < k < |turn| ==> !turn[k].Human?)
    requires rest != [] ==> rest[0].Human?
    ensures TurnsOf(body) == [turn] + TurnsOf(rest)
  {
    var n := |turn|;
    assert body[..n] == turn && body[n..] == rest;
    FirstTurn(body, n);
  }

  lemma TurnAt(body: seq<Message>, start: nat, end: nat)
    requires start < end <= |body| && body[start].Human?
    requires forall k :: start < k < end ==> !body[k].Human?
    requires end < |body| ==> body[end].Human?
    ensures TurnsOf(body[start..]) == [body[start..end]] + TurnsOf(body[end..])
  {
    assert body[start..] == body[start..end] + body[end..];
    FirstTurnIs(body[start..], body[start..end], body[end..]);
  }

  method GroupTurnPairs(pairs: seq<Pair>) returns (turns: seq<seq<Pair>>)
    ensures turns == PairTurns(pairs)
  {
    turns := [];
    for i := 0 to |pairs|
      invariant turns == PairTurns(pairs[..i])
    {
      assert pairs[..i + 1][..i] == pairs[..i];
      assert [] + [pairs[i]] == [pairs[i]];
      if pairs[i].1.Human? {
        turns := turns + [[]];
      }
      if turns != [] {
        var open := turns[|turns| - 1] + [pairs[i]];
        turns := turns[..|turns| - 1] + [open];
      }
    }
    assert pairs[..|pairs|] == pairs;
  }

  /** Empty when there are no ids or they do not line up with the messages. */
  method TurnKeysOf(msgs: seq<Message>, ids: seq<Id>) returns (keys: seq<Id>)
    ensures keys == TurnKeys(msgs, ids)
  {
    if ids == [] || |ids| != |msgs| {
      assert |ids| == |msgs| ==> Zip(ids, msgs) == [];
      return [];
    }
    var prefix, body := SplitSystemPrefix(msgs);
    var pairs := Zip(ids[|prefix|..], body);
    keys := HeadKeys(pairs);
    KeysSkipPrefix(msgs, ids, |prefix|);
  }

  /** Row id of the first pair of every turn. */
  method HeadKeys(pairs: seq<Pair>) returns (keys: seq<Id>)
    ensures keys == UserIds(pairs)
  {
    var turns: seq<seq<Pair>> := GroupTurnPairs(pairs);
    ghost var ids := UserIds(pairs);
    PairTurnsShape(pairs);
    keys := [];
    for t := 0 to |turns|
      invariant keys == ids[..t]
    {
      TakeOneMore(ids, t);
      var head: Pair := turns[t][0];
      keys := keys + [head.0];
    }
    assert ids[..|turns|] == ids;
  }

  // ---------------------------------------------------------------- the two groupings agree

  /** Adding one message either opens a turn, extends the last one, or is dropped. */
  lemma {:induction false} TurnsOfSnoc(body: seq<Message>, m: Message)
    ensures TurnsOf(body + [m]) == WithMessage(TurnsOf(body), m)
    decreases |body|
  {
    if body == [] {
      SnocFirst(m);
      assert body + [m] == [m];
    } else if !body[0].Human? {
      assert (body + [m])[1..] == body[1..] + [m];
      TurnsOfSnoc(body[1..], m);
    } else {
      var n := 1 + ReplyRun(body[1..]);
      TurnEnd(body);
      if n < |body| || m.Human? {
        TurnsOfSnoc(body[n..], m);
        if n < |body| { TurnsOfNonEmpty(body[n..]); }
        SnocAfterTurn(body, m, n);
      } else {
        SnocIntoTurn(body, m);
      }
    }
  }

  lemma SnocFirst(m: Message)
    ensures TurnsOf([m]) == WithMessage([], m)
  {
    assert [m][1..] == [] && [m][..1] == [m];
    if m.Human? { FirstTurn([m], 1); }
  }

  /** The first turn is complete, so the message concerns what follows it. */
  lemma SnocAfterTurn(body: seq<Message>, m: Message, n: nat)
    requires OpensWithTurn(body, n) && (m.Human? || (n < |body| && TurnsOf(body[n..]) != []))
    requires TurnsOf(body[n..] + [m]) == WithMessage(TurnsOf(body[n..]), m)
    ensures TurnsOf(body + [m]) == WithMessage(TurnsOf(body), m)
  {
    FirstTurn(body, n);
    TurnKept(body, m, n);
    WithMessageCons(body[..n], TurnsOf(body[n..]), m);
  }

  lemma TurnKept(body: seq<Message>, m: Message, n: nat)
    requires OpensWithTurn(body, n) && (m.Human? || n < |body|)
    ensures TurnsOf(body + [m]) == [body[..n]] + TurnsOf(body[n..] + [m])
  {
    TakeDrop(body, n);
    ConcatAssoc(body[..n], body[n..], [m]);
    FirstTurnIs(body + [m], body[..n], body[n..] + [m]);
  }

  /** The only turn is still open and takes the message. */
  lemma SnocIntoTurn(body: seq<Message>, m: Message)
    requires OpensWithTurn(body, |body|) && !m.Human?
    ensures TurnsOf(body + [m]) == WithMessage(TurnsOf(body), m)
  {
    var whole, n := body + [m], |body|;
    FirstTurn(body, n);
    FirstTurn(whole, n + 1);
    assert whole[..n + 1] == whole && whole[n + 1..] == [] && body[n..] == [] && body[..n] == body;
    assert TurnsOf(whole) == [whole] && TurnsOf(body) == [body];
  }

  function WithMessage(turns: seq<seq<Message>>, m: Message): seq<seq<Message>> {
    if m.Human? then turns + [[m]]
    else if turns == [] then []
    else turns[..|turns| - 1] + [turns[|turns| - 1] + [m]]
  }

  lemma WithMessageCons(t: seq<Message>, rest: seq<seq<Message>>, m: Message)
    requires m.Human? || rest != []
    ensures WithMessage([t] + rest, m) == [t] + WithMessage(rest, m)
  {
  }

  lemma TurnsOfNonEmpty(body: seq<Message>)
    requires body != [] && body[0].Human?
    ensures TurnsOf(body) != []
  {
    TurnEnd(body);
    FirstTurn(body, 1 + ReplyRun(body[1..]));
  }

  lemma WithPairAgrees(a: seq<seq<Pair>>, b: seq<seq<Message>>, last: Pair)
    requires |a| == |b| && forall t :: 0 <= t < |a| ==> Messages(a[t]) == b[t]
    ensures |WithPair(a, last)| == |WithMessage(b, last.1)|
    ensures forall t :: 0 <= t < |WithPair(a, last)| ==> Messages(WithPair(a, last)[t]) == WithMessage(b, last.1)[t]
  {
    if last.1.Human? {
      assert Messages([last]) == [last.1];
    } else if a != [] {
      var end := a[|a| - 1];
      assert Messages(end + [last]) == Messages(end) + [last.1];
    }
  }

  /** The pair pass and the nested loop give the same turns, message for message. */
  lemma {:induction false} GroupingsAgree(pairs: seq<Pair>)
    ensures |PairTurns(pairs)| == |TurnsOf(Messages(pairs))|
    ensures forall t :: 0 <= t < |PairTurns(pairs)| ==> Messages(PairTurns(pairs)[t]) == TurnsOf(Messages(pairs))[t]
  {
    if pairs == [] {
      assert Messages(pairs) == [];
    } else {
      var init, last := pairs[..|pairs| - 1], pairs[|pairs| - 1];
      GroupingsAgree(init);
      assert Messages(pairs) == Messages(init) + [last.1];
      TurnsOfSnoc(Messages(init), last.1);
      WithPairAgrees(PairTurns(init), TurnsOf(Messages(init)), last);
      assert PairTurns(pairs) == WithPair(PairTurns(init), last);
    }
  }

  /** There is one turn per user message, and its first pair carries that message's row id. */
  lemma {:induction false} PairTurnsShape(pairs: seq<Pair>)
    ensures |PairTurns(pairs)| == |UserIds(pairs)|
    ensures forall t :: 0 <= t < |PairTurns(pairs)| ==>
      PairTurns(pairs)[t] != [] && PairTurns(pairs)[t][0].0 == UserIds(pairs)[t]
  {
    if pairs != [] {
      PairTurnsShape(pairs[..|pairs| - 1]);
    }
  }

  lemma KeysSkipPrefix(msgs: seq<Message>, ids: seq<Id>, n: nat)
    requires |ids| == |msgs| && n <= |msgs| && forall i :: 0 <= i < n ==> !msgs[i].Human?
    ensures UserIds(Zip(ids, msgs)) == UserIds(Zip(ids[n..], msgs[n..]))
  {
    var top := Zip(ids[..n], msgs[..n]);
    assert Zip(ids, msgs) == top + Zip(ids[n..], msgs[n..]);
    forall i | 0 <= i < n ensures !top[i].1.Human? {
      assert top[i] == (ids[i], msgs[i]);
    }
    NoUsersInPrefix(top, Zip(ids[n..], msgs[n..]));
  }

  lemma {:induction false} NoUsersInPrefix(prefix: seq<Pair>, pairs: seq<Pair>)
    requires forall i :: 0 <= i < |prefix| ==> !prefix[i].1.Human?
    ensures UserIds(prefix + pairs) == UserIds(pairs)
    decreases |pairs|, |prefix|
  {
    if pairs != [] {
      NoUsersInPrefix(prefix, pairs[..|pairs| - 1]);
      assert (prefix + pairs)[..|prefix + pairs| - 1] == prefix + pairs[..|pairs| - 1];
    } else if prefix != [] {
      assert prefix + pairs == prefix;
      NoUsersInPrefix(prefix[..|prefix| - 1], []);
      assert prefix[..|prefix| - 1] + [] == prefix[..|prefix| - 1];
    }
  }

  /** Nothing after the first user message is lost, doubled or reordered. */
  lemma {:induction false} TurnsPartition(body: seq<Message>)
    ensures Flatten(TurnsOf(body)) == body[ReplyRun(body)..]
    decreases |body|
  {
    if body != [] {
      if body[0].Human? {
        var n := 1 + ReplyRun(body[1..]);
        TurnEnd(body);
        FirstTurn(body, n);
        TurnsPartition(body[n..]);
        assert ReplyRun(body[n..]) == 0;
        FlattenCons(body[..n], TurnsOf(body[n..]));
        TakeDrop(body, n);
      } else {
        TurnsPartition(body[1..]);
        assert body[1..][ReplyRun(body[1..])..] == body[ReplyRun(body)..];
      }
    }
  }

  lemma FlattenCons(t: seq<Message>, rest: seq<seq<Message>>)
    ensures Flatten([t] + rest) == t + Flatten(rest)
  {
    assert ([t] + rest)[1..] == rest;
  }

  /** Every turn opens with a user message and holds no other one. */
  lemma {:induction false} TurnsWellFormed(body: seq<Message>)
    ensures forall t :: 0 <= t < |TurnsOf(body)| ==> IsTurn(TurnsOf(body)[t])
    decreases |body|
  {
    if body != [] {
      if body[0].Human? {
        var n := 1 + ReplyRun(body[1..]);
        TurnEnd(body);
        FirstTurn(body, n);
        TurnsWellFormed(body[n..]);
        assert IsTurn(body[..n]);
      } else {
        TurnsWellFormed(body[1..]);
      }
    }
  }
}
