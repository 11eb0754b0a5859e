/** One upload task: the gate that limits redeliveries and the progress that is published while it runs. */
module UploadTask {
  import opened Common

  datatype Status = Queued | Running | Completed | Failed | Timeout | Cancelled

  predicate IsTerminal(s: Status) {
    s in {Completed, Failed, Timeout, Cancelled}
  }

  datatype Meta = Meta(status: Status, deliveries: nat)

  function Limit(maxDeliveries: int): nat {
    if maxDeliveries < 1 then 1 else maxDeliveries
  }

  /** Record after a delivery, and whether the pipeline runs. */
  function Deliver(m: Option<Meta>, maxDeliveries: int): (Option<Meta>, bool) {
    if m.None? || IsTerminal(m.value.status) then (m, false)
    else if m.value.deliveries + 1 > Limit(maxDeliveries) then (Some(Meta(Failed, m.value.deliveries + 1)), false)
    else (Some(m.value.(deliveries := m.value.deliveries + 1)), true)
  }

  class Task {
    var meta: Option<Meta>
    var deadLetters: nat

    constructor (meta: Option<Meta>)
      ensures this.meta == meta && deadLetters == 0
    {
      this.meta, deadLetters := meta, 0;
    }

    method AcceptKafkaDelivery(maxDeliveries: int) returns (run: bool)
      modifies this
      ensures (meta, run) == Deliver(old(meta), maxDeliveries)
      ensures deadLetters == old(deadLetters) + if meta != old(meta) && !run then 1 else 0
    {
      if meta.None? || IsTerminal(meta.value.status) {
        return false;
      }
      var deliveries := meta.value.deliveries + 1;
      if deliveries > Limit(maxDeliveries) {
        meta := Some(Meta(Failed, deliveries));
        deadLetters := deadLetters + 1;
        return false;
      }
      meta := Some(meta.value.(deliveries := deliveries));
      return true;
    }
  }

  // ---------------------------------------------------------------- many deliveries of one task

  /** One delivery handled to its end, or to the crash of its worker: the pipeline never touches the count. */
  datatype Handled = Handled(before: Option<Meta>, run: bool, after: Option<Meta>)

  ghost predicate IsHandled(h: Handled, maxDeliveries: int) {
    var g := Deliver(h.before, maxDeliveries);
    && h.run == g.1
    && (!h.run ==> h.after == g.0)
    && (h.run ==> h.after.Some? && h.after.value.deliveries == g.0.value.deliveries)
  }

  ghost predicate SeesLastRecord(hs: seq<Handled>, i: nat)
    requires 0 < i < |hs|
  {
    hs[i].before == hs[i - 1].after
  }

  ghost predicate IsSerial(hs: seq<Handled>, maxDeliveries: int) {
    && (forall i :: 0 <= i < |hs| ==> IsHandled(hs[i], maxDeliveries))
    && (forall i {:trigger SeesLastRecord(hs, i)} :: 0 < i < |hs| ==> SeesLastRecord(hs, i))
  }

  lemma DropLastDelivery(hs: seq<Handled>, maxDeliveries: int)
    requires IsSerial(hs, maxDeliveries) && |hs| > 1
    ensures IsSerial(hs[..|hs| - 1], maxDeliveries) && hs[|hs| - 1].before == hs[|hs| - 2].after
  {
    var init := hs[..|hs| - 1];
    assert SeesLastRecord(hs, |hs| - 1);
    forall i | 0 < i < |init| ensures SeesLastRecord(init, i) {
      assert SeesLastRecord(hs, i);
    }
  }

  function Runs(hs: seq<Handled>): nat {
    if hs == [] then 0 else Runs(hs[..|hs| - 1]) + if hs[|hs| - 1].run then 1 else 0
  }

  function CountOf(m: Option<Meta>): nat {
    if m.Some? then m.value.deliveries else 0
  }

  lemma {:induction false} RunsAreCounted(hs: seq<Handled>, maxDeliveries: int)
    requires hs != [] && IsSerial(hs, maxDeliveries)
    ensures CountOf(hs[0].before) + Runs(hs) <= CountOf(hs[|hs| - 1].after)
    ensures Runs(hs) > 0 ==> CountOf(hs[0].before) + Runs(hs) <= Limit(maxDeliveries)
    ensures hs[|hs| - 1].run ==> CountOf(hs[|hs| - 1].after) <= Limit(maxDeliveries)
  {
    if |hs| > 1 {
      DropLastDelivery(hs, maxDeliveries);
      RunsAreCounted(hs[..|hs| - 1], maxDeliveries);
    }
  }

  /** However often a task is delivered, its pipeline runs at most as often as allowed. */
  lemma RunsBounded(hs: seq<Handled>, maxDeliveries: int)
    requires IsSerial(hs, maxDeliveries)
    ensures Runs(hs) <= Limit(maxDeliveries)
  {
    if hs != [] { RunsAreCounted(hs, maxDeliveries); }
  }

  ghost predicate IsClosed(m: Option<Meta>) {
    m.None? || IsTerminal(m.value.status)
  }

  /** Once a task has an outcome, no later delivery runs it or changes its record. */
  lemma {:induction false} ClosedForGood(hs: seq<Handled>, maxDeliveries: int, i: nat, j: nat)
    requires IsSerial(hs, maxDeliveries) && i <= j < |hs| && IsClosed(hs[i].before)
    ensures !hs[j].run && hs[j].after == hs[i].before
    decreases j
  {
    if i < j {
      ClosedForGood(hs, maxDeliveries, i, j - 1);
      assert SeesLastRecord(hs, j);
    }
  }

  /** A task whose runs all break off without an outcome is failed by the delivery after the last allowed one. */
  lemma {:induction false} ExhaustedTaskFails(hs: seq<Handled>, maxDeliveries: int)
    requires IsSerial(hs, maxDeliveries) && hs != [] && hs[0].before == Some(Meta(Queued, 0))
    requires forall i :: 0 <= i < |hs| && hs[i].run ==> !IsClosed(hs[i].after)
    ensures |hs| <= Limit(maxDeliveries) ==> hs[|hs| - 1].run && CountOf(hs[|hs| - 1].after) == |hs|
    ensures |hs| > Limit(maxDeliveries) ==> hs[|hs| - 1].after == Some(Meta(Failed, Limit(maxDeliveries) + 1))
  {
    if |hs| > 1 {
      var init := hs[..|hs| - 1];
      DropLastDelivery(hs, maxDeliveries);
      ExhaustedTaskFails(init, maxDeliveries);
      assert IsHandled(hs[|hs| - 1], maxDeliveries) && hs[|hs| - 1].before == init[|init| - 1].after;
      if |init| <= Limit(maxDeliveries) { assert init[|init| - 1].run && !IsClosed(init[|init| - 1].after); }
    }
  }

  // ---------------------------------------------------------------- progress

  function Band(stage: string): (b: (nat, nat))
    ensures b.0 <= b.1 <= 100
  {
    if stage == "queued" then (0, 0)
    else if stage == "parsing" then (0, 10)
    else if stage == "chunking" then (10, 12)
    else if stage == "embedding" then (12, 85)
    else if stage == "writing" then (85, 100)
    else if stage == "done" then (100, 100)
    else (0, 100)
  }

  /** Position in the band of the stage; more done than there is counts as all of it. */
  function PercentOf(stage: string, done: int, total: int): int {
    var b := Band(stage);
    if total > 0 && done >= 0 then b.0 + Scaled(b.1 - b.0, if done < total then done else total, total) else b.0
  }

  function Scaled(width: nat, part: nat, total: nat): nat
    requires total > 0
  {
    width * part / total
  }

  lemma MulMonotone(x: int, y: int, d: nat)
    ensures x <= y ==> x * d <= y * d
  {
  }

  lemma DivMonotone(a: nat, b: nat, d: nat)
    requires a <= b && d > 0
    ensures a / d <= b / d
  {
    MulMonotone(b / d + 1, a / d, d);
    assert a / d * d <= a && b < (b / d + 1) * d;
  }

  lemma DivBounded(a: nat, w: nat, d: nat)
    requires d > 0 && a <= w * d
    ensures a / d <= w
  {
    MulMonotone(w + 1, a / d, d);
    assert (w + 1) * d == w * d + d;
    assert a / d * d <= a;
  }

  lemma ScaleBounds(width: nat, x: nat, y: nat, total: nat)
    requires x <= y <= total && total > 0
    ensures 0 <= Scaled(width, x, total) <= Scaled(width, y, total) <= width
  {
    MulMonotone(x, y, width);
    MulMonotone(y, total, width);
    DivMonotone(width * x, width * y, total);
    DivBounded(width * y, width, total);
  }

  function Part(done: int, total: int): int {
    if done < 0 then 0 else if done < total then done else total
  }

  lemma PercentScaled(stage: string, done: int, total: nat)
    requires total > 0
    ensures PercentOf(stage, done, total) == Band(stage).0 + Scaled(Band(stage).1 - Band(stage).0, Part(done, total), total)
  {
    if done < 0 { ScaleBounds(0, 0, 0, total); }
  }

  /** Percents stay in the band of their stage and grow with the work done. */
  lemma PercentInBand(stage: string, done: int, more: int, total: int)
    requires done <= more
    ensures Band(stage).0 <= PercentOf(stage, done, total) <= PercentOf(stage, more, total) <= Band(stage).1
  {
    if total > 0 {
      PercentScaled(stage, done, total);
      PercentScaled(stage, more, total);
      ScaleBounds(Band(stage).1 - Band(stage).0, Part(done, total), Part(more, total), total);
    }
  }

  /** The callback of one pipeline run. `published` is what a client polling the record can have seen. */
  class Progress {
    const minInterval: int
    const minStep: nat
    var lastPercent: int
    var lastStage: string
    var lastAt: int
    ghost var published: seq<int>

    ghost predicate Valid()
      reads this
    {
      && 0 <= lastPercent <= 100
      && published != [] && published[|published| - 1] == lastPercent
      && (forall i :: 0 <= i < |published| ==> 0 <= published[i] <= 100)
      && (forall i, j :: 0 <= i < j < |published| ==> published[i] <= published[j])
    }

    /** The run starts by publishing 0. */
    constructor (minInterval: int, minStep: nat)
      ensures Valid() && published == [0]
    {
      this.minInterval, this.minStep := minInterval, minStep;
      lastPercent, lastStage, lastAt := 0, "", 0;
      published := [0];
    }

    /** Never goes back; small steps within a stage are skipped, a new stage or 100 never is. */
    method Report(stage: string, done: int, total: int, now: int) returns (written: bool)
      requires Valid()
      modifies this
      ensures Valid()
      ensures var p := if PercentOf(stage, done, total) < old(lastPercent) then old(lastPercent) else PercentOf(stage, done, total);
        && (written <==> stage != old(lastStage) || p == 100 || now - old(lastAt) >= minInterval || p >= old(lastPercent) + minStep)
        && published == (if written then old(published) + [p] else old(published))
    {
      PercentInBand(stage, done, done, total);
      var percent := PercentOf(stage, done, total);
      if percent < lastPercent {
        percent := lastPercent;
      }
      if stage == lastStage && percent < 100 && now - lastAt < minInterval && percent < lastPercent + minStep {
        return false;
      }
      lastPercent, lastStage, lastAt := percent, stage, now;
      published := published + [percent];
      return true;
    }

    method Complete()
      requires Valid()
      modifies this
      ensures Valid() && published == old(published) + [100]
    {
      lastPercent := 100;
      published := published + [100];
    }
  }
}
