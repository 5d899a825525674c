// The bookkeeping of MultiGPUModelCheckpoint: how the mode picks a
// direction, the period counter, and the best value seen so far. Saving the
// model is recorded as an event.

module Checkpoint {
  import opened Strings

  /** A monitored value: a finite value, or one of the infinities `best` starts at. */
  datatype Bound = NegInf | Value(v: real) | PosInf

  /** `np.less(a, b)` on the extended order. */
  predicate Less(a: Bound, b: Bound)
  {
    match a
    case NegInf => !b.NegInf?
    case Value(x) => b.PosInf? || (b.Value? && x < b.v)
    case PosInf => false
  }

  /** Less is a strict total order. */
  lemma {:induction false} LessTotal(a: Bound, b: Bound, c: Bound)
    ensures !Less(a, a)
    ensures Less(a, b) ==> !Less(b, a)
    ensures Less(a, b) || a == b || Less(b, a)
    ensures Less(a, b) && Less(b, c) ==> Less(a, c)
  {
  }

  /** `monitor_op(current, best)`: np.greater when greater is better, np.less otherwise. */
  predicate Improves(greater: bool, current: Bound, best: Bound)
  {
    if greater then Less(best, current) else Less(current, best)
  }

  /** The mode `__init__` goes on with: anything but 'auto', 'min' or 'max' falls back to 'auto'. */
  function EffectiveMode(mode: string): (m: string)
    ensures m == "auto" || m == "min" || m == "max"
    ensures m != "auto" ==> m == mode
    ensures mode == "auto" || mode == "min" || mode == "max" ==> m == mode
  {
    if mode == "auto" || mode == "min" || mode == "max" then mode else "auto"
  }

  /** Whether `monitor_op` is np.greater for this mode and monitored quantity. */
  function GreaterIsBetter(mode: string, monitor: string): (greater: bool)
    ensures mode == "max" ==> greater
    ensures mode == "min" ==> !greater
    ensures mode != "min" && mode != "max" ==>
      (greater <==> Contains(monitor, "acc") || StartsWith(monitor, "fmeasure"))
  {
    var m := EffectiveMode(mode);
    if m == "min" then false
    else if m == "max" then true
    else Contains(monitor, "acc") || StartsWith(monitor, "fmeasure")
  }

  /** `best` before any epoch: -inf when greater is better, +inf otherwise. */
  function InitialBest(greater: bool): (b: Bound)
    ensures forall v: real :: Improves(greater, Value(v), b)
  {
    if greater then NegInf else PosInf
  }

  /** The best value after comparing `seen` in order, as `on_epoch_end` keeps it. */
  function RunningBest(greater: bool, seen: seq<Bound>): Bound
    decreases |seen|
  {
    if |seen| == 0 then InitialBest(greater)
    else
      var b := RunningBest(greater, seen[..|seen| - 1]);
      if Improves(greater, seen[|seen| - 1], b) then seen[|seen| - 1] else b
  }

  /**
   * The running best is the extreme of what was compared: nothing seen
   * improves on it, and it is either the initial infinity or a seen value.
   */
  lemma {:induction false} RunningBestIsExtreme(greater: bool, seen: seq<Bound>)
    ensures forall i :: 0 <= i < |seen| ==> !Improves(greater, seen[i], RunningBest(greater, seen))
    ensures RunningBest(greater, seen) == InitialBest(greater) || RunningBest(greater, seen) in seen
    decreases |seen|
  {
    if |seen| > 0 {
      var init := seen[..|seen| - 1];
      var b := RunningBest(greater, init);
      var b' := RunningBest(greater, seen);
      RunningBestIsExtreme(greater, init);
      forall i | 0 <= i < |seen| ensures !Improves(greater, seen[i], b') {
        LessTotal(seen[i], b, b');
        LessTotal(b, seen[i], b');
        LessTotal(b', b, seen[i]);
        LessTotal(seen[i], b', b);
        if i < |seen| - 1 {
          assert seen[i] == init[i];
        }
      }
      if b' != seen[|seen| - 1] {
        assert b' == b;
        if b != InitialBest(greater) {
          var j :| 0 <= j < |init| && init[j] == b;
          assert seen[j] == b;
        }
      }
    }
  }

  /** A period counter consistent with `epochs` calls stays consistent after one more call. */
  ghost predicate CounterValid(period: int, epochs: nat, attempts: nat, since: int)
  {
    && (period >= 1 ==> 0 <= since < period && epochs == attempts * period + since)
    && (period < 1 ==> since == 0 && epochs == attempts)
  }

  /** One call of `on_epoch_end` on the counters: counted, then reset when it reaches `period`. */
  lemma {:induction false} CounterStep(period: int, epochs: nat, attempts: nat, since: int)
    requires CounterValid(period, epochs, attempts, since)
    ensures var attempt := since + 1 >= period;
      var since' := if attempt then 0 else since + 1;
      var attempts' := if attempt then attempts + 1 else attempts;
      && CounterValid(period, epochs + 1, attempts', since')
      && (period >= 1 ==> (since' == 0 <==> epochs + 1 == attempts' * period))
  {
    if period >= 1 && since + 1 >= period {
      assert since + 1 == period;
      assert (attempts + 1) * period == attempts * period + period;
    }
  }

  /** Comparing one more value updates the running best as `on_epoch_end` does. */
  lemma {:induction false} RunningBestStep(greater: bool, seen: seq<Bound>, current: Bound)
    ensures RunningBest(greater, seen + [current]) ==
      if Improves(greater, current, RunningBest(greater, seen)) then current else RunningBest(greater, seen)
  {
    assert (seen + [current])[..|seen|] == seen;
  }

  /** A save of the model (`save` or `save_weights`) to the file named for epoch `epoch + 1`. */
  datatype Event = Save(epoch: int, weightsOnly: bool)

  /** `MultiGPUModelCheckpoint`. */
  class ModelCheckpoint {
    const filepath: string
    const monitor: string
    const verbose: int
    const saveBestOnly: bool
    const saveWeightsOnly: bool
    const period: int
    const greater: bool
    var epochsSinceLastSave: int
    var best: Bound
    var saves: seq<Event>
    ghost var epochs: nat        // calls of on_epoch_end so far
    ghost var attempts: nat      // calls that reached the save branch
    ghost var seen: seq<Bound>   // values compared against `best`, in order

    ghost predicate Valid()
      reads this
    {
      && CounterValid(period, epochs, attempts, epochsSinceLastSave)
      && best == RunningBest(greater, seen)
    }

    constructor(filepath: string, monitor: string, verbose: int, saveBestOnly: bool,
                saveWeightsOnly: bool, mode: string, period: int)
      ensures Valid()
      ensures this.filepath == filepath && this.monitor == monitor && this.verbose == verbose
      ensures this.saveBestOnly == saveBestOnly && this.saveWeightsOnly == saveWeightsOnly
      ensures this.period == period
      ensures greater == GreaterIsBetter(mode, monitor)
      ensures best == InitialBest(greater)
      ensures epochsSinceLastSave == 0 && saves == [] && epochs == 0 && seen == []
    {
      this.filepath := filepath;
      this.monitor := monitor;
      this.verbose := verbose;
      this.saveBestOnly := saveBestOnly;
      this.saveWeightsOnly := saveWeightsOnly;
      this.period := period;
      var m := mode;
      if !(m == "auto" || m == "min" || m == "max") {
        m := "auto";
      }
      if m == "min" {
        greater := false;
        best := PosInf;
      } else if m == "max" {
        greater := true;
        best := NegInf;
      } else {
        if Contains(monitor, "acc") || StartsWith(monitor, "fmeasure") {
          greater := true;
          best := NegInf;
        } else {
          greater := false;
          best := PosInf;
        }
      }
      epochsSinceLastSave := 0;
      saves := [];
      epochs := 0;
      attempts := 0;
      seen := [];
    }

    /**
     * `on_epoch_end(epoch, logs)`: every call counts one epoch; when the
     * counter reaches `period` it is reset and a save is attempted. With
     * `save_best_only` the save happens only when the monitored value is
     * present and improves on `best`, which then becomes that value.
     */
    method OnEpochEnd(epoch: int, logs: map<string, real>)
      requires Valid()
      modifies this
      ensures Valid()
      ensures epochs == old(epochs) + 1
      ensures var attempt := old(epochsSinceLastSave) + 1 >= period;
        && epochsSinceLastSave == (if attempt then 0 else old(epochsSinceLastSave) + 1)
        && attempts == (if attempt then old(attempts) + 1 else old(attempts))
        && (!attempt ==> best == old(best) && saves == old(saves) && seen == old(seen))
        && (attempt && !saveBestOnly ==>
              best == old(best) && seen == old(seen) && saves == old(saves) + [Save(epoch + 1, saveWeightsOnly)])
        && (attempt && saveBestOnly && monitor !in logs ==>
              best == old(best) && seen == old(seen) && saves == old(saves))
        && (attempt && saveBestOnly && monitor in logs ==>
              seen == old(seen) + [Value(logs[monitor])]
              && (Improves(greater, Value(logs[monitor]), old(best)) ==>
                    best == Value(logs[monitor]) && saves == old(saves) + [Save(epoch + 1, saveWeightsOnly)])
              && (!Improves(greater, Value(logs[monitor]), old(best)) ==>
                    best == old(best) && saves == old(saves)))
      ensures period >= 1 ==> (epochsSinceLastSave == 0 <==> epochs == attempts * period)
    {
      CounterStep(period, epochs, attempts, epochsSinceLastSave);
      epochs := epochs + 1;
      epochsSinceLastSave := epochsSinceLastSave + 1;
      if epochsSinceLastSave >= period {
        epochsSinceLastSave := 0;
        attempts := attempts + 1;
        if saveBestOnly {
          if monitor in logs {
            var current := Value(logs[monitor]);
            RunningBestStep(greater, seen, current);
            seen := seen + [current];
            if Improves(greater, current, best) {
              best := current;
              saves := saves + [Save(epoch + 1, saveWeightsOnly)];
            }
          }
        } else {
          saves := saves + [Save(epoch + 1, saveWeightsOnly)];
        }
      }
    }
  }

  /** In 'auto' mode an accuracy or f-measure monitor is maximised. */
  lemma {:induction false} AutoMaximisesAccuracy()
    ensures GreaterIsBetter("auto", "val_acc")
    ensures GreaterIsBetter("auto", "fmeasure_1")
  {
    ContainsAt("val_acc", "acc", 4);
  }

  /** In 'auto' mode a loss monitor is minimised. */
  lemma {:induction false} AutoMinimisesLoss()
    ensures !GreaterIsBetter("auto", "val_loss")
  {
    assert "val_loss"[..8][0] != "fmeasure"[0];
    assert 'c' in "acc";
    LacksChar("val_loss", "acc", 'c');
  }

  /** An unknown mode behaves as 'auto'. */
  lemma {:induction false} UnknownModeIsAuto(mode: string, monitor: string)
    requires mode != "auto" && mode != "min" && mode != "max"
    ensures GreaterIsBetter(mode, monitor) == GreaterIsBetter("auto", monitor)
  {
  }
}
