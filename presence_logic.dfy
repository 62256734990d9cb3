/** The detection logic of the ultrasonic presence sensor, on values: the sampling
    gate, the validity filter, the hysteretic choice of threshold and the run-length
    debounce that one poll applies, and what a sequence of polls does. */
module PresenceLogic {
  import opened SensorUnits

  /** The low-level settings the constructor fixes. */
  const RequiredCounts: Byte := 4
  const SampleInterval: ULong := 1000
  const MaxReading: ULong := 23200

  datatype Config = Config(
    longIsPresent: bool,    // true: a long distance means present
    longThreshold: ULong,   // echo time at or above which a reading is "long"
    shortThreshold: ULong,  // echo time at or below which a reading is "short"
    requiredCounts: Byte,   // consecutive supporting samples needed to flip
    interval: ULong,        // clock ticks between samples
    maxReading: ULong)      // longest echo time still taken as a reading

  datatype State = State(
    currentCount: Byte,     // supporting samples seen so far in the current run
    previousTime: ULong,    // clock reading taken right after the last measurement
    present: bool)

  /** One poll's view of the outside world: the clock before the measurement,
      the echo time measured, and the clock after the measurement. */
  datatype Sample = Sample(now: ULong, duration: ULong, after: ULong)

  function DefaultConfig(longIsPresent: bool, longThreshold: ULong, shortThreshold: ULong): Config
  {
    Config(longIsPresent, longThreshold, shortThreshold, RequiredCounts, SampleInterval, MaxReading)
  }

  function InitialState(initialState: bool): State
  {
    State(0, 0, initialState)
  }

  /** The debounce counter never reaches the number of samples that flips the state. */
  predicate CountInRange(cfg: Config, s: State)
  {
    s.currentCount < cfg.requiredCounts
  }

  /** The default maximum reading is the echo time of a target 400 cm away, and a
      fresh detector satisfies the counter invariant. */
  lemma DefaultsAgree(longIsPresent: bool, longThreshold: ULong, shortThreshold: ULong, initialState: bool)
    ensures MicrosFromCentimeters(400) == MaxReading
    ensures CountInRange(DefaultConfig(longIsPresent, longThreshold, shortThreshold), InitialState(initialState))
  {
  }

  // ---------------------------------------------------------------------------
  // Sampling gate

  /** The gate as written: the 32-bit subtraction is only evaluated when the clock
      did not go backwards. */
  predicate Due(cfg: Config, now: ULong, previousTime: ULong)
  {
    now < previousTime || WrapSub(now, previousTime) >= cfg.interval
  }

  /** The gate is due exactly when the clock went backwards (it wrapped) or at least
      one interval has really elapsed. */
  lemma DueIff(cfg: Config, now: ULong, previousTime: ULong)
    ensures Due(cfg, now, previousTime) <==> now < previousTime || now - previousTime >= cfg.interval
  {
  }

  /** The gate is never later than the usual wrap-safe test on the modular elapsed
      time, and right after a wrap it may fire before a full interval has elapsed. */
  lemma DueAfterWrap(cfg: Config, now: ULong, previousTime: ULong)
    ensures WrapSub(now, previousTime) >= cfg.interval ==> Due(cfg, now, previousTime)
    ensures now < previousTime ==> Due(cfg, now, previousTime)
    ensures cfg.interval > 1 ==> Due(cfg, 0, TwoTo32 - 1) && WrapSub(0, TwoTo32 - 1) == 1 < cfg.interval
  {
  }

  // ---------------------------------------------------------------------------
  // Validity and classification

  predicate ValidReading(cfg: Config, duration: ULong)
  {
    duration <= cfg.maxReading
  }

  /** With the default settings a reading of exactly 23200 is still valid and one
      of 23201 is discarded. */
  lemma MaxReadingInclusive(longIsPresent: bool, longThreshold: ULong, shortThreshold: ULong)
    ensures ValidReading(DefaultConfig(longIsPresent, longThreshold, shortThreshold), 23200)
    ensures !ValidReading(DefaultConfig(longIsPresent, longThreshold, shortThreshold), 23201)
  {
  }

  /** Whether the detector is waiting for a long reading: it is in the state that a
      short reading stands for. */
  function CheckForLong(cfg: Config, present: bool): bool
  {
    present != cfg.longIsPresent
  }

  /** Whether a valid reading supports flipping the current presence. */
  predicate Supports(cfg: Config, present: bool, duration: ULong)
  {
    (CheckForLong(cfg, present) && duration >= cfg.longThreshold) ||
    (!CheckForLong(cfg, present) && duration <= cfg.shortThreshold)
  }

  /** The polarity setting read on its own: a long reading stands for
      `longIsPresent`, a short reading for its opposite. */
  predicate Indicates(cfg: Config, duration: ULong, p: bool)
  {
    (duration >= cfg.longThreshold && p == cfg.longIsPresent) ||
    (duration <= cfg.shortThreshold && p == !cfg.longIsPresent)
  }

  /** The direction selection is right: a reading supports a flip exactly when the
      reading, classified by the polarity setting, stands for the opposite state. */
  lemma SupportsIffIndicatesOpposite(cfg: Config, present: bool, duration: ULong)
    ensures Supports(cfg, present, duration) <==> Indicates(cfg, duration, !present)
  {
  }

  /** Both thresholds are inclusive in the direction they are checked in: a reading
      exactly on the threshold supports a flip, one just beyond it does not, and the
      other threshold plays no part. */
  lemma ThresholdsInclusive(cfg: Config, present: bool, duration: ULong)
    ensures CheckForLong(cfg, present) ==>
      Supports(cfg, present, cfg.longThreshold) &&
      (cfg.longThreshold > 0 ==> !Supports(cfg, present, cfg.longThreshold - 1))
    ensures !CheckForLong(cfg, present) ==>
      Supports(cfg, present, cfg.shortThreshold) &&
      (cfg.shortThreshold < TwoTo32 - 1 ==> !Supports(cfg, present, cfg.shortThreshold + 1))
    ensures CheckForLong(cfg, present) ==> (Supports(cfg, present, duration) <==> duration >= cfg.longThreshold)
    ensures !CheckForLong(cfg, present) ==> (Supports(cfg, present, duration) <==> duration <= cfg.shortThreshold)
  {
  }

  /** Hysteresis: with the short threshold below the long one, a reading between
      them supports no flip, and no reading supports flipping both ways. */
  lemma Hysteresis(cfg: Config, present: bool, duration: ULong)
    requires cfg.shortThreshold < cfg.longThreshold
    ensures cfg.shortThreshold < duration < cfg.longThreshold ==> !Supports(cfg, present, duration)
    ensures !(Supports(cfg, present, duration) && Supports(cfg, !present, duration))
  {
  }

  // ---------------------------------------------------------------------------
  // Debounce and one poll

  /** The run-length debounce applied to one valid reading. */
  function Debounce(cfg: Config, s: State, supporting: bool): State
  {
    if supporting then
      var count := ByteInc(s.currentCount);
      if count >= cfg.requiredCounts then s.(currentCount := 0, present := !s.present)
      else s.(currentCount := count)
    else
      s.(currentCount := 0)
  }

  /** One call of the detector's status update. */
  function Poll(cfg: Config, s: State, x: Sample): (r: State)
    ensures !Due(cfg, x.now, s.previousTime) ==> r == s
    ensures Due(cfg, x.now, s.previousTime) ==> r.previousTime == x.after
    ensures Due(cfg, x.now, s.previousTime) && !ValidReading(cfg, x.duration) ==> r == s.(previousTime := x.after)
    ensures r.present != s.present ==>
      Due(cfg, x.now, s.previousTime) && ValidReading(cfg, x.duration) &&
      Supports(cfg, s.present, x.duration) && r.currentCount == 0
    ensures CountInRange(cfg, s) ==> CountInRange(cfg, r)
  {
    if !Due(cfg, x.now, s.previousTime) then s
    else
      var sampled := s.(previousTime := x.after);
      if !ValidReading(cfg, x.duration) then sampled
      else Debounce(cfg, sampled, Supports(cfg, s.present, x.duration))
  }

  /** The counter increment never wraps its byte while the counter invariant holds. */
  lemma CountStaysInByte(cfg: Config, s: State)
    requires CountInRange(cfg, s)
    ensures s.currentCount + 1 <= cfg.requiredCounts <= 255
    ensures ByteInc(s.currentCount) == s.currentCount + 1
  {
  }

  /** A valid sample that is taken: presence flips exactly on the supporting sample
      that arrives with the counter one short; an earlier supporting sample
      advances the counter; a non-supporting sample restarts the run. */
  lemma PollDebounce(cfg: Config, s: State, x: Sample)
    requires CountInRange(cfg, s)
    requires Due(cfg, x.now, s.previousTime) && ValidReading(cfg, x.duration)
    ensures Poll(cfg, s, x).present != s.present <==>
      Supports(cfg, s.present, x.duration) && s.currentCount == cfg.requiredCounts - 1
    ensures Supports(cfg, s.present, x.duration) && s.currentCount < cfg.requiredCounts - 1 ==>
      Poll(cfg, s, x) == State(s.currentCount + 1, x.after, s.present)
    ensures Supports(cfg, s.present, x.duration) && s.currentCount == cfg.requiredCounts - 1 ==>
      Poll(cfg, s, x) == State(0, x.after, !s.present)
    ensures !Supports(cfg, s.present, x.duration) ==> Poll(cfg, s, x) == State(0, x.after, s.present)
  {
  }

  /** The presence values a notification is sent for when the state goes from
      `before` to `after`: one exactly when presence changed. */
  function Report(before: State, after: State): (r: seq<bool>)
    ensures |r| <= 1
    ensures r != [] <==> after.present != before.present
    ensures r != [] ==> r[0] == after.present
  {
    if after.present != before.present then [after.present] else []
  }

  // ---------------------------------------------------------------------------
  // Sequences of polls

  function Run(cfg: Config, s: State, samples: seq<Sample>): State
    decreases |samples|
  {
    if samples == [] then s else Run(cfg, Poll(cfg, s, samples[0]), samples[1..])
  }

  /** The presence values reported, in order, while the samples are processed. */
  function Reports(cfg: Config, s: State, samples: seq<Sample>): seq<bool>
    decreases |samples|
  {
    if samples == [] then []
    else
      var next := Poll(cfg, s, samples[0]);
      Report(s, next) + Reports(cfg, next, samples[1..])
  }

  /** Every sample of the sequence passes the gate, the first measured against
      `previousTime` and each later one against its predecessor's after-time. */
  predicate Paced(cfg: Config, previousTime: ULong, samples: seq<Sample>)
    decreases |samples|
  {
    samples == [] ||
    (Due(cfg, samples[0].now, previousTime) && Paced(cfg, samples[0].after, samples[1..]))
  }

  /** The clock value remembered after the samples, when all of them are taken. */
  function LastAfter(previousTime: ULong, samples: seq<Sample>): ULong
  {
    if samples == [] then previousTime else samples[|samples| - 1].after
  }

  predicate AllValid(cfg: Config, samples: seq<Sample>)
  {
    forall i :: 0 <= i < |samples| ==> ValidReading(cfg, samples[i].duration)
  }

  predicate AllSupport(cfg: Config, present: bool, samples: seq<Sample>)
  {
    forall i :: 0 <= i < |samples| ==> Supports(cfg, present, samples[i].duration)
  }

  predicate NoneSupport(cfg: Config, present: bool, samples: seq<Sample>)
  {
    forall i :: 0 <= i < |samples| ==> !Supports(cfg, present, samples[i].duration)
  }

  /** Pacing splits at any point: the second part is measured against the clock
      value the first part leaves behind. */
  lemma {:induction false} PacedAppend(cfg: Config, previousTime: ULong, xs: seq<Sample>, ys: seq<Sample>)
    ensures Paced(cfg, previousTime, xs + ys) <==>
      Paced(cfg, previousTime, xs) && Paced(cfg, LastAfter(previousTime, xs), ys)
    decreases |xs|
  {
    if xs == [] {
      assert xs + ys == ys;
    } else {
      assert (xs + ys)[0] == xs[0];
      assert (xs + ys)[1..] == xs[1..] + ys;
      PacedAppend(cfg, xs[0].after, xs[1..], ys);
      assert LastAfter(xs[0].after, xs[1..]) == LastAfter(previousTime, xs);
    }
  }

  /** The counter invariant holds after any sequence of polls. */
  lemma {:induction false} RunKeepsCountInRange(cfg: Config, s: State, samples: seq<Sample>)
    requires CountInRange(cfg, s)
    ensures CountInRange(cfg, Run(cfg, s, samples))
    decreases |samples|
  {
    if samples != [] {
      RunKeepsCountInRange(cfg, Poll(cfg, s, samples[0]), samples[1..]);
    }
  }

  lemma {:induction false} RunAppend(cfg: Config, s: State, xs: seq<Sample>, ys: seq<Sample>)
    ensures Run(cfg, s, xs + ys) == Run(cfg, Run(cfg, s, xs), ys)
    ensures Reports(cfg, s, xs + ys) == Reports(cfg, s, xs) + Reports(cfg, Run(cfg, s, xs), ys)
    decreases |xs|
  {
    if xs == [] {
      assert xs + ys == ys;
    } else {
      assert (xs + ys)[0] == xs[0];
      assert (xs + ys)[1..] == xs[1..] + ys;
      RunAppend(cfg, Poll(cfg, s, xs[0]), xs[1..], ys);
    }
  }

  /** When every sample is taken, the detector ends up remembering the after-time
      of the last one. */
  lemma {:induction false} PacedRunClock(cfg: Config, s: State, samples: seq<Sample>)
    requires Paced(cfg, s.previousTime, samples)
    ensures Run(cfg, s, samples).previousTime == LastAfter(s.previousTime, samples)
    decreases |samples|
  {
    if samples != [] {
      PacedRunClock(cfg, Poll(cfg, s, samples[0]), samples[1..]);
    }
  }

  /** A run of taken, valid samples that all support flipping the starting state:
      the counter climbs by one per sample, and presence flips, with exactly one
      report, on the sample that brings it to `requiredCounts`. */
  lemma {:induction false} SupportingRun(cfg: Config, s: State, samples: seq<Sample>)
    requires CountInRange(cfg, s)
    requires s.currentCount + |samples| <= cfg.requiredCounts
    requires Paced(cfg, s.previousTime, samples)
    requires AllValid(cfg, samples) && AllSupport(cfg, s.present, samples)
    ensures s.currentCount + |samples| < cfg.requiredCounts ==>
      Run(cfg, s, samples).present == s.present &&
      Run(cfg, s, samples).currentCount == s.currentCount + |samples| &&
      Reports(cfg, s, samples) == []
    ensures s.currentCount + |samples| == cfg.requiredCounts ==>
      Run(cfg, s, samples).present == !s.present &&
      Run(cfg, s, samples).currentCount == 0 &&
      Reports(cfg, s, samples) == [!s.present]
    decreases |samples|
  {
    if samples != [] {
      var next := Poll(cfg, s, samples[0]);
      assert Due(cfg, samples[0].now, s.previousTime);
      assert ValidReading(cfg, samples[0].duration) && Supports(cfg, s.present, samples[0].duration);
      PollDebounce(cfg, s, samples[0]);
      if s.currentCount + 1 < cfg.requiredCounts {
        assert next == State(s.currentCount + 1, samples[0].after, s.present);
        assert AllValid(cfg, samples[1..]) by {
          forall i | 0 <= i < |samples[1..]| ensures ValidReading(cfg, samples[1..][i].duration) {
            assert samples[1..][i] == samples[i + 1];
          }
        }
        assert AllSupport(cfg, next.present, samples[1..]) by {
          forall i | 0 <= i < |samples[1..]| ensures Supports(cfg, next.present, samples[1..][i].duration) {
            assert samples[1..][i] == samples[i + 1];
          }
        }
        SupportingRun(cfg, next, samples[1..]);
      } else {
        assert samples[1..] == [];
      }
    }
  }

  /** A run of taken, valid samples none of which supports flipping the starting
      state leaves presence alone, resets the counter and reports nothing; repeating
      such samples is idempotent. */
  lemma {:induction false} NonSupportingRun(cfg: Config, s: State, samples: seq<Sample>)
    requires samples != []
    requires Paced(cfg, s.previousTime, samples)
    requires AllValid(cfg, samples) && NoneSupport(cfg, s.present, samples)
    ensures Run(cfg, s, samples).present == s.present
    ensures Run(cfg, s, samples).currentCount == 0
    ensures Reports(cfg, s, samples) == []
    decreases |samples|
  {
    var next := Poll(cfg, s, samples[0]);
    assert Due(cfg, samples[0].now, s.previousTime);
    assert ValidReading(cfg, samples[0].duration) && !Supports(cfg, s.present, samples[0].duration);
    assert next == State(0, samples[0].after, s.present);
    if |samples| > 1 {
      assert AllValid(cfg, samples[1..]) by {
        forall i | 0 <= i < |samples[1..]| ensures ValidReading(cfg, samples[1..][i].duration) {
          assert samples[1..][i] == samples[i + 1];
        }
      }
      assert NoneSupport(cfg, next.present, samples[1..]) by {
        forall i | 0 <= i < |samples[1..]| ensures !Supports(cfg, next.present, samples[1..][i].duration) {
          assert samples[1..][i] == samples[i + 1];
        }
      }
      NonSupportingRun(cfg, next, samples[1..]);
    }
  }

  /** From a reset counter, `requiredCounts` consecutive supporting samples flip
      presence on the last of them and not before, with exactly one report. */
  lemma FlipOnRequiredSample(cfg: Config, s: State, samples: seq<Sample>)
    requires s.currentCount == 0 && cfg.requiredCounts >= 1
    requires |samples| == cfg.requiredCounts
    requires Paced(cfg, s.previousTime, samples)
    requires AllValid(cfg, samples) && AllSupport(cfg, s.present, samples)
    ensures Run(cfg, s, samples[..|samples| - 1]).present == s.present
    ensures Reports(cfg, s, samples[..|samples| - 1]) == []
    ensures Run(cfg, s, samples).present == !s.present
    ensures Run(cfg, s, samples).currentCount == 0
    ensures Reports(cfg, s, samples) == [!s.present]
  {
    var prefix := samples[..|samples| - 1];
    assert samples == prefix + [samples[|samples| - 1]];
    PacedAppend(cfg, s.previousTime, prefix, [samples[|samples| - 1]]);
    SupportingRun(cfg, s, prefix);
    SupportingRun(cfg, s, samples);
  }

  /** From a reset counter, one sample short of `requiredCounts` supporting samples
      followed by a non-supporting one leaves presence alone, reports nothing and
      resets the counter, so a flip again needs `requiredCounts` fresh samples. */
  lemma BrokenRunResets(cfg: Config, s: State, samples: seq<Sample>)
    requires s.currentCount == 0 && cfg.requiredCounts >= 1
    requires |samples| == cfg.requiredCounts
    requires Paced(cfg, s.previousTime, samples) && AllValid(cfg, samples)
    requires AllSupport(cfg, s.present, samples[..|samples| - 1])
    requires !Supports(cfg, s.present, samples[|samples| - 1].duration)
    ensures Run(cfg, s, samples).present == s.present
    ensures Run(cfg, s, samples).currentCount == 0
    ensures Reports(cfg, s, samples) == []
  {
    var n := |samples|;
    var prefix, last := samples[..n - 1], [samples[n - 1]];
    assert samples == prefix + last;
    PacedAppend(cfg, s.previousTime, prefix, last);
    assert AllValid(cfg, prefix) by {
      forall i | 0 <= i < |prefix| ensures ValidReading(cfg, prefix[i].duration) {
        assert prefix[i] == samples[i];
      }
    }
    SupportingRun(cfg, s, prefix);
    PacedRunClock(cfg, s, prefix);
    var mid := Run(cfg, s, prefix);
    NonSupportingRun(cfg, mid, last);
    RunAppend(cfg, s, prefix, last);
  }
}
