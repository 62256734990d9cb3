/** The presence sensor device `st::S_UltrasonicPresence`: configuration and state
    fields, a status update that changes them step by step, and the messages it hands
    to the notifier, collected in `outbox`. The trigger pulse, the echo measurement
    and the clock are outside the model; their results arrive as parameters. */
module St {
  import opened SensorUnits
  import opened PresenceLogic
  import opened PresenceMessage

  class UltrasonicPresence {
    const name: string
    const digitalTriggerPin: Byte
    const digitalEchoPin: Byte
    const longIsPresent: bool
    const longThreshold: ULong
    const shortThreshold: ULong

    const requiredCounts: Byte
    const interval: ULong
    const maxReading: ULong

    var currentCount: Byte
    var previousTime: ULong
    var present: bool

    /** Every message sent so far, oldest first. */
    var outbox: seq<string>

    function Settings(): Config
    {
      Config(longIsPresent, longThreshold, shortThreshold, requiredCounts, interval, maxReading)
    }

    function Status(): State
      reads this
    {
      State(currentCount, previousTime, present)
    }

    ghost predicate Valid()
      reads this
    {
      CountInRange(Settings(), Status())
    }

    constructor (name: string, digitalTriggerPin: Byte, digitalEchoPin: Byte,
                 initialState: bool, longIsPresent: bool,
                 longThreshold: ULong, shortThreshold: ULong)
      ensures Valid()
      ensures this.name == name
      ensures this.digitalTriggerPin == digitalTriggerPin && this.digitalEchoPin == digitalEchoPin
      ensures Settings() == DefaultConfig(longIsPresent, longThreshold, shortThreshold)
      ensures Status() == InitialState(initialState)
      ensures outbox == []
    {
      this.name := name;
      this.digitalTriggerPin := digitalTriggerPin;
      this.digitalEchoPin := digitalEchoPin;
      this.longIsPresent := longIsPresent;
      this.longThreshold := longThreshold;
      this.shortThreshold := shortThreshold;
      requiredCounts := RequiredCounts;
      interval := SampleInterval;
      maxReading := MaxReading;
      currentCount := 0;
      previousTime := 0;
      present := initialState;
      outbox := [];
    }

    /** Sends the current presence. */
    method SendUpdate()
      modifies this`outbox
      ensures outbox == old(outbox) + [Message(name, present)]
    {
      outbox := outbox + [Message(name, present)];
    }

    /** One poll: `now` is the clock before the measurement, `duration` the echo
        time measured (used only if the gate is due) and `after` the clock read
        right after it. */
    method UpdateStatus(now: ULong, duration: ULong, after: ULong)
      requires Valid()
      modifies this
      ensures Valid()
      ensures Status() == Poll(Settings(), old(Status()), Sample(now, duration, after))
      ensures outbox == old(outbox) + (if present != old(present) then [Message(name, present)] else [])
    {
      if now < previousTime || WrapSub(now, previousTime) >= interval {
        previousTime := after;

        if duration > maxReading {
          return;
        }

        var checkForLong := present != longIsPresent;
        var lastPresentState := present;
        if (checkForLong && duration >= longThreshold) || (!checkForLong && duration <= shortThreshold) {
          currentCount := ByteInc(currentCount);
          if currentCount >= requiredCounts {
            present := !present;
            currentCount := 0;
          }
        } else {
          currentCount := 0;
        }

        if lastPresentState != present {
          SendUpdate();
        }
      }
    }

    method Init(now: ULong, duration: ULong, after: ULong)
      requires Valid()
      modifies this
      ensures Valid()
      ensures Status() == Poll(Settings(), old(Status()), Sample(now, duration, after))
      ensures outbox == old(outbox) + (if present != old(present) then [Message(name, present)] else [])
    {
      UpdateStatus(now, duration, after);
    }

    method Update(now: ULong, duration: ULong, after: ULong)
      requires Valid()
      modifies this
      ensures Valid()
      ensures Status() == Poll(Settings(), old(Status()), Sample(now, duration, after))
      ensures outbox == old(outbox) + (if present != old(present) then [Message(name, present)] else [])
    {
      UpdateStatus(now, duration, after);
    }

    /** Re-sends the current presence without polling the sensor. */
    method Refresh()
      modifies this`outbox
      ensures Status() == old(Status())
      ensures outbox == old(outbox) + [Message(name, present)]
    {
      SendUpdate();
    }
  }

  /** The usage example of the device: long means not present, thresholds of six
      and four feet, starting not present. An out-of-range reading changes
      nothing but the clock, a poll before the interval has passed changes nothing,
      and four short readings one interval apart then flip the device to present
      with one message. */
  method ExampleSketch() returns (messages: seq<string>, present: bool)
    ensures present
    ensures messages == ["presence1 present"]
  {
    var sensor := new UltrasonicPresence("presence1", 7, 8, false, false, 10656, 7104);
    sensor.Update(1000, 23300, 1000);
    assert sensor.Status() == State(0, 1000, false);
    sensor.Update(1500, 6000, 1500);
    assert sensor.Status() == State(0, 1000, false);
    sensor.Update(2000, 6000, 2000);
    assert sensor.Status() == State(1, 2000, false);
    sensor.Update(3000, 6500, 3000);
    assert sensor.Status() == State(2, 3000, false);
    sensor.Update(4000, 6800, 4000);
    assert sensor.Status() == State(3, 4000, false);
    assert sensor.outbox == [];
    sensor.Update(5000, 6900, 5000);
    assert sensor.Status() == State(0, 5000, true);
    assert Message("presence1", true) == "presence1 present";
    messages, present := sensor.outbox, sensor.present;
  }
}
