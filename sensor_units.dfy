/** Machine integers of the Arduino target and the echo-time conversions of the
    HC-SR04 ultrasonic ranger that the presence detector is configured with. */
module SensorUnits {

  /** `unsigned long` is 32 bits wide on the AVR boards the detector runs on. */
  const TwoTo32: int := 0x1_0000_0000

  type ULong = x: int | 0 <= x < TwoTo32

  /** `uint8_t` / `byte`. */
  type Byte = x: int | 0 <= x < 256

  /** Unsigned 32-bit subtraction `a - b`, which wraps modulo 2^32. */
  function WrapSub(a: ULong, b: ULong): (r: ULong)
    ensures a >= b ==> r == a - b
    ensures a < b ==> r == a - b + TwoTo32
  {
    (a - b) % TwoTo32
  }

  /** The `uint8_t` increment `b++`, which wraps from 255 to 0. */
  function ByteInc(b: Byte): (r: Byte)
    ensures b < 255 ==> r == b + 1
    ensures b == 255 ==> r == 0
  {
    (b + 1) % 256
  }

  /** Round-trip echo time per unit of distance to the target. */
  const MicrosPerCentimeter: nat := 58
  const MicrosPerInch: nat := 148

  function MicrosFromCentimeters(cm: nat): nat
  {
    cm * MicrosPerCentimeter
  }

  function MicrosFromInches(inches: nat): nat
  {
    inches * MicrosPerInch
  }

  /** The inverse direction: the distance (rounded down) that an echo time stands for. */
  function CentimetersFromMicros(micros: nat): nat
  {
    micros / MicrosPerCentimeter
  }

  function InchesFromMicros(micros: nat): nat
  {
    micros / MicrosPerInch
  }

  lemma CentimetersRoundTrip(cm: nat)
    ensures CentimetersFromMicros(MicrosFromCentimeters(cm)) == cm
  {
  }

  lemma InchesRoundTrip(inches: nat)
    ensures InchesFromMicros(MicrosFromInches(inches)) == inches
  {
  }

  /** A farther target always yields a strictly longer echo, so distance thresholds
      keep their order when converted to echo times. */
  lemma MicrosFromDistanceStrictlyMonotone(near: nat, far: nat)
    requires near < far
    ensures MicrosFromInches(near) < MicrosFromInches(far)
    ensures MicrosFromCentimeters(near) < MicrosFromCentimeters(far)
  {
  }

  /** The thresholds used in the usage example: 6 feet and 4 feet. */
  lemma ExampleThresholds()
    ensures MicrosFromInches(6 * 12) == 10656
    ensures MicrosFromInches(4 * 12) == 7104
    ensures MicrosFromInches(4 * 12) < MicrosFromInches(6 * 12)
  {
  }
}
