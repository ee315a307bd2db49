/** CAN payload layouts of the two actuator messages (motor controller and
    tail/rudder controller), their encoders and the matching decoders.

    The identifiers, payload lengths, byte offsets, flag bit numbers and the
    signature byte live in a generated header that is not part of this model,
    so they are a `Protocol` value here: every result holds for every protocol
    whose byte offsets are distinct and lie inside a classic CAN payload and
    whose three motor flag bit numbers are distinct and below 8. */
module CanProtocol {
  import opened Wrappers

  /** One payload byte (`uint8_t`). */
  newtype Byte = x: int | 0 <= x < 256

  /** A signed 16-bit value (`int16_t`). */
  newtype Int16 = x: int | -32768 <= x < 32768

  /** Physical limit of the tail: plus or minus 45.00 degrees, in centi-degrees. */
  const TailLimit: Int16 := 4500

  /** Soft-start percentage written into every motor command. */
  const SoftStart: Byte := 100

  /** Largest data length of a classic CAN frame. */
  const MaxDlc: nat := 8

  datatype MotorLayout = MotorLayout(
    id: nat, length: nat,
    signatureByte: nat, motorByte: nat, dutyByte: nat, softStartByte: nat,
    motorOnBit: nat, dmsOnBit: nat, reverseBit: nat)
  {
    predicate Valid() {
      && length <= MaxDlc
      && signatureByte < length && motorByte < length && dutyByte < length && softStartByte < length
      && signatureByte != motorByte && signatureByte != dutyByte && signatureByte != softStartByte
      && motorByte != dutyByte && motorByte != softStartByte && dutyByte != softStartByte
      && motorOnBit < 8 && dmsOnBit < 8 && reverseBit < 8
      && motorOnBit != dmsOnBit && motorOnBit != reverseBit && dmsOnBit != reverseBit
    }
  }

  datatype TailLayout = TailLayout(
    id: nat, length: nat,
    signatureByte: nat, positionLowByte: nat, positionHighByte: nat)
  {
    predicate Valid() {
      && length <= MaxDlc
      && signatureByte < length && positionLowByte < length && positionHighByte < length
      && signatureByte != positionLowByte && signatureByte != positionHighByte
      && positionLowByte != positionHighByte
    }
  }

  /** The constants shared by both messages. */
  datatype Protocol = Protocol(signature: Byte, motor: MotorLayout, tail: TailLayout)
  {
    predicate Valid() { motor.Valid() && tail.Valid() }
  }

  /** What `send_can` puts on the bus: identifier, data length code and the
      first `dlc` bytes of the payload. */
  datatype CanFrame = CanFrame(id: nat, dlc: nat, data: seq<Byte>)

  // ---------------------------------------------------------------------
  // Bit operations on unsigned values, as C's `<<`, `|`, `&` and `>>` see them.

  /** `1 << k`. */
  function Pow2(k: nat): (r: nat)
    ensures r >= 1
  {
    if k == 0 then 1 else 2 * Pow2(k - 1)
  }

  /** Bit `k` of `b` is set: `(b >> k) & 1`. */
  predicate Bit(b: nat, k: nat) {
    if k == 0 then b % 2 == 1 else Bit(b / 2, k - 1)
  }

  /** Bitwise or, `a | b`, one binary digit at a time. */
  function BitOr(a: nat, b: nat): nat
    decreases a + b
  {
    if a == 0 && b == 0 then 0
    else 2 * BitOr(a / 2, b / 2) + (if a % 2 == 1 || b % 2 == 1 then 1 else 0)
  }

  lemma {:induction false} NoBitOfZero(k: nat)
    ensures !Bit(0, k)
  {
    if k > 0 { NoBitOfZero(k - 1); }
  }

  /** `1 << i` has exactly bit `i` set. */
  lemma {:induction false} BitOfPow2(i: nat, k: nat)
    ensures Bit(Pow2(i), k) <==> k == i
  {
    if i == 0 {
      if k > 0 { NoBitOfZero(k - 1); }
    } else if k > 0 {
      assert Pow2(i) / 2 == Pow2(i - 1);
      BitOfPow2(i - 1, k - 1);
    }
  }

  /** A bit of `a | b` is set exactly when it is set in `a` or in `b`. */
  lemma {:induction false} BitOfOr(a: nat, b: nat, k: nat)
    ensures Bit(BitOr(a, b), k) <==> Bit(a, k) || Bit(b, k)
    decreases k
  {
    if a == 0 && b == 0 {
      NoBitOfZero(k);
    } else if k > 0 {
      assert BitOr(a, b) / 2 == BitOr(a / 2, b / 2);
      BitOfOr(a / 2, b / 2, k - 1);
    }
  }

  /** Values below `2^n` stay below `2^n` under `|`. */
  lemma {:induction false} BitOrBound(a: nat, b: nat, n: nat)
    requires a < Pow2(n) && b < Pow2(n)
    ensures BitOr(a, b) < Pow2(n)
    decreases n
  {
    if n > 0 && !(a == 0 && b == 0) {
      BitOrBound(a / 2, b / 2, n - 1);
    }
  }

  lemma {:induction false} Pow2Monotone(i: nat, n: nat)
    requires i < n
    ensures Pow2(i) < Pow2(n)
    decreases n
  {
    if i < n - 1 { Pow2Monotone(i, n - 1); }
  }

  /** Bit `k` of a payload byte is set. */
  predicate FlagSet(b: Byte, k: nat) {
    Bit(b as nat, k)
  }

  /** The motor state byte: `(1 << MOTOR_ON) | (1 << DMS_ON)`, REVERSE left clear. */
  function MotorFlags(layout: MotorLayout): (flags: Byte)
    requires layout.Valid()
    ensures FlagSet(flags, layout.motorOnBit) && FlagSet(flags, layout.dmsOnBit)
    ensures !FlagSet(flags, layout.reverseBit)
    ensures forall k :: k != layout.motorOnBit && k != layout.dmsOnBit ==> !FlagSet(flags, k)
  {
    Pow2Monotone(layout.motorOnBit, 8);
    Pow2Monotone(layout.dmsOnBit, 8);
    BitOrBound(Pow2(layout.motorOnBit), Pow2(layout.dmsOnBit), 8);
    var flags := BitOr(Pow2(layout.motorOnBit), Pow2(layout.dmsOnBit));
    assert forall k :: Bit(flags, k) <==> k == layout.motorOnBit || k == layout.dmsOnBit by {
      forall k ensures Bit(flags, k) <==> k == layout.motorOnBit || k == layout.dmsOnBit {
        BitOfOr(Pow2(layout.motorOnBit), Pow2(layout.dmsOnBit), k);
        BitOfPow2(layout.motorOnBit, k);
        BitOfPow2(layout.dmsOnBit, k);
      }
    }
    flags as Byte
  }

  /** The physical-limit guard of `send_command_tail`. */
  function ClampTail(position: Int16): (r: Int16)
    ensures -TailLimit <= r <= TailLimit
    ensures -TailLimit <= position <= TailLimit ==> r == position
    ensures position < -TailLimit ==> r == -TailLimit
    ensures position > TailLimit ==> r == TailLimit
  {
    var p := if position < -TailLimit then -TailLimit else position;
    if p > TailLimit then TailLimit else p
  }

  /** `static_cast<uint16_t>`: reduction modulo 2^16 (two's complement). */
  function ToUint16(v: Int16): (u: nat)
    ensures u < 0x1_0000
    ensures v >= 0 ==> u == v as int
    ensures v < 0 ==> u == v as int + 0x1_0000
  {
    (v as int) % 0x1_0000
  }

  /** `pos_unsigned & 0xFF`. */
  function PositionLow(v: Int16): Byte {
    (ToUint16(v) % 0x100) as Byte
  }

  /** `(pos_unsigned >> 8) & 0xFF`. */
  function PositionHigh(v: Int16): Byte {
    ((ToUint16(v) / 0x100) % 0x100) as Byte
  }

  /** Reads a little-endian two's-complement 16-bit value back from its bytes. */
  function FromLittleEndian(low: Byte, high: Byte): (v: Int16)
    ensures ToUint16(v) == low as int + 0x100 * high as int
  {
    var u := low as int + 0x100 * high as int;
    if u >= 0x8000 then (u - 0x1_0000) as Int16 else u as Int16
  }

  /** The two position bytes are the little-endian two's-complement encoding:
      reading them back gives the value that was split. */
  lemma {:induction false} LittleEndianRoundTrip(v: Int16)
    ensures FromLittleEndian(PositionLow(v), PositionHigh(v)) == v
  {
    var u := ToUint16(v);
    var lo, hi := u % 0x100, u / 0x100;
    assert u == lo + 0x100 * hi;
    assert hi < 0x100;
    assert PositionLow(v) as int == lo;
    assert PositionHigh(v) as int == hi;
  }

  /** Worked examples of the tail encoding. */
  lemma TailEncodingExamples()
    ensures PositionLow(3000) == 0xB8 && PositionHigh(3000) == 0x0B
    ensures PositionLow(-3000) == 0x48 && PositionHigh(-3000) == 0xF4
    ensures PositionLow(0) == 0 && PositionHigh(0) == 0
    ensures PositionLow(-4500) == 0x6C && PositionHigh(-4500) == 0xEE
  {
  }

  /** The decoded content of a motor payload. */
  datatype MotorCommand = MotorCommand(motorOn: bool, dmsOn: bool, reverse: bool, duty: Byte, softStart: Byte)

  /** Reads a motor payload; fails on a wrong length or a foreign signature. */
  function DecodeMotor(protocol: Protocol, payload: seq<Byte>): Option<MotorCommand>
    requires protocol.Valid()
  {
    var l := protocol.motor;
    if |payload| != l.length || payload[l.signatureByte] != protocol.signature then None
    else
      var flags := payload[l.motorByte];
      Some(MotorCommand(FlagSet(flags, l.motorOnBit), FlagSet(flags, l.dmsOnBit), FlagSet(flags, l.reverseBit),
                        payload[l.dutyByte], payload[l.softStartByte]))
  }

  /** Reads a tail payload; fails on a wrong length or a foreign signature. */
  function DecodeTail(protocol: Protocol, payload: seq<Byte>): Option<Int16>
    requires protocol.Valid()
  {
    var l := protocol.tail;
    if |payload| != l.length || payload[l.signatureByte] != protocol.signature then None
    else Some(FromLittleEndian(payload[l.positionLowByte], payload[l.positionHighByte]))
  }

  /** The payload-building half of `send_command_motor`: the signature, the
      flags byte, the duty cycle exactly as given (not clamped) and the
      soft-start percentage, each at its offset in a fresh `dados` buffer. */
  method EncodeMotor(protocol: Protocol, duty: Byte) returns (dados: array<Byte>)
    requires protocol.Valid()
    ensures fresh(dados) && dados.Length == protocol.motor.length
    ensures dados[protocol.motor.signatureByte] == protocol.signature
    ensures dados[protocol.motor.motorByte] == MotorFlags(protocol.motor)
    ensures dados[protocol.motor.dutyByte] == duty
    ensures dados[protocol.motor.softStartByte] == SoftStart
    ensures DecodeMotor(protocol, dados[..]) == Some(MotorCommand(true, true, false, duty, SoftStart))
  {
    var l := protocol.motor;
    dados := new Byte[l.length];
    dados[l.signatureByte] := protocol.signature;
    dados[l.motorByte] := MotorFlags(l);
    dados[l.dutyByte] := duty;
    dados[l.softStartByte] := SoftStart;
  }

  /** The payload-building half of `send_command_tail`: clamps the position
      into the physical range, then writes the signature and the position as
      little-endian two's complement into a fresh `dados` buffer. */
  method EncodeTail(protocol: Protocol, position: Int16) returns (dados: array<Byte>)
    requires protocol.Valid()
    ensures fresh(dados) && dados.Length == protocol.tail.length
    ensures dados[protocol.tail.signatureByte] == protocol.signature
    ensures dados[protocol.tail.positionLowByte] == PositionLow(ClampTail(position))
    ensures dados[protocol.tail.positionHighByte] == PositionHigh(ClampTail(position))
    ensures DecodeTail(protocol, dados[..]) == Some(ClampTail(position))
  {
    var l := protocol.tail;
    dados := new Byte[l.length];
    var p := position;
    if p < -TailLimit { p := -TailLimit; }
    if p > TailLimit { p := TailLimit; }
    dados[l.signatureByte] := protocol.signature;
    var posUnsigned := (p as int) % 0x1_0000;
    dados[l.positionLowByte] := (posUnsigned % 0x100) as Byte;
    dados[l.positionHighByte] := ((posUnsigned / 0x100) % 0x100) as Byte;
    LittleEndianRoundTrip(p);
  }

  /** A frame carries the motor command with this duty cycle. */
  predicate IsMotorFrame(protocol: Protocol, frame: CanFrame, duty: Byte)
    requires protocol.Valid()
  {
    && frame.id == protocol.motor.id
    && frame.dlc == protocol.motor.length
    && DecodeMotor(protocol, frame.data) == Some(MotorCommand(true, true, false, duty, SoftStart))
  }

  /** A frame carries the tail command for this (already clamped) position. */
  predicate IsTailFrame(protocol: Protocol, frame: CanFrame, position: Int16)
    requires protocol.Valid()
  {
    && frame.id == protocol.tail.id
    && frame.dlc == protocol.tail.length
    && DecodeTail(protocol, frame.data) == Some(position)
  }

  /** Tail frames only ever carry positions inside the physical range, and a
      position inside it is carried unchanged. */
  lemma {:induction false} TailFrameInRange(protocol: Protocol, frame: CanFrame, position: Int16)
    requires protocol.Valid()
    requires IsTailFrame(protocol, frame, ClampTail(position))
    ensures var p := DecodeTail(protocol, frame.data).value; -TailLimit <= p <= TailLimit
    ensures -TailLimit <= position <= TailLimit ==> DecodeTail(protocol, frame.data) == Some(position)
  {
  }

}
