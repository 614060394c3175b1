/**
 Points of a Modbus device as the client writes and polls them, over the register map
 of the simulator. Finite float64 values are idealised as the reals; a `FloatUnit`
 stands for what the machine does with single-precision bit patterns and with
 conversions to integers that are out of range.
 */
module ModbusPoint {
  import opened Bytes
  import opened Modbus
  import Payload

  datatype ByteOrder = Abcd | Dcba | Badc | Cdab | NoOrder

  function ByteOrderConversion(data: bytes, order: ByteOrder): (r: bytes)
    ensures |r| == |data|
  {
    if |data| != 4 then data
    else
      match order
      case Abcd => data
      case Dcba => [data[3], data[2], data[1], data[0]]
      case Badc => [data[1], data[0], data[3], data[2]]
      case Cdab => [data[2], data[3], data[0], data[1]]
      case NoOrder => data
  }

  lemma ConversionIsItsOwnInverse(data: bytes, order: ByteOrder)
    ensures ByteOrderConversion(ByteOrderConversion(data, order), order) == data
  {}

  /** Four bytes that read the same in `order` as in the standard order. */
  predicate Symmetric(s: bytes, order: ByteOrder)
    requires |s| == 4
  {
    match order
    case Abcd => true
    case Dcba => s[0] == s[3] && s[1] == s[2]
    case Badc => s[0] == s[1] && s[2] == s[3]
    case Cdab => s[0] == s[2] && s[1] == s[3]
    case NoOrder => true
  }

  lemma SymmetricIff(s: bytes, order: ByteOrder)
    requires |s| == 4
    ensures ByteOrderConversion(s, order) == s <==> Symmetric(s, order)
  {
    var r := ByteOrderConversion(s, order);
    if r == s {
      assert r[0] == s[0] && r[1] == s[1] && r[2] == s[2] && r[3] == s[3];
    }
  }

  datatype PointType = BoolType | Int16Type | Uint16Type | Int32Type | Uint32Type | Float32Type | OtherType

  datatype PointConfig = PointConfig(name: string, functionCode: int, address: uint16, quantity: uint16,
                                     dataType: PointType, byteOrder: ByteOrder, scale: real, offset: real,
                                     writeOnly: bool)

  /** A float64, its finite values taken as exact. */
  datatype Float = Finite(value: real) | Infinite(negative: bool) | NotANumber

  datatype FloatUnit = FloatUnit(bits: Float -> uint32, number: uint32 -> real,
                                 wild16: Float -> uint16, wild32: Float -> uint32)

  // ---- Numbers and registers ----

  /** Conversion to an integer drops the fraction. */
  function Truncate(v: real): int {
    if v >= 0.0 then v.Floor else -(-v).Floor
  }

  predicate InRange(t: PointType, v: Float) {
    match t
    case Int16Type => v.Finite? && -0x8000 <= Truncate(v.value) < 0x8000
    case Uint16Type => v.Finite? && 0 <= Truncate(v.value) < 0x1_0000
    case Int32Type => v.Finite? && -0x8000_0000 <= Truncate(v.value) < 0x8000_0000
    case Uint32Type => v.Finite? && 0 <= Truncate(v.value) < 0x1_0000_0000
    case _ => true
  }

  predicate OneRegister(t: PointType) {
    t.Int16Type? || t.Uint16Type?
  }

  predicate TwoRegisters(t: PointType) {
    t.Int32Type? || t.Uint32Type? || t.Float32Type?
  }

  function Word(f: FloatUnit, t: PointType, v: Float): uint16
    requires OneRegister(t)
  {
    if InRange(t, v) then Truncate(v.value) % 0x1_0000 else f.wild16(v)
  }

  function Long(f: FloatUnit, t: PointType, v: Float): uint32
    requires TwoRegisters(t)
  {
    if t.Float32Type? then f.bits(v)
    else if InRange(t, v) then Truncate(v.value) % 0x1_0000_0000
    else f.wild32(v)
  }

  function Signed(n: nat, half: nat): int {
    if n < half then n else n - 2 * half
  }

  function Quotient(p: PointConfig, value: real): real
    requires p.scale != 0.0
  {
    (value - p.offset) / p.scale
  }

  /** The raw value to write; dividing by a zero scale gives an infinity, or no number. */
  function Raw(p: PointConfig, value: real): Float {
    if p.scale != 0.0 then Finite(Quotient(p, value))
    else if value == p.offset then NotANumber
    else Infinite(value < p.offset)
  }

  /** A raw register value in engineering units. */
  function Scaled(p: PointConfig, raw: real): real {
    raw * p.scale + p.offset
  }

  // ---- Writing ----

  datatype WriteOutcome = Written | PointNotFound | UnsupportedType | ReadOnly | UnsupportedFunction | WrongType
                        | DeviceError

  /** Which points can be written at all. */
  function Permission(p: PointConfig): WriteOutcome {
    if p.functionCode == 1 then if p.dataType.BoolType? then Written else WrongType
    else if p.functionCode == 3 then
      if OneRegister(p.dataType) || TwoRegisters(p.dataType) then Written else UnsupportedType
    else if p.functionCode in {2, 4} then ReadOnly
    else UnsupportedFunction
  }

  /** The bytes that land in the point's registers. */
  function RegisterBytes(f: FloatUnit, p: PointConfig, value: real): (s: bytes)
    requires OneRegister(p.dataType) || TwoRegisters(p.dataType)
    ensures |s| == if OneRegister(p.dataType) then 2 else 4
  {
    if OneRegister(p.dataType) then PutBE(Word(f, p.dataType, Raw(p, value)), 2)
    else ByteOrderConversion(PutBE(Long(f, p.dataType, Raw(p, value)), 4), p.byteOrder)
  }

  /** The device after a write the point permits. */
  function AfterWrite(f: FloatUnit, p: PointConfig, value: real, d: Device): Device
    requires Permission(p).Written?
  {
    if p.functionCode == 1 then d.(coils := d.coils[p.address := Raw(p, value) != Finite(0.0)])
    else
      var s := RegisterBytes(f, p, value);
      d.(hr := StoreWords(d.hr, p.address, s, |s| / 2))
  }

  // ---- Polling ----

  datatype Polled = Skipped | Failed | NoValue | Panicked | Switch(on: bool) | Number(value: real)

  predicate Pollable(p: PointConfig) {
    !p.writeOnly && p.functionCode in {1, 2, 3, 4}
  }

  /** How many bytes a successful read of the point returns. */
  function ReplySize(p: PointConfig): nat {
    if p.functionCode in {1, 2} then (p.quantity + 7) / 8 else 2 * p.quantity
  }

  /** How many bytes the type indexes without a check. */
  function Needed(t: PointType): nat {
    match t
    case BoolType => 1
    case Int16Type => 2
    case Uint16Type => 2
    case Int32Type => 4
    case Uint32Type => 4
    case _ => 0
  }

  predicate Covered(p: PointConfig) {
    ReplySize(p) >= Needed(p.dataType)
  }

  /** Reading beyond the end of the bytes is a run-time panic; only float32 checks. */
  function ParsePointValue(f: FloatUnit, p: PointConfig, results: bytes): Polled {
    if |results| < Needed(p.dataType) then Panicked
    else
    match p.dataType
    case BoolType => Switch(results[0] != 0)
    case Int16Type => Number(Scaled(p, Signed(GetBE(results[..2]), 0x8000) as real))
    case Uint16Type => Number(Scaled(p, GetBE(results[..2]) as real))
    case Int32Type => Number(Scaled(p, Signed(GetBE(results[..4]), 0x8000_0000) as real))
    case Uint32Type => Number(Scaled(p, GetBE(results[..4]) as real))
    case Float32Type =>
      if |results| < 4 then NoValue
      else
        var converted := ByteOrderConversion(results[..4], p.byteOrder);
        Get4(converted);
        Number(Scaled(p, f.number(GetBE(converted))))
    case OtherType => NoValue
  }

  predicate CanRead<T>(p: PointConfig, data: map<uint16, T>, limit: nat) {
    1 <= p.quantity <= limit && forall i | 0 <= i < p.quantity :: At(p.address, i) in data
  }

  /** What a poll of one point yields, given the tables of the device. */
  ghost predicate PollsTo(f: FloatUnit, p: PointConfig, d: Device, r: Polled) {
    if !Pollable(p) then r == Skipped
    else if p.functionCode in {1, 2} then
      var data := if p.functionCode == 1 then d.coils else d.di;
      if !CanRead(p, data, 2000) then r == Failed
      else exists reply: bytes {:trigger IsBitsReply(reply, ToByte(p.functionCode), data, p.address, p.quantity)} ::
             IsBitsReply(reply, ToByte(p.functionCode), data, p.address, p.quantity) && |reply| >= 2
             && r == ParsePointValue(f, p, reply[2..])
    else
      var data := if p.functionCode == 3 then d.hr else d.ir;
      if !CanRead(p, data, 125) then r == Failed
      else r == ParsePointValue(f, p, WordBytes(data, p.address, p.quantity))
  }

  // ---- Requests ----

  function Request(fc: byte, a: uint16, b: uint16): (pdu: bytes)
    ensures |pdu| == 5
  {
    [fc] + PutBE(a, 2) + PutBE(b, 2)
  }

  lemma WordAtPut(s: bytes, i: nat, n: uint16)
    requires i + 2 <= |s| && s[i..i + 2] == PutBE(n, 2)
    ensures WordAt(s, i) == n
  {
    hide PutBE, GetBE;
    Powers();
    GetPutExact(n, 2);
  }

  lemma RequestFields(fc: byte, a: uint16, b: uint16, data: bytes)
    ensures var pdu := Request(fc, a, b) + data;
            pdu[0] == fc && WordAt(pdu, 1) == a && WordAt(pdu, 3) == b && pdu[..5] == Request(fc, a, b) && pdu[5..] == data
  {
    hide PutBE, WordAt;
    var pdu := Request(fc, a, b) + data;
    assert pdu[1..3] == PutBE(a, 2) && pdu[3..5] == PutBE(b, 2);
    WordAtPut(pdu, 1, a);
    WordAtPut(pdu, 3, b);
  }

  /** A write of two registers is always well formed. */
  lemma MultiWriteFields(a: uint16, s: bytes)
    requires |s| == 4
    ensures var pdu := Request(FC_WRITE_MULTIPLE_REGISTERS, a, 2) + [4] + s;
            pdu[0] == FC_WRITE_MULTIPLE_REGISTERS && MultiAccepted(pdu)
            && WordAt(pdu, 1) == a && WordAt(pdu, 3) == 2 && pdu[6..] == s
  {
    hide WordAt, Request;
    var pdu := Request(FC_WRITE_MULTIPLE_REGISTERS, a, 2) + [4] + s;
    assert pdu == Request(FC_WRITE_MULTIPLE_REGISTERS, a, 2) + ([4] + s);
    RequestFields(FC_WRITE_MULTIPLE_REGISTERS, a, 2, [4] + s);
    assert pdu[5] == 4;
  }

  // ---- The runtime ----

  datatype RuntimeState = Offline | Online | Degraded

  /** The points before the first one with the given name. */
  function FirstNamed(points: seq<PointConfig>, name: string): (i: nat)
    ensures i <= |points|
  {
    if points == [] || points[0].name == name then 0 else 1 + FirstNamed(points[1..], name)
  }

  lemma {:induction false} FirstNamedAt(points: seq<PointConfig>, name: string, i: nat)
    requires i <= |points| && (forall j | 0 <= j < i :: points[j].name != name)
    requires i < |points| ==> points[i].name == name
    ensures FirstNamed(points, name) == i
  {
    if i > 0 {
      FirstNamedAt(points[1..], name, i - 1);
    }
  }

  lemma FirstOfName(points: seq<PointConfig>, name: string)
    ensures var i := FirstNamed(points, name);
            && (i < |points| ==> points[i].name == name)
            && (forall j | 0 <= j < i :: points[j].name != name)
            && (i == |points| <==> forall p | p in points :: p.name != name)
  {
    if points != [] && points[0].name != name {
      FirstOfName(points[1..], name);
      assert points == [points[0]] + points[1..];
      var i := FirstNamed(points, name);
      forall j | 0 <= j < i
        ensures points[j].name != name
      {
        assert j > 0 ==> points[j] == points[1..][j - 1];
      }
    }
  }

  /** Readings are emitted for the points that yield a value, in order. */
  function Emitted(points: seq<PointConfig>, results: seq<Polled>): seq<(string, Polled)>
    requires |points| == |results|
  {
    if points == [] then []
    else
      var n := |points| - 1;
      Emitted(points[..n], results[..n])
      + if results[n].Switch? || results[n].Number? then [(points[n].name, results[n])] else []
  }

  class ModbusRuntime {
    const points: seq<PointConfig>
    const device: DeviceStore
    const floats: FloatUnit
    var state: RuntimeState

    constructor (points: seq<PointConfig>, device: DeviceStore, floats: FloatUnit)
      ensures this.points == points && this.device == device && this.floats == floats && state == Offline
    {
      this.points, this.device, this.floats, state := points, device, floats, Offline;
    }

    method FindPoint(name: string) returns (i: nat)
      ensures i == FirstNamed(points, name)
    {
      i := 0;
      while i < |points|
        invariant i <= |points| && forall j | 0 <= j < i :: points[j].name != name
      {
        if points[i].name == name {
          break;
        }
        i := i + 1;
      }
      FirstNamedAt(points, name, i);
    }

    /** Sends a request; an exception reply is an error. */
    method Send(pdu: bytes) returns (reply: bytes, err: bool)
      requires pdu != []
      modifies device
      ensures Processed(old(device.Contents()), pdu, device.Contents(), Payload.Some(reply))
      ensures err == (reply == [] || reply[0] != pdu[0])
    {
      var answer := device.ProcessPdu(pdu);
      match answer
      case Some(r) =>
        reply := r;
        err := reply == [] || reply[0] != pdu[0];
    }

    /** The registers end up with the bytes of the value exactly when the point permits a write. */
    method ExecuteWrite(name: string, value: real) returns (outcome: WriteOutcome)
      modifies device
      ensures var i := FirstNamed(points, name);
              if i == |points| then outcome == PointNotFound && device.Contents() == old(device.Contents())
              else outcome == Permission(points[i])
                   && device.Contents() == if outcome.Written? then AfterWrite(floats, points[i], value, old(device.Contents()))
                                           else old(device.Contents())
      ensures outcome == PointNotFound <==> forall p | p in points :: p.name != name
      ensures outcome != Written ==> device.Contents() == old(device.Contents())
      ensures outcome != DeviceError
      ensures forall i | 0 <= i < |points| && points[i].name == name && (forall j | 0 <= j < i :: points[j].name != name) ::
                var fc, t := points[i].functionCode, points[i].dataType;
                && (outcome == Written <==>
                      (fc == 1 && t.BoolType?)
                      || (fc == 3 && (t.Int16Type? || t.Uint16Type? || t.Int32Type? || t.Uint32Type? || t.Float32Type?)))
                && (outcome == ReadOnly <==> fc == 2 || fc == 4)
                && (outcome == WrongType <==> fc == 1 && !t.BoolType?)
                && (outcome == UnsupportedType <==> fc == 3 && (t.BoolType? || t.OtherType?))
                && (outcome == UnsupportedFunction <==> fc != 1 && fc != 2 && fc != 3 && fc != 4)
    {
      FirstOfName(points, name);
      hide FirstNamed;
      var i := FindPoint(name);
      if i == |points| {
        return PointNotFound;
      }
      var p := points[i];
      var writeFC: byte;
      if p.functionCode == 1 {
        writeFC := FC_WRITE_SINGLE_COIL;
      } else if p.functionCode == 3 {
        if OneRegister(p.dataType) {
          writeFC := FC_WRITE_SINGLE_REGISTER;
        } else if TwoRegisters(p.dataType) {
          writeFC := FC_WRITE_MULTIPLE_REGISTERS;
        } else {
          return UnsupportedType;
        }
      } else if p.functionCode == 2 || p.functionCode == 4 {
        return ReadOnly;
      } else {
        return UnsupportedFunction;
      }
      if writeFC == FC_WRITE_SINGLE_COIL && !p.dataType.BoolType? {
        return WrongType;
      }
      var raw := Raw(p, value);
      var err;
      if writeFC == FC_WRITE_SINGLE_COIL {
        err := WriteCoil(p.address, raw);
      } else if writeFC == FC_WRITE_SINGLE_REGISTER {
        err := WriteSingleReg(p.address, raw, p.dataType);
      } else {
        err := WriteMultiReg(p.address, raw, p.dataType, p.byteOrder);
      }
      outcome := if err then DeviceError else Written;
    }

    method WriteCoil(address: uint16, value: Float) returns (err: bool)
      modifies device
      ensures var d := old(device.Contents());
              !err && device.Contents() == d.(coils := d.coils[address := value != Finite(0.0)])
    {
      var coilValue := 0;
      if value != Finite(0.0) {
        coilValue := 0xFF00;
      }
      var reply;
      hide Request, WordAt, ReadRegsReply, AnswersReadBits, MultiAccepted, StoreWords;
      RequestFields(FC_WRITE_SINGLE_COIL, address, coilValue, []);
      assert Request(FC_WRITE_SINGLE_COIL, address, coilValue) + [] == Request(FC_WRITE_SINGLE_COIL, address, coilValue);
      reply, err := Send(Request(FC_WRITE_SINGLE_COIL, address, coilValue));
    }

    method WriteSingleReg(address: uint16, value: Float, t: PointType) returns (err: bool)
      requires OneRegister(t)
      modifies device
      ensures var d := old(device.Contents());
              !err && device.Contents() == d.(hr := StoreWords(d.hr, address, PutBE(Word(floats, t, value), 2), 1))
    {
      var regValue := Word(floats, t, value);
      var reply;
      hide Request, WordAt, ReadRegsReply, AnswersReadBits, MultiAccepted, StoreWords, PutBE;
      RequestFields(FC_WRITE_SINGLE_REGISTER, address, regValue, []);
      assert Request(FC_WRITE_SINGLE_REGISTER, address, regValue) + [] == Request(FC_WRITE_SINGLE_REGISTER, address, regValue);
      StoreOne(device.hr, address, regValue);
      reply, err := Send(Request(FC_WRITE_SINGLE_REGISTER, address, regValue));
    }

    method WriteMultiReg(address: uint16, value: Float, t: PointType, byteOrder: ByteOrder) returns (err: bool)
      requires TwoRegisters(t)
      modifies device
      ensures var d := old(device.Contents());
              var s := ByteOrderConversion(PutBE(Long(floats, t, value), 4), byteOrder);
              !err && device.Contents() == d.(hr := StoreWords(d.hr, address, s, 2))
    {
      var reply;
      hide Request, WordAt, ReadRegsReply, AnswersReadBits, MultiAccepted, StoreWords, PutBE, ByteOrderConversion, Long;
      var deviceBytes := ByteOrderConversion(PutBE(Long(floats, t, value), 4), byteOrder);
      MultiWriteFields(address, deviceBytes);
      reply, err := Send(Request(FC_WRITE_MULTIPLE_REGISTERS, address, 2) + [4] + deviceBytes);
    }

    method ReadPoint(p: PointConfig) returns (r: Polled)
      requires Pollable(p)
      modifies device
      ensures device.Contents() == old(device.Contents())
      ensures PollsTo(floats, p, device.Contents(), r)
    {
      var fc := ToByte(p.functionCode);
      var reply, err := Send(Request(fc, p.address, p.quantity));
      ReadReply(floats, old(device.Contents()), p, device.Contents(), reply);
      if err {
        return Failed;
      }
      r := ParsePointValue(floats, p, reply[2..]);
    }

    /** Polls the points in order; a panic stops everything at its point. */
    method PollOnce() returns (readings: seq<(string, Polled)>, panicked: bool, ghost results: seq<Polled>)
      modifies this`state, device
      ensures device.Contents() == old(device.Contents())
      ensures |results| <= |points| && AllPolled(floats, points[..|results|], device.Contents(), results)
      ensures readings == Emitted(points[..|results|], results)
      ensures if panicked then |results| < |points| && PollsTo(floats, points[|results|], device.Contents(), Panicked)
              else |results| == |points|
      ensures state == if panicked then old(state) else if Failed in results then Degraded else Online
    {
      var hadError := false;
      readings, results, panicked := [], [], false;
      ghost var d := device.Contents();
      NothingPolled(floats, points, d);
      hide *;
      for k := 0 to |points|
        invariant device.Contents() == d && state == old(state)
        invariant |results| == k && AllPolled(floats, points[..k], d, results)
        invariant readings == Emitted(points[..k], results)
        invariant hadError == (Failed in results)
      {
        var p := points[k];
        var r := Skipped;
        SkippedPoint(floats, p, d);
        if Pollable(p) {
          r := ReadPoint(p);
        }
        if r.Panicked? {
          panicked := true;
          return;
        }
        if r.Failed? {
          hadError := true;
        } else if r.Switch? || r.Number? {
          readings := readings + [(p.name, r)];
        }
        PolledMore(floats, points, k, d, results, r);
        results := results + [r];
      }
      state := if hadError then Degraded else Online;
    }
  }

  /** Exactly when a poll panics: the point is read, and its type needs more bytes than come back. */
  lemma PollPanicsIff(f: FloatUnit, p: PointConfig, d: Device, r: Polled)
    requires PollsTo(f, p, d, r)
    ensures r == Panicked <==>
            Pollable(p) && !Covered(p)
            && (p.functionCode == 1 ==> CanRead(p, d.coils, 2000)) && (p.functionCode == 2 ==> CanRead(p, d.di, 2000))
            && (p.functionCode == 3 ==> CanRead(p, d.hr, 125)) && (p.functionCode == 4 ==> CanRead(p, d.ir, 125))
  {
    hide At, Needed;
    if Pollable(p) && p.functionCode in {1, 2} {
      var data := if p.functionCode == 1 then d.coils else d.di;
      if CanRead(p, data, 2000) {
        var reply :| IsBitsReply(reply, ToByte(p.functionCode), data, p.address, p.quantity) && |reply| >= 2
                     && r == ParsePointValue(f, p, reply[2..]);
        ReplyLength(reply, ToByte(p.functionCode), data, p.address, p.quantity);
      }
    }
  }

  lemma ReplyLength(reply: bytes, fc: byte, data: Flags, addr: uint16, qty: nat)
    requires IsBitsReply(reply, fc, data, addr, qty)
    ensures |reply| == 2 + (qty + 7) / 8
  {}

  /** Every point with what its poll yields. */
  ghost predicate AllPolled(f: FloatUnit, points: seq<PointConfig>, d: Device, results: seq<Polled>) {
    && |results| == |points|
    && forall i | 0 <= i < |points| :: results[i] != Panicked && PollsTo(f, points[i], d, results[i])
  }

  lemma NothingPolled(f: FloatUnit, points: seq<PointConfig>, d: Device)
    ensures AllPolled(f, points[..0], d, []) && Emitted(points[..0], []) == []
  {}

  lemma PolledMore(f: FloatUnit, points: seq<PointConfig>, k: nat, d: Device, results: seq<Polled>, r: Polled)
    requires k < |points| && AllPolled(f, points[..k], d, results)
    requires r != Panicked && PollsTo(f, points[k], d, r)
    ensures AllPolled(f, points[..k + 1], d, results + [r])
    ensures Emitted(points[..k + 1], results + [r]) ==
            Emitted(points[..k], results) + if r.Switch? || r.Number? then [(points[k].name, r)] else []
    ensures Failed in results + [r] <==> Failed in results || r == Failed
  {
    hide PollsTo;
    assert points[..k + 1][..k] == points[..k] && (results + [r])[..k] == results;
  }

  lemma SkippedPoint(f: FloatUnit, p: PointConfig, d: Device)
    ensures !Pollable(p) ==> PollsTo(f, p, d, Skipped)
  {}

  lemma ReadCodes(p: PointConfig)
    requires Pollable(p)
    ensures var fc := ToByte(p.functionCode);
            && (p.functionCode == 1 ==> fc == FC_READ_COILS) && (p.functionCode == 2 ==> fc == FC_READ_DISCRETE_INPUTS)
            && (p.functionCode == 3 ==> fc == FC_READ_HOLDING_REGISTERS)
            && (p.functionCode == 4 ==> fc == FC_READ_INPUT_REGISTERS)
            && Exception(fc, 2)[0] != fc && Exception(fc, 3)[0] != fc
  {
    ToByteExact(1, 1);
    ToByteExact(2, 2);
    ToByteExact(3, 3);
    ToByteExact(4, 4);
  }

  lemma RegsReply(f: FloatUnit, p: PointConfig, data: Words, fc: byte)
    requires Exception(fc, 2)[0] != fc && Exception(fc, 3)[0] != fc
    ensures var reply := ReadRegsReply(data, Request(fc, p.address, p.quantity));
            if CanRead(p, data, 125) then |reply| == 2 + 2 * p.quantity && reply[0] == fc && reply[2..] == WordBytes(data, p.address, p.quantity)
            else reply != [] && reply[0] != fc
  {
    hide Request, WordAt, ToByte, At, WordBytes;
    var pdu := Request(fc, p.address, p.quantity);
    RequestFields(fc, p.address, p.quantity, []);
    assert pdu + [] == pdu;
  }

  lemma BitsReply(p: PointConfig, data: Flags, fc: byte, reply: bytes)
    requires Exception(fc, 2)[0] != fc && Exception(fc, 3)[0] != fc
    requires AnswersReadBits(data, Request(fc, p.address, p.quantity), reply)
    ensures if CanRead(p, data, 2000) then IsBitsReply(reply, fc, data, p.address, p.quantity)
            else reply != [] && reply[0] != fc
  {
    hide Request, WordAt, ToByte, At, IsBitsReply;
    var pdu := Request(fc, p.address, p.quantity);
    RequestFields(fc, p.address, p.quantity, []);
    assert pdu + [] == pdu;
  }

  /** What the simulator answers to a read request is what the poll of the point makes of it. */
  lemma ReadReply(f: FloatUnit, d: Device, p: PointConfig, d': Device, reply: bytes)
    requires Pollable(p)
    requires Processed(d, Request(ToByte(p.functionCode), p.address, p.quantity), d', Payload.Some(reply))
    ensures d' == d && reply != []
    ensures if reply[0] != ToByte(p.functionCode) then PollsTo(f, p, d, Failed)
            else |reply| == 2 + ReplySize(p) && PollsTo(f, p, d, ParsePointValue(f, p, reply[2..]))
  {
    var fc := ToByte(p.functionCode);
    ReadCodes(p);
    hide ToByte, ReadRegsReply, AnswersReadBits, ParsePointValue, CanRead, WordAt, StoreWords, MultiAccepted;
    if p.functionCode == 1 {
      BitsReply(p, d.coils, fc, reply);
    } else if p.functionCode == 2 {
      BitsReply(p, d.di, fc, reply);
    } else if p.functionCode == 3 {
      RegsReply(f, p, d.hr, fc);
    } else {
      RegsReply(f, p, d.ir, fc);
    }
  }

  lemma StoreOne(hr: Words, address: uint16, n: uint16)
    ensures StoreWords(hr, address, PutBE(n, 2), 1) == hr[address := n]
  {
    var s := PutBE(n, 2);
    assert s[0..2] == s;
    hide PutBE, WordAt;
    WordAtPut(s, 0, n);
    assert StoreWords(hr, address, s, 0) == hr;
    assert At(address, 0) == address;
  }
}
