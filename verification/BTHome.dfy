/** The BTHome v2 decoder of the Shelly script, with an encoder to state what it decodes. */
module BTHome {
  import opened Names
  import opened Bits

  type Byte = b: int | 0 <= b < 256

  datatype Kind = Uint8 | Int8 | Uint16 | Int16 | Uint24 | Int24

  /** One row of the object table; readings with a factor are multiplied by it. */
  datatype Def = Def(name: string, kind: Kind, factor: Option<real>)

  type Table = map<Byte, Def>

  const BTH: Table := map[
    0x00 := Def("pid", Uint8, None),
    0x01 := Def("battery", Uint8, None),
    0x02 := Def("temperature", Int16, Some(0.01)),
    0x03 := Def("humidity", Uint16, Some(0.01)),
    0x05 := Def("illuminance", Uint24, Some(0.01)),
    0x21 := Def("motion", Uint8, None),
    0x2c := Def("vibration", Uint8, None),
    0x2d := Def("window", Uint8, None),
    0x2e := Def("humidity", Uint8, None),
    0x3a := Def("button", Uint8, None),
    0x3f := Def("rotation", Int16, Some(0.1)),
    0x40 := Def("distance_mm", Uint16, None),
    0x45 := Def("temperature", Int16, Some(0.1))]

  function ByteSize(kind: Kind): nat {
    match kind
    case Uint8 => 1
    case Int8 => 1
    case Uint16 => 2
    case Int16 => 2
    case Uint24 => 3
    case Int24 => 3
  }

  predicate Signed(kind: Kind) {
    kind.Int8? || kind.Int16? || kind.Int24?
  }

  function Width(kind: Kind): int {
    match ByteSize(kind)
    case 1 => 0x100
    case 2 => 0x1_0000
    case _ => 0x100_0000
  }

  // ---------------------------------------------------------------------------------------------
  // Reading one value
  // ---------------------------------------------------------------------------------------------

  /** The script's readers, with its masks and shifts. */
  function GetUInt16LE(buffer: seq<Byte>): nat
    requires |buffer| >= 2
  {
    And(0xffff, Or(ShiftLeft(buffer[1], 8), buffer[0]))
  }

  function GetUInt24LE(buffer: seq<Byte>): nat
    requires |buffer| >= 3
  {
    And(0x00ffffff, Or(Or(ShiftLeft(buffer[2], 16), ShiftLeft(buffer[1], 8)), buffer[0]))
  }

  function Utoi(num: nat, bits: nat): int
    requires bits > 0
  {
    var mask := ShiftLeft(1, bits - 1);
    if And(num, mask) != 0 then num - ShiftLeft(1, bits) else num
  }

  function GetBufValue(kind: Kind, buffer: seq<Byte>): Option<int> {
    if |buffer| < ByteSize(kind) then None
    else
      match kind
      case Uint8 => Some(buffer[0])
      case Int8 => Some(Utoi(buffer[0], 8))
      case Uint16 => Some(GetUInt16LE(buffer))
      case Int16 => Some(Utoi(GetUInt16LE(buffer), 16))
      case Uint24 => Some(GetUInt24LE(buffer))
      case Int24 => Some(Utoi(GetUInt24LE(buffer), 24))
  }

  /** The same in arithmetic: positional notation and two's complement. */
  function ReadUnsigned(kind: Kind, buffer: seq<Byte>): int
    requires |buffer| >= ByteSize(kind)
  {
    var low: int := buffer[0];
    if ByteSize(kind) == 1 then low
    else
      var mid: int := buffer[1];
      if ByteSize(kind) == 2 then mid * 256 + low
      else
        var high: int := buffer[2];
        high * 65536 + mid * 256 + low
  }

  function ToSigned(num: int, width: int): int {
    if num >= width / 2 then num - width else num
  }

  function ReadValue(kind: Kind, buffer: seq<Byte>): Option<int> {
    if |buffer| < ByteSize(kind) then None
    else if Signed(kind) then Some(ToSigned(ReadUnsigned(kind, buffer), Width(kind)))
    else Some(ReadUnsigned(kind, buffer))
  }

  lemma LowByte(upper: nat, b0: Byte)
    ensures Or(ShiftLeft(upper, 8), b0) == upper * 256 + b0
  {
    Powers();
    ShiftScales(upper, 8);
    OrAdds(upper, 8, b0);
  }

  lemma Masked16(v: nat)
    requires v < 0x1_0000
    ensures And(0xffff, v) == v
  {
    Powers();
    MaskKeeps(16, v);
  }

  lemma Masked24(v: nat)
    requires v < 0x100_0000
    ensures And(0x00ffffff, v) == v
  {
    Powers();
    MaskKeeps(24, v);
  }

  lemma TwoBytes(b0: Byte, b1: Byte)
    ensures And(0xffff, Or(ShiftLeft(b1, 8), b0)) == b1 * 256 + b0
  {
    LowByte(b1, b0);
    Masked16(b1 * 256 + b0);
  }

  lemma UpperBytes(b1: Byte, b2: Byte)
    ensures Or(ShiftLeft(b2, 16), ShiftLeft(b1, 8)) == ShiftLeft(b2 * 256 + b1, 8)
  {
    Powers();
    ShiftScales(b1, 8);
    OrAdds(b2, 16, ShiftLeft(b1, 8));
    ShiftScales(b2, 16);
    ShiftScales(b2 * 256 + b1, 8);
  }

  lemma ThreeBytes(b0: Byte, b1: Byte, b2: Byte)
    ensures And(0x00ffffff, Or(Or(ShiftLeft(b2, 16), ShiftLeft(b1, 8)), b0)) == b2 * 65536 + b1 * 256 + b0
  {
    UpperBytes(b1, b2);
    LowByte(b2 * 256 + b1, b0);
    Masked24((b2 * 256 + b1) * 256 + b0);
  }

  lemma SignBit(num: nat, bits: nat)
    requires bits > 0 && num < Pow2(bits)
    ensures Utoi(num, bits) == ToSigned(num, Pow2(bits))
  {
    HighestBit(num, bits - 1);
    assert Pow2(bits) == 2 * Pow2(bits - 1);
  }

  lemma SignedBytes(num: nat, bytes: nat)
    requires 1 <= bytes <= 3 && num < Pow2(8 * bytes)
    ensures Pow2(8 * bytes) == (if bytes == 1 then 0x100 else if bytes == 2 then 0x1_0000 else 0x100_0000)
    ensures Utoi(num, 8 * bytes) == ToSigned(num, Pow2(8 * bytes))
  {
    Powers();
    SignBit(num, 8 * bytes);
  }

  /** The masks and shifts compute positional notation and two's complement, for every kind and buffer. */
  lemma BitsAreArithmetic(kind: Kind, buffer: seq<Byte>)
    ensures GetBufValue(kind, buffer) == ReadValue(kind, buffer)
  {
    if |buffer| >= ByteSize(kind) {
      Powers();
      match ByteSize(kind)
      case 1 => SignedBytes(buffer[0], 1);
      case 2 =>
        TwoBytes(buffer[0], buffer[1]);
        SignedBytes(GetUInt16LE(buffer), 2);
      case _ =>
        ThreeBytes(buffer[0], buffer[1], buffer[2]);
        SignedBytes(GetUInt24LE(buffer), 3);
    }
  }

  /** The information byte: the lowest bit, and the three highest. */
  lemma InformationByte(b: Byte)
    ensures (And(b, 1) != 0 <==> b % 2 == 1) && ShiftRight(b, 5) == b / 32
  {
    assert ShiftRight(b, 1) == b / 2;
    assert ShiftRight(b, 2) == b / 2 / 2;
    assert ShiftRight(b, 4) == ShiftRight(b, 2) / 2 / 2;
    assert ShiftRight(b, 5) == ShiftRight(b, 4) / 2;
  }

  predicate InRange(kind: Kind, v: int) {
    if Signed(kind) then -Width(kind) / 2 <= v < Width(kind) / 2 else 0 <= v < Width(kind)
  }

  /** Two's complement, little-endian. */
  function WriteValue(kind: Kind, v: int): (bytes: seq<Byte>)
    requires InRange(kind, v)
    ensures |bytes| == ByteSize(kind)
  {
    var u := if v < 0 then v + Width(kind) else v;
    match ByteSize(kind)
    case 1 => [u]
    case 2 => [u % 256, u / 256]
    case _ => [u % 256, u / 256 % 256, u / 65536]
  }

  lemma ReadWritten(kind: Kind, v: int)
    requires InRange(kind, v)
    ensures ReadValue(kind, WriteValue(kind, v)) == Some(v)
  {
    var u := if v < 0 then v + Width(kind) else v;
    match ByteSize(kind)
    case 1 => assert ReadUnsigned(kind, WriteValue(kind, v)) == u;
    case 2 => assert ReadUnsigned(kind, WriteValue(kind, v)) == u;
    case _ =>
      assert u / 65536 == u / 256 / 256;
      assert ReadUnsigned(kind, WriteValue(kind, v)) == u;
  }

  lemma ReadWrite(kind: Kind, v: int, rest: seq<Byte>)
    requires InRange(kind, v)
    ensures ReadValue(kind, WriteValue(kind, v) + rest) == Some(v)
  {
    ReadWritten(kind, v);
    ReadPrefix(kind, WriteValue(kind, v), rest);
  }

  lemma ReadPrefix(kind: Kind, bytes: seq<Byte>, rest: seq<Byte>)
    requires |bytes| == ByteSize(kind)
    ensures ReadValue(kind, bytes + rest) == ReadValue(kind, bytes)
  {
    var buffer := bytes + rest;
    assert buffer[0] == bytes[0];
    assert |bytes| > 1 ==> buffer[1] == bytes[1];
    assert |bytes| > 2 ==> buffer[2] == bytes[2];
  }

  lemma Digits(b0: int, b1: int, b2: int)
    requires 0 <= b0 < 256 && 0 <= b1 < 256 && 0 <= b2 < 256
    ensures var u := b2 * 65536 + b1 * 256 + b0;
            u % 256 == b0 && u / 256 == b2 * 256 + b1 && u / 256 % 256 == b1 && u / 65536 == b2
  {
    assert b2 * 65536 + b1 * 256 + b0 == 256 * (b2 * 256 + b1) + b0;
    assert (b2 * 256 + b1) % 256 == b1 && (b2 * 256 + b1) / 256 == b2;
  }

  lemma WriteRead(kind: Kind, buffer: seq<Byte>)
    requires |buffer| >= ByteSize(kind)
    ensures var v := ReadValue(kind, buffer).value;
            InRange(kind, v) && WriteValue(kind, v) == buffer[..ByteSize(kind)]
  {
    if |buffer| >= 2 { Digits(buffer[0], buffer[1], 0); }
    if |buffer| >= 3 { Digits(buffer[0], buffer[1], buffer[2]); }
  }

  // ---------------------------------------------------------------------------------------------
  // What a buffer holds
  // ---------------------------------------------------------------------------------------------

  datatype Object = Object(id: Byte, raw: int)

  predicate Encodable(t: Table, o: Object) {
    o.id in t && InRange(t[o.id].kind, o.raw)
  }

  predicate AllEncodable(t: Table, objects: seq<Object>) {
    forall i :: 0 <= i < |objects| ==> Encodable(t, objects[i])
  }

  function EncodeOne(t: Table, o: Object): seq<Byte>
    requires Encodable(t, o)
  {
    [o.id] + WriteValue(t[o.id].kind, o.raw)
  }

  function Encode(t: Table, objects: seq<Object>): seq<Byte>
    requires AllEncodable(t, objects)
  {
    if objects == [] then [] else EncodeOne(t, objects[0]) + Encode(t, objects[1..])
  }

  /** The buffer is used up, its first byte is an unknown id, or the value after it is cut short. */
  predicate Stuck(t: Table, buffer: seq<Byte>) {
    buffer == [] || buffer[0] !in t || |buffer| - 1 < ByteSize(t[buffer[0]].kind)
  }

  function FirstObject(t: Table, buffer: seq<Byte>): Object
    requires !Stuck(t, buffer)
  {
    Object(buffer[0], ReadValue(t[buffer[0]].kind, buffer[1..]).value)
  }

  function AfterFirst(t: Table, buffer: seq<Byte>): seq<Byte>
    requires !Stuck(t, buffer)
  {
    buffer[1..][ByteSize(t[buffer[0]].kind)..]
  }

  function Objects(t: Table, buffer: seq<Byte>): seq<Object>
    decreases |buffer|
  {
    if Stuck(t, buffer) then [] else [FirstObject(t, buffer)] + Objects(t, AfterFirst(t, buffer))
  }

  lemma FirstEncodes(t: Table, buffer: seq<Byte>)
    requires !Stuck(t, buffer)
    ensures Encodable(t, FirstObject(t, buffer))
    ensures buffer == EncodeOne(t, FirstObject(t, buffer)) + AfterFirst(t, buffer)
  {
    WriteRead(t[buffer[0]].kind, buffer[1..]);
  }

  lemma EncodedFirst(t: Table, o: Object, tail: seq<Byte>)
    requires Encodable(t, o)
    ensures var buffer := EncodeOne(t, o) + tail;
            !Stuck(t, buffer) && FirstObject(t, buffer) == o && AfterFirst(t, buffer) == tail
  {
    var buffer := EncodeOne(t, o) + tail;
    assert buffer[1..] == WriteValue(t[o.id].kind, o.raw) + tail;
    ReadWrite(t[o.id].kind, o.raw, tail);
  }

  lemma EncodedObjects(t: Table, o: Object, tail: seq<Byte>)
    requires Encodable(t, o)
    ensures Objects(t, EncodeOne(t, o) + tail) == [o] + Objects(t, tail)
  {
    EncodedFirst(t, o, tail);
  }

  function Rest(t: Table, buffer: seq<Byte>): seq<Byte>
    decreases |buffer|
  {
    if Stuck(t, buffer) then buffer else Rest(t, AfterFirst(t, buffer))
  }

  /** The objects read are a prefix of the buffer, and nothing more of it can be read. */
  lemma {:induction false} ObjectsAreAPrefix(t: Table, buffer: seq<Byte>)
    ensures AllEncodable(t, Objects(t, buffer))
    ensures buffer == Encode(t, Objects(t, buffer)) + Rest(t, buffer) && Stuck(t, Rest(t, buffer))
    decreases |buffer|
  {
    if !Stuck(t, buffer) {
      var rest := AfterFirst(t, buffer);
      ObjectsAreAPrefix(t, rest);
      FirstEncodes(t, buffer);
      EncodeMore(t, FirstObject(t, buffer), Objects(t, rest), Rest(t, rest));
    }
  }

  lemma EncodeMore(t: Table, o: Object, objects: seq<Object>, tail: seq<Byte>)
    requires Encodable(t, o) && AllEncodable(t, objects)
    ensures AllEncodable(t, [o] + objects)
    ensures Encode(t, [o] + objects) + tail == EncodeOne(t, o) + (Encode(t, objects) + tail)
  {
    assert ([o] + objects)[1..] == objects;
  }

  lemma EncodeNext(t: Table, objects: seq<Object>, tail: seq<Byte>)
    requires AllEncodable(t, objects) && objects != []
    ensures Encode(t, objects) + tail == EncodeOne(t, objects[0]) + (Encode(t, objects[1..]) + tail)
  {
  }

  /** Reading gets back what was encoded, and goes on with what follows. */
  lemma {:induction false} ReadsWhatWasEncoded(t: Table, objects: seq<Object>, tail: seq<Byte>)
    requires AllEncodable(t, objects)
    ensures Objects(t, Encode(t, objects) + tail) == objects + Objects(t, tail)
  {
    if objects == [] {
      assert [] + tail == tail;
    } else {
      ReadsWhatWasEncoded(t, objects[1..], tail);
      EncodeNext(t, objects, tail);
      EncodedObjects(t, objects[0], Encode(t, objects[1..]) + tail);
      ConsAppend(objects, Objects(t, tail));
    }
  }

  lemma ConsAppend(a: seq<Object>, b: seq<Object>)
    requires a != []
    ensures [a[0]] + (a[1..] + b) == a + b
  {
  }

  /** No longer run of whole known objects starts the buffer. */
  lemma ObjectsAreTheLongest(t: Table, buffer: seq<Byte>, objects: seq<Object>)
    requires AllEncodable(t, objects) && Encode(t, objects) <= buffer
    ensures objects <= Objects(t, buffer)
  {
    var tail := buffer[|Encode(t, objects)|..];
    assert buffer == Encode(t, objects) + tail;
    ReadsWhatWasEncoded(t, objects, tail);
  }

  // ---------------------------------------------------------------------------------------------
  // Unpacking
  // ---------------------------------------------------------------------------------------------

  /** A field of the result: a number, or an array once its name has come up again. */
  datatype Field = One(v: real) | Many(vs: seq<real>)

  datatype Packet = Packet(encryption: bool, version: int, fields: map<string, Field>)

  function Scaled(raw: int, factor: Option<real>): real {
    match factor
    case None => raw as real
    case Some(f) => raw as real * f
  }

  /** All readings of the objects called name, in order. */
  function Readings(t: Table, objects: seq<Object>, name: string): seq<real>
    requires AllEncodable(t, objects)
  {
    if objects == [] then []
    else
      var def := t[objects[0].id];
      (if def.name == name then [Scaled(objects[0].raw, def.factor)] else []) + Readings(t, objects[1..], name)
  }

  function Shape(readings: seq<real>): Option<Field> {
    if readings == [] then None
    else if |readings| == 1 then Some(One(readings[0]))
    else Some(Many(readings))
  }

  /** Every name has all its readings, a number for one and an array for more, and nothing else is there. */
  ghost predicate Collects(t: Table, fields: map<string, Field>, objects: seq<Object>)
    requires AllEncodable(t, objects)
  {
    forall name :: Lookup(fields, name) == Shape(Readings(t, objects, name))
  }

  method AddReading(fields: map<string, Field>, name: string, v: real, ghost before: seq<real>)
    returns (fields': map<string, Field>)
    requires Lookup(fields, name) == Shape(before)
    ensures Lookup(fields', name) == Shape(before + [v])
    ensures forall k :: k != name ==> Lookup(fields', k) == Lookup(fields, k)
  {
    assert before == [] ==> before + [v] == [v];
    if name !in fields {
      fields' := fields[name := One(v)];
    } else if fields[name].Many? {
      fields' := fields[name := Many(fields[name].vs + [v])];
    } else {
      assert before + [v] == [fields[name].v, v];
      fields' := fields[name := Many([fields[name].v, v])];
    }
  }

  lemma {:induction false} ReadingsAppend(t: Table, objects: seq<Object>, o: Object, name: string)
    requires AllEncodable(t, objects) && Encodable(t, o)
    ensures AllEncodable(t, objects + [o])
    ensures Readings(t, objects + [o], name) ==
            Readings(t, objects, name) + if t[o.id].name == name then [Scaled(o.raw, t[o.id].factor)] else []
  {
    if objects == [] {
      assert [] + [o] == [o] && [o][1..] == [];
    } else {
      assert (objects + [o])[1..] == objects[1..] + [o];
      ReadingsAppend(t, objects[1..], o, name);
    }
  }

  lemma CollectOneMore(t: Table, fields: map<string, Field>, objects: seq<Object>, o: Object, fields': map<string, Field>)
    requires AllEncodable(t, objects) && Encodable(t, o) && Collects(t, fields, objects)
    requires Lookup(fields', t[o.id].name) == Shape(Readings(t, objects, t[o.id].name) + [Scaled(o.raw, t[o.id].factor)])
    requires forall k :: k != t[o.id].name ==> Lookup(fields', k) == Lookup(fields, k)
    ensures AllEncodable(t, objects + [o]) && Collects(t, fields', objects + [o])
  {
    forall name ensures Lookup(fields', name) == Shape(Readings(t, objects + [o], name)) {
      ReadingsAppend(t, objects, o, name);
      assert Lookup(fields, name) == Shape(Readings(t, objects, name));
      assert Readings(t, objects, name) + [] == Readings(t, objects, name);
    }
  }

  /** The fields so far are those of the objects done, and the rest of the objects are in the buffer. */
  ghost predicate Progress(t: Table, data: seq<Byte>, done: seq<Object>, buffer: seq<Byte>, fields: map<string, Field>) {
    AllEncodable(t, done) && Collects(t, fields, done) && done + Objects(t, buffer) == Objects(t, data)
  }

  lemma Reassociate(a: seq<Object>, o: Object, b: seq<Object>)
    ensures a + ([o] + b) == a + [o] + b
  {
  }

  lemma ProgressStep(t: Table, data: seq<Byte>, done: seq<Object>, buffer: seq<Byte>, fields: map<string, Field>,
                     fields': map<string, Field>)
    requires Progress(t, data, done, buffer, fields) && !Stuck(t, buffer)
    requires var o := FirstObject(t, buffer);
             && Lookup(fields', t[o.id].name) == Shape(Readings(t, done, t[o.id].name) + [Scaled(o.raw, t[o.id].factor)])
             && forall k :: k != t[o.id].name ==> Lookup(fields', k) == Lookup(fields, k)
    ensures Progress(t, data, done + [FirstObject(t, buffer)], AfterFirst(t, buffer), fields')
  {
    var o, rest := FirstObject(t, buffer), Objects(t, AfterFirst(t, buffer));
    assert Encodable(t, o) by { FirstEncodes(t, buffer); }
    CollectOneMore(t, fields, done, o, fields');
    Reassociate(done, o, rest);
  }

  /**
   * The result is absent unless the packet is version 2, bare if it is encrypted, and otherwise has
   * exactly the readings of the longest run of whole known objects after the information byte.
   */
  ghost predicate Unpacked(t: Table, data: seq<Byte>, result: Option<Packet>) {
    && (result.None? <==> data == [] || data[0] / 32 != 2)
    && (result.Some? ==>
          && result.value.version == 2 && (result.value.encryption <==> data[0] % 2 == 1)
          && if result.value.encryption then result.value.fields == map[]
             else AllEncodable(t, Objects(t, data[1..])) && Collects(t, result.value.fields, Objects(t, data[1..])))
  }

  method UnpackFields(t: Table, data: seq<Byte>) returns (fields: map<string, Field>)
    ensures AllEncodable(t, Objects(t, data)) && Collects(t, fields, Objects(t, data))
  {
    var buffer := data;
    fields := map[];
    ghost var done: seq<Object> := [];
    while buffer != []
      invariant Progress(t, data, done, buffer, fields)
      decreases |buffer|
    {
      var id := buffer[0];
      if id !in t { break; }
      var rest := buffer[1..];
      var value := GetBufValue(t[id].kind, rest);
      BitsAreArithmetic(t[id].kind, rest);
      if value.None? { break; }
      ghost var before := fields;
      fields := AddReading(fields, t[id].name, Scaled(value.value, t[id].factor), Readings(t, done, t[id].name));
      ProgressStep(t, data, done, buffer, before, fields);
      done := done + [FirstObject(t, buffer)];
      buffer := rest[ByteSize(t[id].kind)..];
    }
    assert done + [] == done;
  }

  method Unpack(data: seq<Byte>) returns (result: Option<Packet>)
    ensures Unpacked(BTH, data, result)
  {
    if data == [] { return None; }
    var encryption, version := And(data[0], 0x1) != 0, ShiftRight(data[0], 5);
    InformationByte(data[0]);
    if version != 2 { return None; }
    if encryption { return Some(Packet(true, version, map[])); }
    var fields := UnpackFields(BTH, data[1..]);
    return Some(Packet(false, version, fields));
  }

  /** The information byte of an unencrypted version 2 packet. */
  const PLAIN: Byte := 0x40

  /** Round trip: unpacking an encoded packet gives exactly the readings that were encoded. */
  lemma UnpackEncoded(t: Table, objects: seq<Object>, result: Option<Packet>)
    requires AllEncodable(t, objects)
    requires Unpacked(t, [PLAIN] + Encode(t, objects), result)
    ensures result.Some? && !result.value.encryption && Collects(t, result.value.fields, objects)
  {
    assert ([PLAIN] + Encode(t, objects))[1..] == Encode(t, objects) + [];
    ReadsWhatWasEncoded(t, objects, []);
    assert objects + [] == objects;
  }

  /** A packet with one object gives that object's name and scaled value, and nothing else. */
  lemma UnpackOne(t: Table, id: Byte, bytes: seq<Byte>, result: Option<Packet>)
    requires id in t && |bytes| == ByteSize(t[id].kind) && Unpacked(t, [PLAIN, id] + bytes, result)
    ensures result.Some?
    ensures forall name :: Lookup(result.value.fields, name) ==
              if name == t[id].name then Some(One(Scaled(ReadValue(t[id].kind, bytes).value, t[id].factor))) else None
  {
    var data := [PLAIN, id] + bytes;
    var o := Object(id, ReadValue(t[id].kind, bytes).value);
    OneObject(t, id, bytes);
    assert data[1..] == [id] + bytes && data[0] == PLAIN;
    forall name ensures Readings(t, [o], name) == if name == t[id].name then [Scaled(o.raw, t[id].factor)] else [] {
      assert [o][1..] == [];
    }
    assert forall name :: Lookup(result.value.fields, name) == Shape(Readings(t, [o], name));
  }

  lemma OneObject(t: Table, id: Byte, bytes: seq<Byte>)
    requires id in t && |bytes| == ByteSize(t[id].kind)
    ensures AllEncodable(t, [Object(id, ReadValue(t[id].kind, bytes).value)])
    ensures Objects(t, [id] + bytes) == [Object(id, ReadValue(t[id].kind, bytes).value)]
  {
    var buffer := [id] + bytes;
    assert buffer[1..] == bytes && bytes[|bytes|..] == [];
    assert !Stuck(t, buffer) && AfterFirst(t, buffer) == [];
    FirstEncodes(t, buffer);
    assert Objects(t, []) == [];
  }

  function Unsigned(bytes: seq<Byte>): int {
    if bytes == [] then 0 else bytes[0] + 256 * Unsigned(bytes[1..])
  }

  function Signed16(bytes: seq<Byte>): int {
    if Unsigned(bytes) >= 0x8000 then Unsigned(bytes) - 0x1_0000 else Unsigned(bytes)
  }

  /** The objects that the script knows: length, name, and what the bytes mean. */
  function Meaning(id: Byte, bytes: seq<Byte>): Option<(nat, string, real)> {
    var plain, signed := Unsigned(bytes) as real, Signed16(bytes) as real;
    match id
    case 0x00 => Some((1, "pid", plain))
    case 0x01 => Some((1, "battery", plain))
    case 0x02 => Some((2, "temperature", signed * 0.01))
    case 0x03 => Some((2, "humidity", plain * 0.01))
    case 0x05 => Some((3, "illuminance", plain * 0.01))
    case 0x21 => Some((1, "motion", plain))
    case 0x2c => Some((1, "vibration", plain))
    case 0x2d => Some((1, "window", plain))
    case 0x2e => Some((1, "humidity", plain))
    case 0x3a => Some((1, "button", plain))
    case 0x3f => Some((2, "rotation", signed * 0.1))
    case 0x40 => Some((2, "distance_mm", plain))
    case 0x45 => Some((2, "temperature", signed * 0.1))
    case _ => None
  }

  lemma UnsignedIs(kind: Kind, bytes: seq<Byte>)
    requires |bytes| == ByteSize(kind)
    ensures Unsigned(bytes) == ReadUnsigned(kind, bytes)
  {
    assert Unsigned(bytes) == bytes[0] + 256 * Unsigned(bytes[1..]);
    if |bytes| > 1 {
      assert Unsigned(bytes[1..]) == bytes[1] + 256 * Unsigned(bytes[1..][1..]);
      if |bytes| > 2 { assert Unsigned(bytes[1..][1..]) == bytes[2] + 256 * Unsigned(bytes[1..][1..][1..]); }
    }
  }

  lemma TableRow(id: Byte, bytes: seq<Byte>)
    ensures id in BTH <==> Meaning(id, bytes).Some?
    ensures id in BTH ==> Meaning(id, bytes).value.0 == ByteSize(BTH[id].kind) && Meaning(id, bytes).value.1 == BTH[id].name
    ensures id in BTH && |bytes| == ByteSize(BTH[id].kind) ==>
              Meaning(id, bytes).value.2 == Scaled(ReadValue(BTH[id].kind, bytes).value, BTH[id].factor)
  {
    if id in BTH && |bytes| == ByteSize(BTH[id].kind) { UnsignedIs(BTH[id].kind, bytes); }
  }

  /** For every object of the table and all its bytes, the packet unpacks to its name with its meaning. */
  lemma UnpackMeaning(id: Byte, bytes: seq<Byte>, result: Option<Packet>)
    requires Meaning(id, bytes).Some? && |bytes| == Meaning(id, bytes).value.0
    requires Unpacked(BTH, [PLAIN, id] + bytes, result)
    ensures var (_, name, value) := Meaning(id, bytes).value;
            result.Some? && result.value.fields == map[name := One(value)]
  {
    TableRow(id, bytes);
    UnpackOne(BTH, id, bytes, result);
    var (_, name, value) := Meaning(id, bytes).value;
    SingleField(result.value.fields, name, value);
  }

  lemma SingleField(fields: map<string, Field>, name: string, value: real)
    requires forall k :: Lookup(fields, k) == if k == name then Some(One(value)) else None
    ensures fields == map[name := One(value)]
  {
    assert Lookup(fields, name) == Some(One(value));
    forall k | k in fields ensures k == name { assert Lookup(fields, k).Some?; }
  }
}
