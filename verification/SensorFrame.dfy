/**
 Sensor-plane frames: a five-byte header, a JSON body and a CRC-32 trailer (section 8 of RFC 1952). The JSON
 serialiser is a parameter.
 */
module SensorFrame {
  import opened Basics
  import opened ShiftRegister
  import opened Framing

  type Byte = bv8

  // ---- CRC-32 as a shift register ----

  const Polynomial: bv32 := 0xEDB88320

  /** One shift of the reflected register. */
  function Shift(c: bv32): bv32 {
    if c & 1 == 1 then (c >> 1) ^ Polynomial else c >> 1
  }

  function Xor(a: bv32, b: bv32): bv32 {
    a ^ b
  }

  function Up(w: bv32): bv32 {
    w << 8
  }

  function Load(b: Byte): bv32 {
    b as bv32
  }

  predicate Fits(k: nat, w: bv32) {
    if k == 0 then w == 0 else if k == 1 then w >> 8 == 0 else if k == 2 then w >> 16 == 0 else if k == 3 then w >> 24 == 0
    else true
  }

  const Crc: Machine<Byte, bv32> := Machine(Xor, Shift, Up, Load, 0, Fits)

  const Ones: bv32 := 0xFFFF_FFFF

  function Crc32(data: seq<Byte>): bv32 {
    Register(Crc, data, Ones) ^ Ones
  }

  /** The shift loses nothing: the polynomial's top bit marks whether it was added. */
  lemma ShiftInjective(a: bv32, b: bv32)
    ensures Shift(a) == Shift(b) ==> a == b
  {
  }

  lemma ShiftLinearBoth(a: bv32, b: bv32)
    requires a & 1 == 1 && b & 1 == 1
    ensures Shift(Xor(a, b)) == Xor(Shift(a), Shift(b))
  {
  }

  lemma XorCommutes(a: bv32, b: bv32)
    ensures Xor(a, b) == Xor(b, a)
  {
  }

  lemma ShiftLinearOne(a: bv32, b: bv32)
    requires a & 1 == 0 && b & 1 == 1
    ensures Shift(Xor(a, b)) == Xor(Shift(a), Shift(b))
  {
  }

  lemma ShiftLinearNeither(a: bv32, b: bv32)
    requires a & 1 == 0 && b & 1 == 0
    ensures Shift(Xor(a, b)) == Xor(Shift(a), Shift(b))
  {
  }

  lemma LowBit(a: bv32)
    ensures a & 1 == 0 || a & 1 == 1
  {
  }

  lemma XorSwap(x: bv32, y: bv32, p: bv32)
    ensures (x ^ y) ^ p == x ^ (p ^ y)
  {
  }

  lemma ShiftLinear(a: bv32, b: bv32)
    ensures Shift(Xor(a, b)) == Xor(Shift(a), Shift(b))
  {
    LowBit(a);
    LowBit(b);
    if a & 1 == 1 {
      if b & 1 == 1 {
        ShiftLinearBoth(a, b);
      } else {
        ShiftLinearOne(b, a);
        XorCommutes(a, b);
        XorCommutes(Shift(a), Shift(b));
      }
    } else if b & 1 == 1 {
      ShiftLinearOne(a, b);
    } else {
      ShiftLinearNeither(a, b);
    }
  }

  lemma XorCancel(a: bv32, b: bv32, x: bv32)
    ensures a ^ x == b ^ x ==> a == b
    ensures x ^ a == x ^ b ==> a == b
  {
  }

  lemma UpLoad(v: bv32, w: bv32, a: Byte, b: Byte)
    requires Fits(3, v) && Fits(3, w) && Xor(Up(v), Load(a)) == Xor(Up(w), Load(b))
    ensures a == b && v == w
  {
  }

  lemma FitsStep(w: bv32, b: Byte)
    ensures w == 0 ==> ((w << 8) ^ (b as bv32)) >> 8 == 0
    ensures w >> 8 == 0 ==> ((w << 8) ^ (b as bv32)) >> 16 == 0
    ensures w >> 16 == 0 ==> ((w << 8) ^ (b as bv32)) >> 24 == 0
  {
  }

  lemma FitsMore(w: bv32)
    ensures w == 0 ==> w >> 8 == 0
    ensures w >> 8 == 0 ==> w >> 16 == 0
    ensures w >> 16 == 0 ==> w >> 24 == 0
  {
  }

  /** A register whose low byte is clear is only moved. */
  lemma EightShifts(w: bv32)
    requires w >> 24 == 0
    ensures Shift(Shift(Shift(Shift(Shift(Shift(Shift(Shift(w << 8)))))))) == w
  {
  }

  lemma ShiftsUnfold(m: Machine<Byte, bv32>, c: bv32)
    ensures Shifts(m, 8, c) == m.shift(m.shift(m.shift(m.shift(m.shift(m.shift(m.shift(m.shift(c))))))))
  {
    var c1 := m.shift(c);
    var c2 := m.shift(c1);
    var c3 := m.shift(c2);
    var c4 := m.shift(c3);
    var c5 := m.shift(c4);
    var c6 := m.shift(c5);
    var c7 := m.shift(c6);
    assert Shifts(m, 8, c) == Shifts(m, 7, c1) == Shifts(m, 6, c2) == Shifts(m, 5, c3) == Shifts(m, 4, c4);
    assert Shifts(m, 4, c4) == Shifts(m, 3, c5) == Shifts(m, 2, c6) == Shifts(m, 1, c7) == Shifts(m, 0, m.shift(c7));
  }

  lemma CrcAdditive()
    ensures Additive(Crc)
  {
    forall a: bv32, b: bv32, c: bv32 ensures Xor(Xor(a, b), c) == Xor(a, Xor(c, b)) {
      XorSwap(a, b, c);
    }
  }

  lemma CrcCancellative()
    ensures Cancellative(Crc)
  {
    forall a: bv32, b: bv32, x: bv32 | Xor(x, a) == Xor(x, b) ensures a == b {
      XorCancel(a, b, x);
    }
    forall a: bv32, b: bv32, x: bv32 | Xor(a, x) == Xor(b, x) ensures a == b {
      XorCancel(a, b, x);
    }
  }

  lemma CrcLinear()
    ensures LinearShift(Crc)
  {
    forall a: bv32, b: bv32 ensures Shift(Xor(a, b)) == Xor(Shift(a), Shift(b)) {
      ShiftLinear(a, b);
    }
    forall a: bv32, b: bv32 ensures Shift(a) == Shift(b) ==> a == b {
      ShiftInjective(a, b);
    }
  }

  lemma FitsGrows(k: nat, w: bv32, b: Byte)
    requires k < 3 && Fits(k, w)
    ensures Fits(k + 1, Xor(Up(w), Load(b)))
  {
    FitsStep(w, b);
  }

  lemma FitsThree(k: nat, w: bv32)
    requires k <= 3 && Fits(k, w)
    ensures Fits(3, w)
  {
    FitsMore(w);
  }

  lemma CrcShiftsDown(w: bv32)
    requires Fits(3, w)
    ensures Shifts(Crc, BitsPerByte, Up(w)) == w
  {
    ShiftsUnfold(Crc, Up(w));
    EightShifts(w);
  }

  lemma CrcBytewise()
    ensures Bytewise(Crc)
  {
    forall k: nat, w: bv32, b: Byte | k < 3 && Fits(k, w) ensures Fits(k + 1, Xor(Up(w), Load(b))) {
      FitsGrows(k, w, b);
    }
    forall k: nat, w: bv32 | k <= 3 && Fits(k, w) ensures Fits(3, w) {
      FitsThree(k, w);
    }
    forall w: bv32 | Fits(3, w) ensures Shifts(Crc, BitsPerByte, Up(w)) == w {
      CrcShiftsDown(w);
    }
    forall v: bv32, w: bv32, a: Byte, b: Byte | Fits(3, v) && Fits(3, w) && Xor(Up(v), Load(a)) == Xor(Up(w), Load(b))
      ensures a == b && v == w
    {
      UpLoad(v, w, a, b);
    }
  }

  /** The checksum sees every change confined to four consecutive bytes, wherever it is. */
  lemma WindowChangesCrc(before: seq<Byte>, x: seq<Byte>, y: seq<Byte>, after: seq<Byte>)
    requires |x| == |y| <= 4 && Crc32(before + x + after) == Crc32(before + y + after)
    ensures x == y
  {
    CrcAdditive();
    CrcCancellative();
    CrcLinear();
    CrcBytewise();
    XorCancel(Register(Crc, before + x + after, Ones), Register(Crc, before + y + after, Ones), Ones);
    WindowChangesRegister(Crc, before, x, y, after, Ones);
  }

  /** Check value of the algorithm: the checksum of the single byte 0x61. */
  lemma KnownAnswer()
    ensures Crc32([0x61]) == 0xE8B7BE43
  {
    assert [0x61 as Byte][..0] == [];
    assert Register(Crc, [0x61], Ones) == Feed(Crc, Ones, 0x61);
    ShiftsUnfold(Crc, 0xFFFF_FFFF ^ 0x61);
  }

  lemma FedOnce()
    ensures Register(Crc, [0x61], Ones) == 0x174841BC
  {
    KnownAnswer();
    XorCancel(Register(Crc, [0x61], Ones), 0x174841BC, Ones);
  }

  /** And of the two bytes 0x61 and 0x62, in this order. */
  lemma KnownAnswerOfTwo()
    ensures Crc32([0x61, 0x62]) == 0x9E83486D
  {
    FedOnce();
    assert [0x61 as Byte, 0x62][..1] == [0x61];
    assert Register(Crc, [0x61, 0x62], Ones) == Feed(Crc, 0x174841BC, 0x62);
    ShiftsUnfold(Crc, 0x174841BC ^ 0x62);
  }

  // ---- The format ----

  function HighByte(n: nat): Byte {
    (n / 256 % 256) as bv8
  }

  function LowByte(n: nat): Byte {
    (n % 256) as bv8
  }

  function LengthField(high: Byte, low: Byte): nat {
    (high as int) * 256 + (low as int)
  }

  /** Big-endian checksum bytes. */
  function TrailerBytes(c: bv32): (r: seq<Byte>) {
    [((c >> 24) & 0xFF) as bv8, ((c >> 16) & 0xFF) as bv8, ((c >> 8) & 0xFF) as bv8, (c & 0xFF) as bv8]
  }

  function TrailerValue(t: seq<Byte>): bv32
    requires |t| == 4
  {
    ((t[0] as bv32) << 24) | ((t[1] as bv32) << 16) | ((t[2] as bv32) << 8) | (t[3] as bv32)
  }

  function Checksum(data: seq<Byte>): seq<Byte> {
    TrailerBytes(Crc32(data))
  }

  /** Magic "SE", version 1. */
  const SensorFormat: Format<Byte> := Format(0x53, 0x45, 0x01, HighByte, LowByte, LengthField, Checksum)

  lemma ByteSuccessor(b: Byte)
    requires b < 255
    ensures (b + 1) as int == b as int + 1
  {
  }

  lemma {:induction false} ByteRoundTrip(n: nat)
    requires n < 256
    ensures (n as bv8) as int == n
    decreases n
  {
    if n > 0 {
      ByteRoundTrip(n - 1);
      var b := (n - 1) as bv8;
      ByteSuccessor(b);
      assert (b + 1) as int == n;
    }
  }

  lemma LengthRoundTrip(n: nat)
    requires n <= 0xFFFF
    ensures LengthField(HighByte(n), LowByte(n)) == n
  {
    ByteRoundTrip(n / 256);
    ByteRoundTrip(n % 256);
  }

  lemma TrailerRoundTrip(c: bv32)
    ensures TrailerValue(TrailerBytes(c)) == c
  {
  }

  lemma TrailerSplit(a: Byte, b: Byte, c: Byte, d: Byte)
    ensures TrailerBytes(((a as bv32) << 24) | ((b as bv32) << 16) | ((c as bv32) << 8) | (d as bv32)) == [a, b, c, d]
  {
  }

  /** Comparing the unpacked checksum, as the decoder does, is comparing the trailer bytes. */
  lemma TrailerMatches(t: seq<Byte>, c: bv32)
    requires |t| == 4
    ensures TrailerValue(t) == c <==> t == TrailerBytes(c)
  {
    TrailerSplit(t[0], t[1], t[2], t[3]);
    assert t == [t[0], t[1], t[2], t[3]];
    TrailerRoundTrip(c);
  }

  lemma FormatLawful()
    ensures Framing.Lawful(SensorFormat)
  {
    forall n: nat | n <= MaxLength ensures LengthField(HighByte(n), LowByte(n)) == n {
      LengthRoundTrip(n);
    }
  }

  lemma FormatSeesWindows()
    ensures SeesWindows(SensorFormat)
  {
    forall before: seq<Byte>, x: seq<Byte>, y: seq<Byte>, after: seq<Byte>
      | |x| == |y| <= 4 && Checksum(before + x + after) == Checksum(before + y + after)
      ensures x == y
    {
      TrailerRoundTrip(Crc32(before + x + after));
      TrailerRoundTrip(Crc32(before + y + after));
      WindowChangesCrc(before, x, y, after);
    }
  }

  // ---- The frames, byte by byte ----

  /** The bytes of a word, highest first. */
  ghost predicate BigEndian(t: seq<Byte>, c: bv32) {
    && |t| == 4
    && t[0] as bv32 == c >> 24 && t[1] as bv32 == (c >> 16) & 0xFF
    && t[2] as bv32 == (c >> 8) & 0xFF && t[3] as bv32 == c & 0xFF
  }

  /** The last four bytes are the checksum of all others. */
  ghost predicate EndsWithCrc(f: seq<Byte>)
    requires |f| >= 4
  {
    BigEndian(f[|f| - 4..], Crc32(f[..|f| - 4]))
  }

  /** The letters S and E, the number 1, the length of `body` in two bytes, highest first, `body` and the checksum. */
  ghost predicate IsFrame(f: seq<Byte>, body: seq<Byte>) {
    && |f| == |body| + 9
    && f[0] == 0x53 && f[1] == 0x45 && f[2] == 1
    && (f[3] as int) * 256 + f[4] as int == |body|
    && f[5..|body| + 5] == body
    && EndsWithCrc(f)
  }

  lemma TrailerIs(c: bv32, t: seq<Byte>)
    requires |t| == 4
    ensures t == TrailerBytes(c) <==> BigEndian(t, c)
  {
    var r := TrailerBytes(c);
    TrailerParts(c, t[0], t[1], t[2], t[3]);
    assert t == [t[0], t[1], t[2], t[3]];
  }

  lemma TrailerParts(c: bv32, a: Byte, b: Byte, d: Byte, e: Byte)
    ensures a as bv32 == c >> 24 <==> a == ((c >> 24) & 0xFF) as bv8
    ensures b as bv32 == (c >> 16) & 0xFF <==> b == ((c >> 16) & 0xFF) as bv8
    ensures d as bv32 == (c >> 8) & 0xFF <==> d == ((c >> 8) & 0xFF) as bv8
    ensures e as bv32 == c & 0xFF <==> e == (c & 0xFF) as bv8
  {
  }

  lemma EndsIff(f: seq<Byte>)
    requires |f| >= 4
    ensures TrailerOf(f) == Checksum(Covered(f)) <==> EndsWithCrc(f)
  {
    TrailerIs(Crc32(Covered(f)), TrailerOf(f));
  }

  /** Encoding refuses an unsupported version, what is not finite JSON and an empty or too long body; else it makes a frame. */
  lemma SensorEncodes<P>(js: Serializer<P, Byte>, payload: P, supported: bool, maxPayload: int)
    ensures var r := Encode(SensorFormat, js, payload, supported, maxPayload);
            if !supported then r == Err(UnsupportedVersion)
            else if js.dumps(payload) == None then r == Err(NotFiniteJson)
            else
              var body := js.dumps(payload).value;
              if 1 <= |body| <= maxPayload && |body| <= 65535 then r.Ok? && IsFrame(r.value, body) else r == Err(BoundExceeded)
  {
    FormatLawful();
    var r := Encode(SensorFormat, js, payload, supported, maxPayload);
    if r.Ok? {
      EncodedShape(SensorFormat, js, payload, maxPayload);
      ShapeIsFrame(r.value, js.dumps(payload).value);
    }
  }

  lemma ShapeIsFrame(f: seq<Byte>, body: seq<Byte>)
    requires Framing.Shape(SensorFormat, f) && |f| == HeaderSize + |body| + CrcSize && f[HeaderSize..HeaderSize + |body|] == body
    ensures IsFrame(f, body)
  {
    EndsIff(f);
  }

  /** Decoding checks, in this order, its bound, the size, the magic, the version, the length and the checksum. */
  lemma SensorDecodes<P>(js: Serializer<P, Byte>, f: seq<Byte>, maxPayload: int)
    ensures Decode(SensorFormat, js, f, maxPayload) ==
            if maxPayload < 1 then Err(BadBound)
            else if |f| < 9 then Err(Truncated)
            else if f[0] != 0x53 || f[1] != 0x45 then Err(MagicMismatch)
            else if f[2] != 1 then Err(UnsupportedVersion)
            else
              var n := (f[3] as int) * 256 + f[4] as int;
              if maxPayload < n then Err(BoundExceeded)
              else if |f| < n + 9 then Err(Truncated)
              else if n + 9 < |f| then Err(LengthMismatch)
              else if !EndsWithCrc(f) then Err(CrcMismatch)
              else
                match js.loads(f[5..n + 5])
                case None => Err(NotFiniteJson)
                case Some(Scalar) => Err(NotAnObject)
                case Some(Object(payload)) => Ok(payload)
  {
    if |f| >= 9 {
      EndsIff(f);
    }
  }

  // ---- The guarantees, for sensor frames ----

  lemma SensorRoundTrip<P>(js: Serializer<P, Byte>, payload: P, maxOut: int, maxIn: int)
    requires js.dumps(payload).Some? && js.loads(js.dumps(payload).value) == Some(Object(payload))
    requires 0 < |js.dumps(payload).value| <= maxOut && |js.dumps(payload).value| <= MaxLength
    ensures Encode(SensorFormat, js, payload, true, maxOut).Ok?
    ensures Decode(SensorFormat, js, Encode(SensorFormat, js, payload, true, maxOut).value, maxIn) ==
            if maxIn <= 0 then Err(BadBound)
            else if |js.dumps(payload).value| > maxIn then Err(BoundExceeded)
            else Ok(payload)
  {
    FormatLawful();
    RoundTrip(SensorFormat, js, payload, maxOut, maxIn);
  }

  /** Any single-byte substitution is rejected. */
  lemma SensorSingleByte<P>(js: Serializer<P, Byte>, frame: seq<Byte>, maxPayload: int, k: nat, b: Byte, maxOther: int)
    requires Decode(SensorFormat, js, frame, maxPayload).Ok? && k < |frame| && b != frame[k]
    ensures Decode(SensorFormat, js, frame[k := b], maxOther).Err?
  {
    FormatSeesWindows();
    SingleByteDetected(SensorFormat, js, frame, maxPayload, k, b, maxOther);
  }

  /** Any corruption confined to four consecutive covered bytes is rejected. */
  lemma SensorWindow<P>(js: Serializer<P, Byte>, f: seq<Byte>, g: seq<Byte>, maxF: int, maxG: int, k: nat)
    requires Decode(SensorFormat, js, f, maxF).Ok? && |f| == |g| && f != g
    requires k + 4 <= |f| - CrcSize
    requires forall i :: 0 <= i < |f| && !(k <= i < k + 4) ==> f[i] == g[i]
    ensures Decode(SensorFormat, js, g, maxG).Err?
  {
    FormatSeesWindows();
    if Decode(SensorFormat, js, g, maxG).Ok? {
      WindowDetected(SensorFormat, js, f, g, maxF, maxG, k);
    }
  }
}
