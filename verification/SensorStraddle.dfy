/**
 Corruption across the boundary between body and trailer. The trailer is the big-endian CRC-32, so a window of `a` covered and
 `4 - a` trailer bytes leaves the low `a` bytes of the checksum alone: it goes unnoticed exactly when some change of the last
 `a` covered bytes leaves them alone too. That happens for `a = 2` and not for 1 or 3.
 */
module SensorStraddle {
  import opened ShiftRegister
  import opened Framing
  import opened SensorFrame

  // ---- Eight shifts down and back ----

  function Down(c: bv32): bv32 {
    Shift(Shift(Shift(Shift(Shift(Shift(Shift(Shift(c))))))))
  }

  function Unshift(c: bv32): bv32 {
    if c >> 31 == 1 then ((c ^ Polynomial) << 1) | 1 else c << 1
  }

  function Back(c: bv32): bv32 {
    Unshift(Unshift(Unshift(Unshift(Unshift(Unshift(Unshift(Unshift(c))))))))
  }

  lemma UnshiftShift(c: bv32)
    ensures Unshift(Shift(c)) == c
  {
  }

  lemma BackDown(c: bv32)
    ensures Back(Down(c)) == c
  {
    var c1 := Shift(c);
    var c2 := Shift(c1);
    var c3 := Shift(c2);
    var c4 := Shift(c3);
    var c5 := Shift(c4);
    var c6 := Shift(c5);
    var c7 := Shift(c6);
    UnshiftShift(c);
    UnshiftShift(c1);
    UnshiftShift(c2);
    UnshiftShift(c3);
    UnshiftShift(c4);
    UnshiftShift(c5);
    UnshiftShift(c6);
    UnshiftShift(c7);
  }

  /** A change of one byte shows in the low byte of the register. */
  lemma OneByteShows(d: bv32)
    requires d >> 8 == 0 && Down(d) & 0xFF == 0
    ensures d == 0
  {
  }

  lemma HighByteComesBack(t: bv32)
    requires t >> 8 == 0 && Back(Back(Back(t << 24))) >> 24 == 0
    ensures t == 0
  {
  }

  lemma OnlyHighByte(w: bv32)
    requires w & 0xFFFFFF == 0
    ensures w == (w >> 24) << 24 && (w >> 24) >> 8 == 0
    ensures w >> 24 == 0 ==> w == 0
  {
  }

  lemma ZeroComesBack()
    ensures Back(Back(Back(0))) == 0
  {
  }

  /** A change of three bytes shows in the low three bytes of the register. */
  lemma ThreeBytesShow(d: bv32)
    requires d >> 24 == 0 && Down(Down(Down(d))) & 0xFFFFFF == 0
    ensures d == 0
  {
    var w := Down(Down(Down(d)));
    BackDown(d);
    BackDown(Down(d));
    BackDown(Down(Down(d)));
    OnlyHighByte(w);
    HighByteComesBack(w >> 24);
    ZeroComesBack();
  }

  /** One change of two bytes does not show in the low two bytes. */
  lemma TwoBytesHide()
    ensures Down(Down(0xD861)) & 0xFFFF == 0
  {
  }

  // ---- Streams that differ at their end ----

  lemma CrcLawful()
    ensures ShiftRegister.Lawful(Crc)
  {
    CrcAdditive();
    CrcCancellative();
    CrcLinear();
    CrcBytewise();
  }

  lemma XorOfXors(r: bv32, p: bv32, q: bv32)
    ensures Xor(Xor(r, p), Xor(r, q)) == Xor(p, q)
    ensures Xor(p, q) == 0 ==> p == q
  {
  }

  lemma CrcCancels()
    ensures Cancels(Crc)
  {
    forall r: bv32, p: bv32, q: bv32 ensures Xor(Xor(r, p), Xor(r, q)) == Xor(p, q) {
      XorOfXors(r, p, q);
    }
    forall p: bv32, q: bv32 | Xor(p, q) == 0 ensures p == q {
      XorOfXors(0, p, q);
    }
  }

  lemma ShiftsAreDown(c: bv32)
    ensures Shifts(Crc, BitsPerByte, c) == Down(c)
  {
    ShiftsUnfold(Crc, c);
  }

  lemma ByteShiftsAreDown(c: bv32)
    ensures ByteShifts(Crc, 1, c) == Down(c)
    ensures ByteShifts(Crc, 2, c) == Down(Down(c))
    ensures ByteShifts(Crc, 3, c) == Down(Down(Down(c)))
  {
    ShiftsAreDown(c);
    ShiftsAreDown(Down(c));
    ShiftsAreDown(Down(Down(c)));
    assert ByteShifts(Crc, 1, c) == ByteShifts(Crc, 0, Down(c));
    assert ByteShifts(Crc, 2, c) == ByteShifts(Crc, 1, Down(c)) == ByteShifts(Crc, 0, Down(Down(c)));
    assert ByteShifts(Crc, 3, c) == ByteShifts(Crc, 2, Down(c)) == ByteShifts(Crc, 1, Down(Down(c)));
    assert ByteShifts(Crc, 1, Down(Down(c))) == ByteShifts(Crc, 0, Down(Down(Down(c))));
  }

  // ---- What the last trailer bytes hide ----

  /** The last `a` trailer bytes are equal for registers that differ by `w`. */
  predicate SameLast(a: nat, w: bv32) {
    if a == 1 then w & 0xFF == 0 else if a == 2 then w & 0xFFFF == 0 else w & 0xFFFFFF == 0
  }

  lemma ShortXor(p: bv32, q: bv32)
    ensures p >> 8 == 0 && q >> 8 == 0 ==> Xor(p, q) >> 8 == 0
    ensures p >> 24 == 0 && q >> 24 == 0 ==> Xor(p, q) >> 24 == 0
  {
  }

  lemma OneShown(d: bv32)
    requires d >> 8 == 0 && SameLast(1, ByteShifts(Crc, 1, d))
    ensures d == 0
  {
    ByteShiftsAreDown(d);
    OneByteShows(d);
  }

  lemma ThreeShown(d: bv32)
    requires d >> 24 == 0 && SameLast(3, ByteShifts(Crc, 3, d))
    ensures d == 0
  {
    ByteShiftsAreDown(d);
    ThreeBytesShow(d);
  }

  lemma CrcShows(a: nat)
    requires a == 1 || a == 3
    ensures Shows(Crc, a, w => SameLast(a, w))
  {
    forall p: bv32, q: bv32 | Fits(a, p) && Fits(a, q) && SameLast(a, ByteShifts(Crc, a, Xor(p, q))) ensures Xor(p, q) == 0 {
      ShortXor(p, q);
      if a == 1 {
        OneShown(Xor(p, q));
      } else {
        ThreeShown(Xor(p, q));
      }
    }
  }

  predicate SameTail(a: nat, t: seq<Byte>, u: seq<Byte>)
    requires |t| == |u| == 4
  {
    t[3] == u[3] && (a >= 2 ==> t[2] == u[2]) && (a >= 3 ==> t[1] == u[1])
  }

  lemma LowBytes(r: bv32, s: bv32)
    ensures var t, u := TrailerBytes(r ^ Ones), TrailerBytes(s ^ Ones);
            && (Xor(r, s) & 0xFF == 0 <==> t[3] == u[3])
            && (Xor(r, s) & 0xFFFF == 0 <==> t[2] == u[2] && t[3] == u[3])
            && (Xor(r, s) & 0xFFFFFF == 0 <==> t[1] == u[1] && t[2] == u[2] && t[3] == u[3])
  {
  }

  lemma LastOfTrailers(a: nat, r: bv32, s: bv32)
    requires 1 <= a <= 3
    ensures SameLast(a, Xor(r, s)) <==> SameTail(a, TrailerBytes(r ^ Ones), TrailerBytes(s ^ Ones))
  {
    LowBytes(r, s);
  }

  lemma TailBytes(s: seq<Byte>, t: seq<Byte>, a: nat)
    requires |s| == |t| == 4 && 1 <= a <= 3
    ensures s[4 - a..] == t[4 - a..] <==> SameTail(a, s, t)
  {
    var u, v := s[4 - a..], t[4 - a..];
    assert u[a - 1] == s[3] && v[a - 1] == t[3];
    if a >= 2 {
      assert u[a - 2] == s[2] && v[a - 2] == t[2];
    }
    if a >= 3 {
      assert u[a - 3] == s[1] && v[a - 3] == t[1];
    }
  }

  /** Equal last trailer bytes, in terms of the registers. */
  lemma {:induction false} ChecksumsEndAlike(a: nat, data: seq<Byte>, other: seq<Byte>)
    requires 1 <= a <= 3
    ensures Checksum(data)[4 - a..] == Checksum(other)[4 - a..] <==>
            SameLast(a, Xor(Register(Crc, data, Ones), Register(Crc, other, Ones)))
  {
    TailBytes(Checksum(data), Checksum(other), a);
    LastOfTrailers(a, Register(Crc, data, Ones), Register(Crc, other, Ones));
  }

  // ---- Which straddling windows the trailer sees ----

  lemma {:induction false} TrailerSees(a: nat, before: seq<Byte>, x: seq<Byte>, y: seq<Byte>)
    requires (a == 1 || a == 3) && |x| == |y| == a && Checksum(before + x)[4 - a..] == Checksum(before + y)[4 - a..]
    ensures x == y
  {
    ChecksumsEndAlike(a, before + x, before + y);
    CrcLawful();
    CrcCancels();
    CrcShows(a);
    TailShows(Crc, w => SameLast(a, w), before, x, y, Ones);
  }

  lemma UpZero(c: Byte)
    ensures Xor(Up(0), Load(c)) == c as bv32
  {
  }

  lemma PackTwo(b: Byte, c: Byte)
    ensures Pack(Crc, [b, c]) == Xor(Up(c as bv32), Load(b))
  {
    assert [b, c][1..] == [c] && [c][1..] == [];
    assert Pack(Crc, [c]) == Xor(Up(0), Load(c));
    UpZero(c);
  }

  /** The change that the low two bytes hide. */
  function Change(b: Byte, c: Byte): (Byte, Byte) {
    (b ^ 0x61, c ^ 0xD8)
  }

  lemma ChangePacked(b: Byte, c: Byte)
    ensures var d := Change(b, c);
            Xor(Xor(Up(c as bv32), Load(b)), Xor(Up(d.1 as bv32), Load(d.0))) == 0xD861 && d.0 != b
  {
  }

  lemma ChangeHidden()
    ensures SameLast(2, ByteShifts(Crc, 2, 0xD861))
  {
    ByteShiftsAreDown(0xD861);
    TwoBytesHide();
  }

  /** Whatever came before, that change of the last two bytes leaves the last two trailer bytes as they were. */
  lemma {:induction false} TrailerMisses(before: seq<Byte>, b: Byte, c: Byte)
    ensures var d := Change(b, c);
            Checksum(before + [b, c])[2..] == Checksum(before + [d.0, d.1])[2..] && d.0 != b
  {
    var d := Change(b, c);
    var x, y := [b, c], [d.0, d.1];
    ChecksumsEndAlike(2, before + x, before + y);
    RegistersOfChange(before, b, c);
    ChangeHidden();
    ChangePacked(b, c);
  }

  lemma {:induction false} RegistersOfChange(before: seq<Byte>, b: Byte, c: Byte)
    ensures var d := Change(b, c);
            Xor(Register(Crc, before + [b, c], Ones), Register(Crc, before + [d.0, d.1], Ones)) == ByteShifts(Crc, 2, 0xD861)
  {
    var d := Change(b, c);
    CrcLawful();
    CrcCancels();
    RegisterDifference(Crc, before, [b, c], [d.0, d.1], Ones);
    PackTwo(b, c);
    PackTwo(d.0, d.1);
    ChangePacked(b, c);
  }

  lemma SensorSeesStraddles(a: nat)
    requires a == 1 || a == 3
    ensures Framing.Lawful(SensorFormat) && SeesStraddles(SensorFormat, a)
  {
    FormatLawful();
    forall before: seq<Byte>, x: seq<Byte>, y: seq<Byte>
      | |x| == |y| == a && Checksum(before + x)[4 - a..] == Checksum(before + y)[4 - a..]
      ensures x == y
    {
      TrailerSees(a, before, x, y);
    }
  }

  /** Corruption confined to one covered and three trailer bytes, or to three and one, is rejected. */
  lemma SensorStraddle<P>(js: Serializer<P, Byte>, f: seq<Byte>, g: seq<Byte>, maxF: int, maxG: int, a: nat)
    requires a == 1 || a == 3
    requires Decode(SensorFormat, js, f, maxF).Ok? && |f| == |g| && f != g && DifferAcross(f, g, a)
    ensures Decode(SensorFormat, js, g, maxG).Err?
  {
    SensorSeesStraddles(a);
    if Decode(SensorFormat, js, g, maxG).Ok? {
      StraddleDetected(SensorFormat, js, f, g, maxF, maxG, a);
    }
  }

  /**
   Every well-formed frame with a body of two bytes or more has a different well-formed frame that agrees with it outside two
   covered and two trailer bytes: whether the decoder notices is up to the JSON of the two bodies.
   */
  lemma {:induction false} SplitWindowEscapes(f: seq<Byte>) returns (g: seq<Byte>)
    requires Shape(SensorFormat, f) && |f| >= HeaderSize + 2 + CrcSize
    ensures |g| == |f| && g != f && Shape(SensorFormat, g) && DifferAcross(f, g, 2)
  {
    var n := |f| - CrcSize;
    var last, before := f[n - 2..n], f[..n - 2];
    var x := ChangedPair(before, last);
    FormatLawful();
    g := StraddleEscapes(SensorFormat, f, x);
  }

  lemma {:induction false} ChangedPair(before: seq<Byte>, last: seq<Byte>) returns (x: seq<Byte>)
    requires |last| == 2
    ensures |x| == 2 && x != last && Checksum(before + x)[2..] == Checksum(before + last)[2..]
  {
    var d := Change(last[0], last[1]);
    x := [d.0, d.1];
    TrailerMisses(before, last[0], last[1]);
    assert last == [last[0], last[1]] && x[0] != last[0];
  }
}
