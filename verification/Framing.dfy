/**
 Length-prefixed, checksummed frames over an arbitrary byte type: two magic bytes, a version byte, a two-byte length, the
 body, and a four-byte trailer computed from everything before it. Module `SensorFrame` supplies the format.
 */
module Framing {
  import opened Basics

  datatype Rejection =
    | UnsupportedVersion | NotFiniteJson | BoundExceeded | BadBound | Truncated | MagicMismatch | LengthMismatch
    | CrcMismatch | NotAnObject

  datatype Result<+T> = Ok(value: T) | Err(reason: Rejection)

  datatype Json<+P> = Object(payload: P) | Scalar

  /** `dumps` fails on values that are not finite JSON; `loads` fails on bytes that are not. */
  datatype Serializer<!P, !Byte> = Serializer(dumps: P -> Option<seq<Byte>>, loads: seq<Byte> -> Option<Json<P>>)

  datatype Format<!Byte> = Format(
    magic0: Byte, magic1: Byte, version: Byte,
    high: nat -> Byte, low: nat -> Byte, length: (Byte, Byte) -> nat,
    trailer: seq<Byte> -> seq<Byte>)

  const HeaderSize: nat := 5
  const CrcSize: nat := 4
  const MaxLength: nat := 0xFFFF

  /** Lengths survive the two-byte field and trailers are four bytes long. */
  ghost predicate Lawful<Byte(!new)>(fmt: Format<Byte>) {
    && (forall n: nat {:trigger fmt.high(n)} :: n <= MaxLength ==> fmt.length(fmt.high(n), fmt.low(n)) == n)
    && (forall data {:trigger fmt.trailer(data)} :: |fmt.trailer(data)| == CrcSize)
  }

  /** The trailer sees every change confined to four consecutive bytes. */
  ghost predicate SeesWindows<Byte(!new)>(fmt: Format<Byte>) {
    forall before, x, y, after {:trigger fmt.trailer(before + x + after), fmt.trailer(before + y + after)} ::
      |x| == |y| <= 4 && fmt.trailer(before + x + after) == fmt.trailer(before + y + after) ==> x == y
  }

  function Header<Byte>(fmt: Format<Byte>, length: nat): (r: seq<Byte>)
    ensures |r| == HeaderSize
  {
    [fmt.magic0, fmt.magic1, fmt.version, fmt.high(length), fmt.low(length)]
  }

  function Encode<P, Byte>(fmt: Format<Byte>, js: Serializer<P, Byte>, payload: P, supported: bool, maxPayload: int)
    : Result<seq<Byte>>
  {
    if !supported then Err(UnsupportedVersion)
    else
      var body := js.dumps(payload);
      if body.None? then Err(NotFiniteJson)
      else if |body.value| == 0 || |body.value| > maxPayload || |body.value| > MaxLength then Err(BoundExceeded)
      else
        var covered := Header(fmt, |body.value|) + body.value;
        Ok(covered + fmt.trailer(covered))
  }

  function Covered<Byte>(frame: seq<Byte>): seq<Byte>
    requires |frame| >= CrcSize
  {
    frame[..|frame| - CrcSize]
  }

  function TrailerOf<Byte>(frame: seq<Byte>): (t: seq<Byte>)
    requires |frame| >= CrcSize
    ensures |t| == CrcSize
  {
    frame[|frame| - CrcSize..]
  }

  function Decode<P, Byte(==)>(fmt: Format<Byte>, js: Serializer<P, Byte>, frame: seq<Byte>, maxPayload: int): Result<P> {
    if maxPayload <= 0 then Err(BadBound)
    else if |frame| < HeaderSize + CrcSize then Err(Truncated)
    else if frame[0] != fmt.magic0 || frame[1] != fmt.magic1 then Err(MagicMismatch)
    else if frame[2] != fmt.version then Err(UnsupportedVersion)
    else
      var length := fmt.length(frame[3], frame[4]);
      if length > maxPayload then Err(BoundExceeded)
      else if |frame| < HeaderSize + length + CrcSize then Err(Truncated)
      else if |frame| != HeaderSize + length + CrcSize then Err(LengthMismatch)
      else if TrailerOf(frame) != fmt.trailer(Covered(frame)) then Err(CrcMismatch)
      else
        var value := js.loads(frame[HeaderSize..HeaderSize + length]);
        if value.None? then Err(NotFiniteJson)
        else if value.value.Scalar? then Err(NotAnObject)
        else Ok(value.value.payload)
  }

  /** Encoding makes a well-formed frame around the body. */
  lemma EncodedShape<P, Byte(!new)>(fmt: Format<Byte>, js: Serializer<P, Byte>, payload: P, maxPayload: int)
    requires Lawful(fmt) && Encode(fmt, js, payload, true, maxPayload).Ok?
    ensures var f, body := Encode(fmt, js, payload, true, maxPayload).value, js.dumps(payload).value;
            && Shape(fmt, f)
            && |f| == HeaderSize + |body| + CrcSize && f[HeaderSize..HeaderSize + |body|] == body
  {
    var f, body := Encode(fmt, js, payload, true, maxPayload).value, js.dumps(payload).value;
    var header := Header(fmt, |body|);
    var covered := header + body;
    assert f == covered + fmt.trailer(covered);
    assert forall i :: 0 <= i < HeaderSize ==> f[i] == header[i];
    assert Covered(f) == covered && TrailerOf(f) == fmt.trailer(covered);
  }

  /** Decoding undoes encoding exactly when the body is within the decoder's bound. */
  lemma RoundTrip<P, Byte(!new)>(fmt: Format<Byte>, js: Serializer<P, Byte>, payload: P, maxOut: int, maxIn: int)
    requires Lawful(fmt)
    requires js.dumps(payload).Some? && js.loads(js.dumps(payload).value) == Some(Object(payload))
    requires Encode(fmt, js, payload, true, maxOut).Ok?
    ensures Decode(fmt, js, Encode(fmt, js, payload, true, maxOut).value, maxIn) ==
            if maxIn <= 0 then Err(BadBound)
            else if |js.dumps(payload).value| > maxIn then Err(BoundExceeded)
            else Ok(payload)
  {
    var body := js.dumps(payload).value;
    var header := Header(fmt, |body|);
    var covered := header + body;
    var frame := Encode(fmt, js, payload, true, maxOut).value;
    assert frame == covered + fmt.trailer(covered);
    assert forall i :: 0 <= i < HeaderSize ==> frame[i] == header[i];
    assert fmt.length(frame[3], frame[4]) == |body|;
    assert TrailerOf(frame) == fmt.trailer(covered);
    assert Covered(frame) == covered;
    assert frame[HeaderSize..HeaderSize + |body|] == body;
  }

  /** What every accepted frame satisfies: fixed magic and version, exact length, matching trailer. */
  ghost predicate Shape<Byte>(fmt: Format<Byte>, frame: seq<Byte>) {
    && |frame| >= HeaderSize + CrcSize
    && frame[0] == fmt.magic0 && frame[1] == fmt.magic1 && frame[2] == fmt.version
    && |frame| == HeaderSize + fmt.length(frame[3], frame[4]) + CrcSize
    && TrailerOf(frame) == fmt.trailer(Covered(frame))
  }

  lemma AcceptedShape<P, Byte>(fmt: Format<Byte>, js: Serializer<P, Byte>, frame: seq<Byte>, maxPayload: int)
    requires Decode(fmt, js, frame, maxPayload).Ok?
    ensures Shape(fmt, frame)
  {
  }

  /** No accepted frame is a proper prefix of another, whatever the two decoders' bounds. */
  lemma PrefixFree<P, Byte>(fmt: Format<Byte>, js: Serializer<P, Byte>, f: seq<Byte>, g: seq<Byte>, maxF: int, maxG: int)
    requires Decode(fmt, js, f, maxF).Ok? && Decode(fmt, js, g, maxG).Ok? && f <= g
    ensures f == g
  {
    AcceptedShape(fmt, js, f, maxF);
    AcceptedShape(fmt, js, g, maxG);
    assert f[3] == g[3] && f[4] == g[4];
  }

  ghost predicate AllAccepted<P, Byte>(fmt: Format<Byte>, js: Serializer<P, Byte>, frames: seq<seq<Byte>>, maxPayload: int) {
    forall i :: 0 <= i < |frames| ==> Decode(fmt, js, frames[i], maxPayload).Ok?
  }

  function Stream<Byte>(frames: seq<seq<Byte>>): seq<Byte> {
    if frames == [] then [] else frames[0] + Stream(frames[1..])
  }

  /** Frames sent back to back can be split in only one way. */
  lemma {:induction false} StreamsSplitUniquely<P, Byte>(fmt: Format<Byte>, js: Serializer<P, Byte>, a: seq<seq<Byte>>,
                                                         b: seq<seq<Byte>>, maxPayload: int)
    requires AllAccepted(fmt, js, a, maxPayload) && AllAccepted(fmt, js, b, maxPayload) && Stream(a) == Stream(b)
    ensures a == b
    decreases |a|
  {
    if a == [] || b == [] {
      if a != [] {
        AcceptedShape(fmt, js, a[0], maxPayload);
      }
      if b != [] {
        AcceptedShape(fmt, js, b[0], maxPayload);
      }
    } else {
      var s := Stream(a);
      assert a[0] == s[..|a[0]|] && b[0] == s[..|b[0]|];
      if |a[0]| <= |b[0]| {
        PrefixFree(fmt, js, a[0], b[0], maxPayload, maxPayload);
      } else {
        PrefixFree(fmt, js, b[0], a[0], maxPayload, maxPayload);
      }
      assert Stream(a[1..]) == s[|a[0]|..] == Stream(b[1..]);
      StreamsSplitUniquely(fmt, js, a[1..], b[1..], maxPayload);
      assert a == [a[0]] + a[1..] && b == [b[0]] + b[1..];
    }
  }

  /** Two accepted frames that agree on the covered bytes are equal. */
  lemma SameCoveredSameFrame<Byte>(fmt: Format<Byte>, f: seq<Byte>, g: seq<Byte>)
    requires Shape(fmt, f) && Shape(fmt, g) && Covered(f) == Covered(g)
    ensures f == g
  {
    assert f == Covered(f) + TrailerOf(f) && g == Covered(g) + TrailerOf(g);
  }

  /**
   Accepted frames that agree outside four consecutive covered bytes are equal: no error confined to such a window goes
   unnoticed.
   */
  lemma WindowDetected<P, Byte(!new)>(fmt: Format<Byte>, js: Serializer<P, Byte>, f: seq<Byte>, g: seq<Byte>, maxF: int,
                                      maxG: int, k: nat)
    requires SeesWindows(fmt)
    requires Decode(fmt, js, f, maxF).Ok? && Decode(fmt, js, g, maxG).Ok? && |f| == |g|
    requires k + 4 <= |f| - CrcSize
    requires forall i :: 0 <= i < |f| && !(k <= i < k + 4) ==> f[i] == g[i]
    ensures f == g
  {
    AcceptedShape(fmt, js, f, maxF);
    AcceptedShape(fmt, js, g, maxG);
    var n := |f| - CrcSize;
    var before, after := f[..k], f[k + 4..n];
    var x, y := f[k..k + 4], g[k..k + 4];
    assert Covered(f) == before + x + after;
    assert Covered(g) == before + y + after;
    assert TrailerOf(f) == TrailerOf(g);
    assert x == y;
    SameCoveredSameFrame(fmt, f, g);
  }

  /** Replacing any single byte of an accepted frame, header and trailer included, makes every decoder reject it. */
  lemma SingleByteDetected<P, Byte(!new)>(fmt: Format<Byte>, js: Serializer<P, Byte>, frame: seq<Byte>, maxPayload: int,
                                          k: nat, b: Byte, maxOther: int)
    requires SeesWindows(fmt)
    requires Decode(fmt, js, frame, maxPayload).Ok? && k < |frame| && b != frame[k]
    ensures Decode(fmt, js, frame[k := b], maxOther).Err?
  {
    var g := frame[k := b];
    if Decode(fmt, js, g, maxOther).Ok? {
      AcceptedShape(fmt, js, frame, maxPayload);
      var n := |frame| - CrcSize;
      if k < n {
        WindowDetected(fmt, js, frame, g, maxPayload, maxOther, if k + 4 <= n then k else n - 4);
      } else {
        AcceptedShape(fmt, js, g, maxOther);
        assert Covered(frame) == Covered(g);
        SameCoveredSameFrame(fmt, frame, g);
      }
      assert false;
    }
  }

  // ---- Windows that straddle body and trailer ----

  /** The last `a` bytes of the trailer tell apart any two streams that differ only in their last `a` bytes. */
  ghost predicate SeesStraddles<Byte(!new)>(fmt: Format<Byte>, a: nat)
    requires a <= CrcSize && Lawful(fmt)
  {
    forall before, x, y {:trigger fmt.trailer(before + x), fmt.trailer(before + y)} ::
      |x| == |y| == a && fmt.trailer(before + x)[CrcSize - a..] == fmt.trailer(before + y)[CrcSize - a..] ==> x == y
  }

  /** `f` and `g` agree outside the four bytes of which the first `a` are the last covered ones. */
  ghost predicate DifferAcross<Byte>(f: seq<Byte>, g: seq<Byte>, a: nat)
    requires |f| == |g| >= CrcSize + a && a <= CrcSize
  {
    var n := |f| - CrcSize;
    forall i :: 0 <= i < |f| && !(n - a <= i < n - a + 4) ==> f[i] == g[i]
  }

  /** Then accepted frames that agree outside such a window are equal. */
  lemma StraddleDetected<P, Byte(!new)>(fmt: Format<Byte>, js: Serializer<P, Byte>, f: seq<Byte>, g: seq<Byte>, maxF: int,
                                        maxG: int, a: nat)
    requires a <= CrcSize && Lawful(fmt) && SeesStraddles(fmt, a)
    requires Decode(fmt, js, f, maxF).Ok? && Decode(fmt, js, g, maxG).Ok? && |f| == |g| && DifferAcross(f, g, a)
    ensures f == g
  {
    AcceptedShape(fmt, js, f, maxF);
    AcceptedShape(fmt, js, g, maxG);
    var n := |f| - CrcSize;
    var before, x, y := f[..n - a], f[n - a..n], g[n - a..n];
    assert Covered(f) == before + x && Covered(g) == before + y;
    assert TrailerOf(f)[CrcSize - a..] == TrailerOf(g)[CrcSize - a..];
    assert x == y;
    SameCoveredSameFrame(fmt, f, g);
  }

  /** A change of the last two covered bytes that the last two trailer bytes do not show makes another well-formed frame. */
  lemma StraddleEscapes<Byte(!new)>(fmt: Format<Byte>, f: seq<Byte>, x: seq<Byte>) returns (g: seq<Byte>)
    requires Lawful(fmt) && Shape(fmt, f) && |f| >= HeaderSize + 2 + CrcSize && |x| == 2
    requires var n := |f| - CrcSize;
             x != f[n - 2..n] && fmt.trailer(f[..n - 2] + x)[2..] == fmt.trailer(f[..n - 2] + f[n - 2..n])[2..]
    ensures |g| == |f| && g != f && Shape(fmt, g) && DifferAcross(f, g, 2)
  {
    var n := |f| - CrcSize;
    var covered := f[..n - 2] + x;
    var trailer := fmt.trailer(covered);
    g := covered + trailer;
    assert f[..n - 2] + f[n - 2..n] == Covered(f);
    assert Covered(g) == covered && TrailerOf(g) == trailer;
    assert g[n - 2..n] == x;
    forall i | 0 <= i < |f| && !(n - 2 <= i < n + 2) ensures f[i] == g[i] {
      if i >= n + 2 {
        assert f[i] == TrailerOf(f)[2..][i - (n + 2)] && g[i] == trailer[2..][i - (n + 2)];
      }
    }
  }
}
