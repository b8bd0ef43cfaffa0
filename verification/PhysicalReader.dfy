/**
 The bounded device reader with the line extraction used for IMU samples: bytes arrive in arbitrary chunks, at most one
 line is taken out of the buffer per read, blank lines are skipped. What the device returns for each read is an input.
 */
module PhysicalReader {
  import opened Basics
  import opened Trimming

  type Byte = b: int | 0 <= b < 256

  /** A decoded sample; opaque here. */
  type Sample = string

  /** What one select-and-read round yields; an empty chunk is the end of the source. */
  datatype Read = Chunk(bytes: seq<Byte>) | Timeout | OsError

  datatype CaptureError = BadBounds | TimedOut | Ended | ReadFailed | TooLong | NotNormalized

  datatype Result<+T> = Ok(value: T) | Err(error: CaptureError)

  const Newline: Byte := 10

  predicate Blank(b: Byte) {
    b == 32 || 9 <= b <= 13
  }

  /** Position of the first newline, or the length when there is none. */
  function FirstNewline(s: seq<Byte>): (n: nat)
    ensures n <= |s|
  {
    if s == [] || s[0] == Newline then 0 else 1 + FirstNewline(s[1..])
  }

  /** The stripped non-blank lines of `s`; what follows the last newline is not a line yet. */
  function Lines(s: seq<Byte>): seq<seq<Byte>> {
    var n := FirstNewline(s);
    if n == |s| then []
    else
      var line, rest := Strip(s[..n], Blank), Lines(s[n + 1..]);
      if line == [] then rest else [line] + rest
  }

  // ---- Lines, spelled out ----

  /** Space, tab, newline, vertical tab, form feed and carriage return. */
  ghost predicate White(b: Byte) {
    b == 9 || b == 10 || b == 11 || b == 12 || b == 13 || b == 32
  }

  /** `s[i..j]` is `s` without the white space at its ends. */
  ghost predicate TrimsWhite(s: seq<Byte>, i: nat, j: nat) {
    && i <= j <= |s|
    && (forall k :: 0 <= k < i ==> White(s[k]))
    && (forall k :: j <= k < |s| ==> White(s[k]))
    && (i < j ==> !White(s[i]) && !White(s[j - 1]))
  }

  lemma StripWhite(s: seq<Byte>, i: nat, j: nat)
    requires TrimsWhite(s, i, j)
    ensures Strip(s, Blank) == s[i..j]
  {
    assert forall b :: Blank(b) <==> White(b);
    StripIs(s, Blank, i, j);
  }

  /** The first newline is the first byte 10. */
  lemma {:induction false} FirstNewlineIs(s: seq<Byte>, n: nat)
    requires n <= |s| && (forall k :: 0 <= k < n ==> s[k] != 10) && (n < |s| ==> s[n] == 10)
    ensures FirstNewline(s) == n
  {
    if n > 0 {
      FirstNewlineIs(s[1..], n - 1);
    }
  }

  lemma NewlineAt(p: seq<Byte>, rest: seq<Byte>)
    requires forall k :: 0 <= k < |p| ==> p[k] != 10
    ensures FirstNewline(p + [10] + rest) == |p|
  {
    var s := p + [10] + rest;
    assert s[|p|] == 10;
    assert forall k :: 0 <= k < |p| ==> s[k] == p[k];
    FirstNewlineIs(s, |p|);
  }

  /** The bytes up to a newline make a line, unless there is nothing but white space; the lines behind it follow. */
  lemma LineEnds(p: seq<Byte>, rest: seq<Byte>, i: nat, j: nat)
    requires (forall k :: 0 <= k < |p| ==> p[k] != 10) && TrimsWhite(p, i, j)
    ensures Lines(p + [10] + rest) == (if i < j then [p[i..j]] else []) + Lines(rest)
  {
    var s := p + [10] + rest;
    NewlineAt(p, rest);
    StripWhite(p, i, j);
    assert s[..|p|] == p && s[|p| + 1..] == rest;
  }

  /** Without a newline there is no line. */
  lemma NoLineYet(s: seq<Byte>)
    requires forall k :: 0 <= k < |s| ==> s[k] != 10
    ensures Lines(s) == []
  {
    FirstNewlineIs(s, |s|);
  }

  /** One call of `read_item`: the sample taken out of the buffer, if any, and the buffer that remains. */
  datatype Item = Nothing(buffer: seq<Byte>) | Line(raw: seq<Byte>, buffer: seq<Byte>)

  function ReadItem(buffer: seq<Byte>): Item {
    var n := FirstNewline(buffer);
    if n == |buffer| then Nothing(buffer)
    else if Strip(buffer[..n], Blank) == [] then Nothing(buffer[n + 1..])
    else Line(Strip(buffer[..n], Blank), buffer[n + 1..])
  }

  /** The read loop, with `need` samples still to come. Running out of rounds counts as a timeout. */
  function Pull(rounds: seq<Read>, buffer: seq<Byte>, need: nat, maxBytes: nat, parse: seq<Byte> -> Option<Sample>)
    : Result<seq<Sample>>
    decreases |rounds|, 0
  {
    if need == 0 then Ok([])
    else if rounds == [] || rounds[0].Timeout? then Err(TimedOut)
    else if rounds[0].OsError? then Err(ReadFailed)
    else if rounds[0].bytes == [] then Err(Ended)
    else
      var filled := buffer + rounds[0].bytes;
      if |filled| > maxBytes then Err(TooLong)
      else AfterItem(ReadItem(filled), rounds[1..], need, maxBytes, parse)
  }

  /** The rest of the loop once `read_item` has returned. */
  function AfterItem(item: Item, rounds: seq<Read>, need: nat, maxBytes: nat, parse: seq<Byte> -> Option<Sample>)
    : Result<seq<Sample>>
    requires need > 0
    decreases |rounds|, 1
  {
    if item.Nothing? then Pull(rounds, item.buffer, need, maxBytes, parse)
    else if parse(item.raw).None? then Err(NotNormalized)
    else Prepend([parse(item.raw).value], Pull(rounds, item.buffer, need - 1, maxBytes, parse))
  }

  function Capture(rounds: seq<Read>, maxSamples: int, maxBytes: int, parse: seq<Byte> -> Option<Sample>): Result<seq<Sample>> {
    if maxSamples <= 0 || maxBytes <= 0 then Err(BadBounds) else Pull(rounds, [], maxSamples, maxBytes, parse)
  }

  /** `_bounded_ready_reads` with the IMU `read_item`. */
  method CaptureLoop(rounds: seq<Read>, maxSamples: int, maxBytes: int, parse: seq<Byte> -> Option<Sample>)
    returns (r: Result<seq<Sample>>)
    ensures r == Capture(rounds, maxSamples, maxBytes, parse)
  {
    if maxSamples <= 0 || maxBytes <= 0 {
      return Err(BadBounds);
    }
    var buffer: seq<Byte> := [];
    var samples: seq<Sample> := [];
    var round := 0;
    ghost var whole := Pull(rounds, [], maxSamples, maxBytes, parse);
    assert rounds[0..] == rounds;
    assert whole == Prepend([], whole) by {
      assert whole.Ok? ==> [] + whole.value == whole.value;
    }
    while |samples| < maxSamples
      invariant 0 <= round <= |rounds| && |samples| <= maxSamples
      invariant whole == Prepend(samples, Pull(rounds[round..], buffer, maxSamples - |samples|, maxBytes, parse))
      decreases |rounds| - round
    {
      if round == |rounds| || rounds[round].Timeout? {
        return Err(TimedOut);
      }
      if rounds[round].OsError? {
        return Err(ReadFailed);
      }
      var chunk := rounds[round].bytes;
      if chunk == [] {
        return Err(Ended);
      }
      ghost var rest := rounds[round..];
      assert rest[0] == rounds[round] && rest[1..] == rounds[round + 1..];
      buffer := buffer + chunk;
      if |buffer| > maxBytes {
        return Err(TooLong);
      }
      round := round + 1;
      ghost var item := ReadItem(buffer);
      assert whole == Prepend(samples, AfterItem(item, rounds[round..], maxSamples - |samples|, maxBytes, parse));
      var newline := FirstNewline(buffer);
      if newline < |buffer| {
        var raw := Strip(buffer[..newline], Blank);
        buffer := buffer[newline + 1..];
        if raw != [] {
          var sample := parse(raw);
          if sample.None? {
            return Err(NotNormalized);
          }
          PrependOne(samples, sample.value, Pull(rounds[round..], buffer, maxSamples - |samples| - 1, maxBytes, parse));
          samples := samples + [sample.value];
        }
      }
    }
    assert samples + [] == samples;
    r := Ok(samples);
  }

  function Prepend(samples: seq<Sample>, r: Result<seq<Sample>>): Result<seq<Sample>> {
    if r.Err? then r else Ok(samples + r.value)
  }

  lemma PrependOne(samples: seq<Sample>, x: Sample, r: Result<seq<Sample>>)
    ensures Prepend(samples, Prepend([x], r)) == Prepend(samples + [x], r)
  {
    if r.Ok? {
      assert samples + ([x] + r.value) == samples + [x] + r.value;
    }
  }

  // ---- What a capture returns ----

  /** The bytes delivered before the first round without data. */
  function Delivered(rounds: seq<Read>): seq<Byte> {
    if rounds == [] || !rounds[0].Chunk? || rounds[0].bytes == [] then [] else rounds[0].bytes + Delivered(rounds[1..])
  }

  /** `samples` are the parses of the first of `lines`. */
  ghost predicate FirstSamples(samples: seq<Sample>, lines: seq<seq<Byte>>, parse: seq<Byte> -> Option<Sample>) {
    && |samples| <= |lines|
    && forall i :: 0 <= i < |samples| ==> parse(lines[i]) == Some(samples[i])
  }

  lemma {:induction false} FirstNewlineOfConcat(a: seq<Byte>, b: seq<Byte>)
    ensures FirstNewline(a + b) == if FirstNewline(a) < |a| then FirstNewline(a) else |a| + FirstNewline(b)
  {
    if a == [] {
      assert a + b == b;
    } else {
      assert (a + b)[0] == a[0] && (a + b)[1..] == a[1..] + b;
      FirstNewlineOfConcat(a[1..], b);
    }
  }

  /** The first line decides how the lines, the newlines and what follows them go on. */
  lemma {:induction false} FirstLine(s: seq<Byte>, later: seq<Byte>)
    requires FirstNewline(s) < |s|
    ensures var n := FirstNewline(s);
            && FirstNewline(s + later) == n && (s + later)[..n] == s[..n] && (s + later)[n + 1..] == s[n + 1..] + later
  {
    FirstNewlineOfConcat(s, later);
  }

  /** Taking a line out of the buffer takes it off the front of the stream's lines. */
  lemma {:induction false} ReadItemTakesFirst(buffer: seq<Byte>, later: seq<Byte>)
    ensures var item := ReadItem(buffer);
            Lines(buffer + later) == (if item.Line? then [item.raw] else []) + Lines(item.buffer + later)
  {
    if FirstNewline(buffer) < |buffer| {
      FirstLine(buffer, later);
    }
  }

  lemma {:induction false} RoundTakesFirst(rounds: seq<Read>, buffer: seq<Byte>)
    requires rounds != [] && rounds[0].Chunk? && rounds[0].bytes != []
    ensures var item, later := ReadItem(buffer + rounds[0].bytes), Delivered(rounds[1..]);
            Lines(buffer + Delivered(rounds)) == (if item.Line? then [item.raw] else []) + Lines(item.buffer + later)
  {
    var filled, later := buffer + rounds[0].bytes, Delivered(rounds[1..]);
    assert buffer + Delivered(rounds) == filled + later;
    ReadItemTakesFirst(filled, later);
  }

  /** One round of a successful capture that still needs a sample. */
  lemma {:induction false} PullRound(rounds: seq<Read>, buffer: seq<Byte>, need: nat, maxBytes: nat, parse: seq<Byte> -> Option<Sample>)
    requires need > 0 && Pull(rounds, buffer, need, maxBytes, parse).Ok?
    ensures rounds != [] && rounds[0].Chunk? && rounds[0].bytes != []
    ensures var item := ReadItem(buffer + rounds[0].bytes);
            var v := Pull(rounds, buffer, need, maxBytes, parse).value;
            if item.Nothing? then Pull(rounds[1..], item.buffer, need, maxBytes, parse) == Ok(v)
            else
              var more := Pull(rounds[1..], item.buffer, need - 1, maxBytes, parse);
              more.Ok? && parse(item.raw).Some? && v == [parse(item.raw).value] + more.value
  {
  }

  lemma {:induction false} PullReturnsFirstLines(rounds: seq<Read>, buffer: seq<Byte>, need: nat, maxBytes: nat,
                                                 parse: seq<Byte> -> Option<Sample>)
    requires Pull(rounds, buffer, need, maxBytes, parse).Ok?
    ensures var v := Pull(rounds, buffer, need, maxBytes, parse).value;
            |v| == need && FirstSamples(v, Lines(buffer + Delivered(rounds)), parse)
    decreases |rounds|
  {
    if need > 0 {
      PullRound(rounds, buffer, need, maxBytes, parse);
      RoundTakesFirst(rounds, buffer);
      var item := ReadItem(buffer + rounds[0].bytes);
      var lines := Lines(item.buffer + Delivered(rounds[1..]));
      if item.Nothing? {
        PullReturnsFirstLines(rounds[1..], item.buffer, need, maxBytes, parse);
        assert [] + lines == lines;
      } else {
        PullReturnsFirstLines(rounds[1..], item.buffer, need - 1, maxBytes, parse);
        OneMoreSample(parse(item.raw).value, Pull(rounds[1..], item.buffer, need - 1, maxBytes, parse).value, item.raw, lines,
                      parse);
      }
    }
  }

  lemma OneMoreSample(x: Sample, samples: seq<Sample>, raw: seq<Byte>, lines: seq<seq<Byte>>,
                      parse: seq<Byte> -> Option<Sample>)
    requires parse(raw) == Some(x) && FirstSamples(samples, lines, parse)
    ensures FirstSamples([x] + samples, [raw] + lines, parse)
  {
  }

  /** More bytes never change the lines already complete. */
  lemma {:induction false} LinesOfPrefix(s: seq<Byte>, t: seq<Byte>)
    requires s <= t
    ensures Lines(s) <= Lines(t)
    decreases |s|
  {
    var rest, item := t[|s|..], ReadItem(s);
    assert t == s + rest && s == s + [] && item.buffer == item.buffer + [];
    if FirstNewline(s) < |s| {
      ReadItemTakesFirst(s, []);
      ReadItemTakesFirst(s, rest);
      LinesOfPrefix(item.buffer, item.buffer + rest);
    }
  }

  /** A successful capture returns the parses of the first `maxSamples` non-blank lines of the stream it read from. */
  lemma CaptureReturnsFirstLines(stream: seq<Byte>, rounds: seq<Read>, maxSamples: int, maxBytes: int,
                                 parse: seq<Byte> -> Option<Sample>)
    requires Delivered(rounds) <= stream && Capture(rounds, maxSamples, maxBytes, parse).Ok?
    ensures var v := Capture(rounds, maxSamples, maxBytes, parse).value;
            |v| == maxSamples && FirstSamples(v, Lines(stream), parse)
  {
    PullReturnsFirstLines(rounds, [], maxSamples, maxBytes, parse);
    assert [] + Delivered(rounds) == Delivered(rounds);
    LinesOfPrefix(Delivered(rounds), stream);
  }

  lemma FirstSamplesUnique(v: seq<Sample>, w: seq<Sample>, lines: seq<seq<Byte>>, parse: seq<Byte> -> Option<Sample>)
    requires |v| == |w| && FirstSamples(v, lines, parse) && FirstSamples(w, lines, parse)
    ensures v == w
  {
    forall i | 0 <= i < |v| ensures v[i] == w[i] {
      assert Some(v[i]) == parse(lines[i]) == Some(w[i]);
    }
  }

  /** Any two successful captures of the same byte stream return the same samples however the reads were chunked. */
  lemma ChunkingDoesNotMatter(stream: seq<Byte>, a: seq<Read>, b: seq<Read>, maxSamples: int, maxA: int, maxB: int,
                              parse: seq<Byte> -> Option<Sample>)
    requires Delivered(a) <= stream && Delivered(b) <= stream
    requires Capture(a, maxSamples, maxA, parse).Ok? && Capture(b, maxSamples, maxB, parse).Ok?
    ensures Capture(a, maxSamples, maxA, parse) == Capture(b, maxSamples, maxB, parse)
  {
    CaptureReturnsFirstLines(stream, a, maxSamples, maxA, parse);
    CaptureReturnsFirstLines(stream, b, maxSamples, maxB, parse);
    FirstSamplesUnique(Capture(a, maxSamples, maxA, parse).value, Capture(b, maxSamples, maxB, parse).value, Lines(stream),
                       parse);
  }

  /** A stripped single character and its newline. */
  lemma OneCharLine(c: Byte, later: seq<Byte>)
    requires !Blank(c)
    ensures ReadItem([c, 10] + later) == Line([c], later)
  {
    var s := [c, 10] + later;
    assert s[1..][0] == Newline;
    assert FirstNewline(s[1..]) == 0;
    assert FirstNewline(s) == 1;
    assert s[..1] == [c] && s[2..] == later;
  }

  lemma PullLine(c: Byte, chunk: seq<Byte>, later: seq<Byte>, rounds: seq<Read>, need: nat,
                 parse: seq<Byte> -> Option<Sample>, x: Sample)
    requires !Blank(c) && parse([c]) == Some(x) && need > 0 && chunk == [c, 10] + later && |chunk| <= 100
    ensures Pull([Chunk(chunk)] + rounds, [], need, 100, parse) == Prepend([x], Pull(rounds, later, need - 1, 100, parse))
  {
    OneCharLine(c, later);
    var all := [Chunk(chunk)] + rounds;
    assert all[1..] == rounds && [] + chunk == chunk;
  }

  /** Whether a capture succeeds does depend on the chunking: two lines in one chunk before the end give up after the first. */
  lemma OneLinePerRead(parse: seq<Byte> -> Option<Sample>)
    requires parse([65]) == Some("A") && parse([66]) == Some("B")
    ensures Capture([Chunk([65, 10])] + ([Chunk([66, 10])] + [Chunk([])]), 2, 100, parse) == Ok(["A", "B"])
    ensures Capture([Chunk([65, 10, 66, 10])] + [Chunk([])], 2, 100, parse) == Err(Ended)
  {
    assert [65, 10] == [65, 10] + [] && [66, 10] == [66, 10] + [] && [65, 10, 66, 10] == [65, 10] + [66, 10];
    PullLine(66, [66, 10], [], [Chunk([])], 1, parse, "B");
    assert Pull([Chunk([])], [], 0, 100, parse) == Ok([]);
    assert ["B"] + [] == ["B"] && ["A"] + ["B"] == ["A", "B"];
    PullLine(65, [65, 10], [], [Chunk([66, 10])] + [Chunk([])], 2, parse, "A");
    PullLine(65, [65, 10, 66, 10], [66, 10], [Chunk([])], 2, parse, "A");
    assert Pull([Chunk([])], [66, 10], 1, 100, parse) == Err(Ended);
  }

  // ---- When a capture succeeds ----

  function Newlines(s: seq<Byte>): nat {
    var n := FirstNewline(s);
    if n == |s| then 0 else 1 + Newlines(s[n + 1..])
  }

  /** What is left of `s` behind its first `t` newlines. */
  function Rest(s: seq<Byte>, t: nat): (r: seq<Byte>)
    requires t <= Newlines(s)
    ensures |r| <= |s|
  {
    if t == 0 then s else Rest(s[FirstNewline(s) + 1..], t - 1)
  }

  /** How many of the lines before the `t`-th newline are not blank. */
  function LinesBefore(s: seq<Byte>, t: nat): nat
    requires t <= Newlines(s)
  {
    if t == 0 then 0
    else
      var n := FirstNewline(s);
      (if Strip(s[..n], Blank) == [] then 0 else 1) + LinesBefore(s[n + 1..], t - 1)
  }

  lemma {:induction false} ConcatKeepsLines(s: seq<Byte>, u: seq<Byte>, t: nat)
    requires t <= Newlines(s)
    ensures Newlines(s) <= Newlines(s + u)
    ensures Rest(s + u, t) == Rest(s, t) + u && LinesBefore(s + u, t) == LinesBefore(s, t)
    decreases |s|
  {
    var n := FirstNewline(s);
    if n < |s| {
      FirstLine(s, u);
      ConcatKeepsLines(s[n + 1..], u, if t == 0 then 0 else t - 1);
    }
  }

  /** The lines behind `t` newlines are the lines of the rest. */
  lemma {:induction false} LinesOfRest(s: seq<Byte>, t: nat)
    requires t <= Newlines(s)
    ensures Newlines(Rest(s, t)) == Newlines(s) - t
    ensures LinesBefore(s, t) <= |Lines(s)| && Lines(Rest(s, t)) == Lines(s)[LinesBefore(s, t)..]
    decreases t
  {
    if t > 0 {
      LinesOfRest(s[FirstNewline(s) + 1..], t - 1);
    }
  }

  lemma {:induction false} RestNext(s: seq<Byte>, t: nat)
    requires t < Newlines(s)
    ensures var u := Rest(s, t);
            var n := FirstNewline(u);
            && n < |u| && Rest(s, t + 1) == u[n + 1..]
            && LinesBefore(s, t + 1) == LinesBefore(s, t) + (if Strip(u[..n], Blank) == [] then 0 else 1)
    decreases t
  {
    var n := FirstNewline(s);
    if t > 0 {
      RestNext(s[n + 1..], t - 1);
    } else {
      assert Rest(s, 1) == Rest(s[n + 1..], 0);
      assert LinesBefore(s[n + 1..], 0) == 0;
    }
  }

  /** Reading one item behind `t` newlines goes behind the next one if there is one, and yields that line unless blank. */
  lemma {:induction false} ReadBehind(s: seq<Byte>, t: nat)
    requires t <= Newlines(s)
    ensures LinesBefore(s, t) <= |Lines(s)|
    ensures t == Newlines(s) ==> ReadItem(Rest(s, t)) == Nothing(Rest(s, t)) && LinesBefore(s, t) == |Lines(s)|
    ensures t < Newlines(s) ==>
              var item := ReadItem(Rest(s, t));
              && item.buffer == Rest(s, t + 1)
              && LinesBefore(s, t + 1) == LinesBefore(s, t) + (if item.Line? then 1 else 0)
              && (item.Line? ==> LinesBefore(s, t) < |Lines(s)| && item.raw == Lines(s)[LinesBefore(s, t)])
  {
    LinesOfRest(s, t);
    var u := Rest(s, t);
    if t < Newlines(s) {
      RestNext(s, t);
      assert ReadItem(u).Line? ==> Lines(u)[0] == ReadItem(u).raw;
    } else {
      assert Lines(u) == [];
    }
  }

  /** The leading rounds that bring data. */
  function DataRounds(rounds: seq<Read>): (k: nat)
    ensures k <= |rounds|
    ensures forall i :: 0 <= i < k ==> rounds[i].Chunk? && rounds[i].bytes != []
    ensures k < |rounds| ==> !(rounds[k].Chunk? && rounds[k].bytes != [])
  {
    if rounds == [] || !rounds[0].Chunk? || rounds[0].bytes == [] then 0 else 1 + DataRounds(rounds[1..])
  }

  /** The bytes of the first `r` rounds. */
  function Prefix(rounds: seq<Read>, r: nat): seq<Byte>
    requires r <= DataRounds(rounds)
  {
    if r == 0 then [] else Prefix(rounds, r - 1) + rounds[r - 1].bytes
  }

  /** The newlines passed after `r` reads: one more per read, as far as the bytes go. */
  function Taken(rounds: seq<Read>, r: nat): (t: nat)
    requires r <= DataRounds(rounds)
    ensures t <= Newlines(Prefix(rounds, r))
  {
    if r == 0 then 0
    else
      var t, n := Taken(rounds, r - 1), Newlines(Prefix(rounds, r));
      if t < n then t + 1 else n
  }

  lemma {:induction false} TakenFits(rounds: seq<Read>, r: nat)
    requires r < DataRounds(rounds)
    ensures Taken(rounds, r) <= Newlines(Prefix(rounds, r)) <= Newlines(Prefix(rounds, r + 1))
  {
    ConcatKeepsLines(Prefix(rounds, r), rounds[r].bytes, 0);
  }

  /** The buffer right after read `r`, before an item is taken out of it. */
  function Filled(rounds: seq<Read>, r: nat): seq<Byte>
    requires 1 <= r <= DataRounds(rounds)
  {
    TakenFits(rounds, r - 1);
    Rest(Prefix(rounds, r), Taken(rounds, r - 1))
  }

  /** The samples that `r` reads can have yielded. */
  function Yielded(rounds: seq<Read>, r: nat): nat
    requires r <= DataRounds(rounds)
  {
    LinesBefore(Prefix(rounds, r), Taken(rounds, r))
  }

  ghost predicate ParsesFirst(lines: seq<seq<Byte>>, n: nat, parse: seq<Byte> -> Option<Sample>) {
    n <= |lines| && forall i :: 0 <= i < n ==> parse(lines[i]).Some?
  }

  /** From `r` on something passes `enough` by `k`, and `fits` holds of every step up to it. */
  ghost predicate Attains(k: nat, r: nat, enough: nat -> bool, fits: nat -> bool) {
    exists q :: r <= q <= k && enough(q) && FitsUntil(r, q, fits)
  }

  ghost predicate FitsUntil(r: nat, q: nat, fits: nat -> bool) {
    forall p :: r < p <= q ==> fits(p)
  }

  lemma AttainsStep(k: nat, r: nat, enough: nat -> bool, fits: nat -> bool)
    requires r <= k && !enough(r)
    ensures Attains(k, r, enough, fits) <==> r < k && fits(r + 1) && Attains(k, r + 1, enough, fits)
  {
    if Attains(k, r, enough, fits) {
      var q :| r <= q <= k && enough(q) && FitsUntil(r, q, fits);
      assert FitsUntil(r + 1, q, fits);
    }
    if r < k && fits(r + 1) && Attains(k, r + 1, enough, fits) {
      var q :| r + 1 <= q <= k && enough(q) && FitsUntil(r + 1, q, fits);
      assert FitsUntil(r, q, fits);
    }
  }

  ghost function EnoughAfter(rounds: seq<Read>, need: nat): nat -> bool {
    (q: nat) => q <= DataRounds(rounds) && Yielded(rounds, q) >= need
  }

  ghost function RoomAt(rounds: seq<Read>, maxBytes: nat): nat -> bool {
    (p: nat) => 1 <= p <= DataRounds(rounds) && |Filled(rounds, p)| <= maxBytes
  }

  /** From read `r` on, some read brings the yield to `need` before the buffer overflows, and the lines parse. */
  ghost predicate Succeeds(rounds: seq<Read>, r: nat, need: nat, maxBytes: nat, parse: seq<Byte> -> Option<Sample>)
    requires r <= DataRounds(rounds)
  {
    && ParsesFirst(Lines(Prefix(rounds, DataRounds(rounds))), need, parse)
    && Attains(DataRounds(rounds), r, EnoughAfter(rounds, need), RoomAt(rounds, maxBytes))
  }

  lemma {:induction false} PrefixGrows(rounds: seq<Read>, r: nat, q: nat)
    requires r <= q <= DataRounds(rounds)
    ensures Prefix(rounds, r) <= Prefix(rounds, q)
    decreases q
  {
    if r < q {
      PrefixGrows(rounds, r, q - 1);
    }
  }

  /** A chunk `u` arrives behind `s`, of which `t` newlines are passed, and one item is taken out. */
  lemma {:induction false} ReadChunk(s: seq<Byte>, u: seq<Byte>, t: nat, next: nat)
    requires t <= Newlines(s) && t <= Newlines(s + u) && next == if t < Newlines(s + u) then t + 1 else t
    ensures var item := ReadItem(Rest(s + u, t));
            && Rest(s, t) + u == Rest(s + u, t)
            && item.buffer == Rest(s + u, next)
            && LinesBefore(s + u, next) == LinesBefore(s, t) + (if item.Line? then 1 else 0)
            && (item.Line? ==> LinesBefore(s, t) < |Lines(s + u)| && item.raw == Lines(s + u)[LinesBefore(s, t)])
  {
    ConcatKeepsLines(s, u, t);
    ReadBehind(s + u, t);
  }

  /** One read of the loop in terms of the stream. */
  lemma {:induction false} OneRead(rounds: seq<Read>, r: nat)
    requires r < DataRounds(rounds)
    ensures var buffer := Rest(Prefix(rounds, r), Taken(rounds, r));
            var item := ReadItem(Filled(rounds, r + 1));
            && buffer + rounds[r].bytes == Filled(rounds, r + 1)
            && item.buffer == Rest(Prefix(rounds, r + 1), Taken(rounds, r + 1))
            && Yielded(rounds, r + 1) == Yielded(rounds, r) + (if item.Line? then 1 else 0)
            && (item.Line? ==> Yielded(rounds, r) < |Lines(Prefix(rounds, r + 1))|
                               && item.raw == Lines(Prefix(rounds, r + 1))[Yielded(rounds, r)])
  {
    TakenFits(rounds, r);
    ReadChunk(Prefix(rounds, r), rounds[r].bytes, Taken(rounds, r), Taken(rounds, r + 1));
  }

  /** The line a read yields is the next line of the whole stream. */
  lemma {:induction false} NextLine(rounds: seq<Read>, r: nat)
    requires r < DataRounds(rounds) && ReadItem(Filled(rounds, r + 1)).Line?
    ensures var lines := Lines(Prefix(rounds, DataRounds(rounds)));
            Yielded(rounds, r) < |lines| && ReadItem(Filled(rounds, r + 1)).raw == lines[Yielded(rounds, r)]
  {
    OneRead(rounds, r);
    PrefixGrows(rounds, r + 1, DataRounds(rounds));
    LinesOfPrefix(Prefix(rounds, r + 1), Prefix(rounds, DataRounds(rounds)));
  }

  lemma {:induction false} SucceedsStep(rounds: seq<Read>, r: nat, need: nat, maxBytes: nat, parse: seq<Byte> -> Option<Sample>)
    requires r <= DataRounds(rounds) && Yielded(rounds, r) < need
    ensures Succeeds(rounds, r, need, maxBytes, parse) <==>
            r < DataRounds(rounds) && |Filled(rounds, r + 1)| <= maxBytes && Succeeds(rounds, r + 1, need, maxBytes, parse)
  {
    AttainsStep(DataRounds(rounds), r, EnoughAfter(rounds, need), RoomAt(rounds, maxBytes));
  }

  lemma SucceedsNow(rounds: seq<Read>, r: nat, need: nat, maxBytes: nat, parse: seq<Byte> -> Option<Sample>)
    requires r <= DataRounds(rounds) && Yielded(rounds, r) == need
    requires ParsesFirst(Lines(Prefix(rounds, DataRounds(rounds))), need, parse)
    ensures Succeeds(rounds, r, need, maxBytes, parse)
  {
    assert EnoughAfter(rounds, need)(r) && FitsUntil(r, r, RoomAt(rounds, maxBytes));
  }

  /** The loop succeeds from where `r` reads have brought it. */
  ghost predicate PullOk(rounds: seq<Read>, r: nat, need: nat, maxBytes: nat, parse: seq<Byte> -> Option<Sample>)
    requires r <= DataRounds(rounds) && Yielded(rounds, r) <= need
  {
    Pull(rounds[r..], Rest(Prefix(rounds, r), Taken(rounds, r)), need - Yielded(rounds, r), maxBytes, parse).Ok?
  }

  /** One round of the loop that brings data, for any buffer. */
  lemma {:induction false} PullRead(rounds: seq<Read>, r: nat, buffer: seq<Byte>, left: nat, maxBytes: nat,
                                    parse: seq<Byte> -> Option<Sample>)
    requires r < DataRounds(rounds) && left > 0
    ensures var filled := buffer + rounds[r].bytes;
            var item := ReadItem(filled);
            Pull(rounds[r..], buffer, left, maxBytes, parse).Ok? <==>
              && |filled| <= maxBytes
              && (item.Line? ==> parse(item.raw).Some?)
              && Pull(rounds[r + 1..], item.buffer, if item.Line? then left - 1 else left, maxBytes, parse).Ok?
  {
    assert rounds[r..][0] == rounds[r] && rounds[r..][1..] == rounds[r + 1..];
  }

  /** The same in terms of the stream. */
  lemma {:induction false} PullData(rounds: seq<Read>, r: nat, need: nat, maxBytes: nat, parse: seq<Byte> -> Option<Sample>)
    requires r < DataRounds(rounds) && Yielded(rounds, r) < need
    ensures Yielded(rounds, r + 1) <= need
    ensures var item := ReadItem(Filled(rounds, r + 1));
            PullOk(rounds, r, need, maxBytes, parse) <==>
              && |Filled(rounds, r + 1)| <= maxBytes
              && (item.Line? ==> parse(item.raw).Some?)
              && PullOk(rounds, r + 1, need, maxBytes, parse)
  {
    OneRead(rounds, r);
    PullRead(rounds, r, Rest(Prefix(rounds, r), Taken(rounds, r)), need - Yielded(rounds, r), maxBytes, parse);
  }

  lemma {:induction false} PullWithoutData(rounds: seq<Read>, buffer: seq<Byte>, left: nat, maxBytes: nat,
                                           parse: seq<Byte> -> Option<Sample>)
    requires left > 0
    ensures Pull(rounds[DataRounds(rounds)..], buffer, left, maxBytes, parse).Err?
  {
    var k := DataRounds(rounds);
    assert k < |rounds| ==> rounds[k..][0] == rounds[k];
  }

  /** What read `r` adds to the lines known to parse. */
  lemma {:induction false} ParsesNext(rounds: seq<Read>, r: nat, parse: seq<Byte> -> Option<Sample>)
    requires r < DataRounds(rounds)
    requires ParsesFirst(Lines(Prefix(rounds, DataRounds(rounds))), Yielded(rounds, r), parse)
    ensures var item := ReadItem(Filled(rounds, r + 1));
            ParsesFirst(Lines(Prefix(rounds, DataRounds(rounds))), Yielded(rounds, r + 1), parse) <==>
              (item.Line? ==> parse(item.raw).Some?)
    ensures var item := ReadItem(Filled(rounds, r + 1));
            Yielded(rounds, r + 1) == Yielded(rounds, r) + (if item.Line? then 1 else 0)
  {
    OneRead(rounds, r);
    var item := ReadItem(Filled(rounds, r + 1));
    if item.Line? {
      NextLine(rounds, r);
      OneMoreParses(Lines(Prefix(rounds, DataRounds(rounds))), Yielded(rounds, r), item.raw, parse);
    }
  }

  lemma OneMoreParses(lines: seq<seq<Byte>>, n: nat, raw: seq<Byte>, parse: seq<Byte> -> Option<Sample>)
    requires n < |lines| && raw == lines[n] && ParsesFirst(lines, n, parse)
    ensures ParsesFirst(lines, n + 1, parse) <==> parse(raw).Some?
  {
  }

  lemma {:induction false} PullSucceeds(rounds: seq<Read>, r: nat, need: nat, maxBytes: nat, parse: seq<Byte> -> Option<Sample>)
    requires r <= DataRounds(rounds) && Yielded(rounds, r) <= need
    requires ParsesFirst(Lines(Prefix(rounds, DataRounds(rounds))), Yielded(rounds, r), parse)
    ensures PullOk(rounds, r, need, maxBytes, parse) <==> Succeeds(rounds, r, need, maxBytes, parse)
    decreases DataRounds(rounds) - r
  {
    if Yielded(rounds, r) == need {
      SucceedsNow(rounds, r, need, maxBytes, parse);
    } else {
      SucceedsStep(rounds, r, need, maxBytes, parse);
      if r == DataRounds(rounds) {
        PullWithoutData(rounds, Rest(Prefix(rounds, r), Taken(rounds, r)), need - Yielded(rounds, r), maxBytes, parse);
      } else {
        PullData(rounds, r, need, maxBytes, parse);
        ParsesNext(rounds, r, parse);
        if ParsesFirst(Lines(Prefix(rounds, DataRounds(rounds))), Yielded(rounds, r + 1), parse) {
          PullSucceeds(rounds, r + 1, need, maxBytes, parse);
        } else {
          FewerParse(Lines(Prefix(rounds, DataRounds(rounds))), Yielded(rounds, r + 1), need, parse);
        }
      }
    }
  }

  lemma FewerParse(lines: seq<seq<Byte>>, n: nat, m: nat, parse: seq<Byte> -> Option<Sample>)
    requires n <= m && !ParsesFirst(lines, n, parse)
    ensures !ParsesFirst(lines, m, parse)
  {
  }

  /**
   A capture succeeds if and only if its bounds are positive, the first `maxSamples` non-blank lines of what was delivered
   all parse, and at some read the lines passed at one per read contain that many before any buffer exceeded its bound.
   */
  lemma CaptureSucceedsIff(rounds: seq<Read>, maxSamples: int, maxBytes: int, parse: seq<Byte> -> Option<Sample>)
    ensures Capture(rounds, maxSamples, maxBytes, parse).Ok? <==>
            maxSamples > 0 && maxBytes > 0 && Succeeds(rounds, 0, maxSamples, maxBytes, parse)
  {
    if maxSamples > 0 && maxBytes > 0 {
      assert rounds[0..] == rounds;
      PullSucceeds(rounds, 0, maxSamples, maxBytes, parse);
    }
  }

  // ---- Why a capture fails ----

  /** The first `k` rounds bring data and are not enough; what happens then is why the capture fails. */
  ghost predicate FailsAt(rounds: seq<Read>, k: nat, maxBytes: nat, parse: seq<Byte> -> Option<Sample>, e: CaptureError) {
    && k <= |rounds|
    && (forall i :: 0 <= i < k ==> rounds[i].Chunk? && rounds[i].bytes != [])
    && match e
       case BadBounds => false
       case TimedOut => k == |rounds| || rounds[k] == Timeout
       case ReadFailed => k < |rounds| && rounds[k] == OsError
       case Ended => k < |rounds| && rounds[k] == Chunk([])
       case TooLong => k < |rounds| && rounds[k].Chunk? && |Delivered(rounds[..k + 1])| > maxBytes
       case NotNormalized => exists line :: line in Lines(Delivered(rounds)) && parse(line) == None
  }

  /** The same with bytes already in the buffer. */
  ghost predicate FailsBehind(buffer: seq<Byte>, rounds: seq<Read>, k: nat, maxBytes: nat, parse: seq<Byte> -> Option<Sample>,
                              e: CaptureError)
  {
    && k <= |rounds|
    && (forall i :: 0 <= i < k ==> rounds[i].Chunk? && rounds[i].bytes != [])
    && match e
       case BadBounds => false
       case TimedOut => k == |rounds| || rounds[k] == Timeout
       case ReadFailed => k < |rounds| && rounds[k] == OsError
       case Ended => k < |rounds| && rounds[k] == Chunk([])
       case TooLong => k < |rounds| && rounds[k].Chunk? && |buffer| + |Delivered(rounds[..k + 1])| > maxBytes
       case NotNormalized => exists line :: line in Lines(buffer + Delivered(rounds)) && parse(line) == None
  }

  lemma {:induction false} PullFails(rounds: seq<Read>, buffer: seq<Byte>, need: nat, maxBytes: nat,
                                     parse: seq<Byte> -> Option<Sample>) returns (k: nat)
    requires Pull(rounds, buffer, need, maxBytes, parse).Err?
    ensures FailsBehind(buffer, rounds, k, maxBytes, parse, Pull(rounds, buffer, need, maxBytes, parse).error)
    decreases |rounds|
  {
    k := 0;
    if rounds != [] && rounds[0].Chunk? && rounds[0].bytes != [] {
      var item := ReadItem(buffer + rounds[0].bytes);
      if |buffer + rounds[0].bytes| > maxBytes {
        FirstDelivered(rounds);
      } else if item.Line? && parse(item.raw).None? {
        RoundTakesFirst(rounds, buffer);
        assert ([item.raw] + Lines(item.buffer + Delivered(rounds[1..])))[0] == item.raw;
      } else {
        var e := Pull(rounds, buffer, need, maxBytes, parse).error;
        k := PullFails(rounds[1..], item.buffer, if item.Line? then need - 1 else need, maxBytes, parse);
        FailsLater(buffer, rounds, k, maxBytes, parse, e);
        k := k + 1;
      }
    }
  }

  lemma FirstDelivered(rounds: seq<Read>)
    requires rounds != [] && rounds[0].Chunk? && rounds[0].bytes != []
    ensures Delivered(rounds[..1]) == rounds[0].bytes
  {
    assert rounds[..1][0] == rounds[0] && rounds[..1][1..] == [];
    assert rounds[0].bytes + [] == rounds[0].bytes;
  }

  lemma FailsLater(buffer: seq<Byte>, rounds: seq<Read>, k: nat, maxBytes: nat, parse: seq<Byte> -> Option<Sample>,
                   e: CaptureError)
    requires rounds != [] && rounds[0].Chunk? && rounds[0].bytes != []
    requires FailsBehind(ReadItem(buffer + rounds[0].bytes).buffer, rounds[1..], k, maxBytes, parse, e)
    ensures FailsBehind(buffer, rounds, k + 1, maxBytes, parse, e)
  {
    var item := ReadItem(buffer + rounds[0].bytes);
    assert |item.buffer| <= |buffer| + |rounds[0].bytes|;
    assert forall i :: 0 < i < |rounds| ==> rounds[i] == rounds[1..][i - 1];
    if e == TooLong {
      assert rounds[..k + 2][0] == rounds[0] && rounds[..k + 2][1..] == rounds[1..][..k + 1];
    }
    if e == NotNormalized {
      RoundTakesFirst(rounds, buffer);
      var lines, front := Lines(item.buffer + Delivered(rounds[1..])), if item.Line? then [item.raw] else [];
      var line :| line in lines && parse(line) == None;
      assert line in front + lines;
    }
  }

  /** A failed capture reports the reason: its bounds, or what the first round without progress brought. */
  lemma CaptureFails(rounds: seq<Read>, maxSamples: int, maxBytes: int, parse: seq<Byte> -> Option<Sample>)
    requires Capture(rounds, maxSamples, maxBytes, parse).Err?
    ensures var e := Capture(rounds, maxSamples, maxBytes, parse).error;
            if maxSamples < 1 || maxBytes < 1 then e == BadBounds
            else exists k: nat :: FailsAt(rounds, k, maxBytes, parse, e)
  {
    if maxSamples >= 1 && maxBytes >= 1 {
      var k := PullFails(rounds, [], maxSamples, maxBytes, parse);
      assert [] + Delivered(rounds) == Delivered(rounds);
      assert FailsAt(rounds, k, maxBytes, parse, Capture(rounds, maxSamples, maxBytes, parse).error);
    }
  }

  // ---- One line per read, in closed form ----

  lemma {:induction false} TakenAtMost(rounds: seq<Read>, s: nat, r: nat)
    requires s <= r <= DataRounds(rounds)
    ensures Taken(rounds, r) <= Newlines(Prefix(rounds, s)) + (r - s)
    decreases r
  {
    if s < r {
      TakenAtMost(rounds, s, r - 1);
      TakenFits(rounds, r - 1);
    }
  }

  lemma {:induction false} TakenAttained(rounds: seq<Read>, r: nat) returns (s: nat)
    requires r <= DataRounds(rounds)
    ensures s <= r && Taken(rounds, r) == Newlines(Prefix(rounds, s)) + (r - s)
    decreases r
  {
    if r == 0 || Taken(rounds, r) == Newlines(Prefix(rounds, r)) {
      s := r;
    } else {
      TakenFits(rounds, r - 1);
      s := TakenAttained(rounds, r - 1);
    }
  }

  /** The newlines passed after `r` reads are the least, over `s`, of those delivered by read `s` plus one per later read. */
  lemma TakenClosedForm(rounds: seq<Read>, r: nat, t: nat)
    requires r <= DataRounds(rounds)
    ensures t == Taken(rounds, r) <==>
            && (forall s: nat :: s <= r ==> t <= Newlines(Prefix(rounds, s)) + (r - s))
            && (exists s: nat :: s <= r && t == Newlines(Prefix(rounds, s)) + (r - s))
  {
    forall s: nat | s <= r ensures Taken(rounds, r) <= Newlines(Prefix(rounds, s)) + (r - s) {
      TakenAtMost(rounds, s, r);
    }
    var s := TakenAttained(rounds, r);
  }

  lemma {:induction false} NewlinesAdd(s: seq<Byte>, u: seq<Byte>)
    ensures Newlines(s + u) == Newlines(s) + Newlines(u)
    decreases |s|
  {
    var n, m := FirstNewline(s), FirstNewline(u);
    if n < |s| {
      FirstLine(s, u);
      NewlinesAdd(s[n + 1..], u);
    } else {
      FirstNewlineOfConcat(s, u);
      if m < |u| {
        assert (s + u)[|s| + m + 1..] == u[m + 1..];
      }
    }
  }

  lemma NewlineByte(b: Byte)
    ensures Newlines([b]) == if b == 10 then 1 else 0
  {
    FirstNewlineIs([b], if b == 10 then 0 else 1);
    assert [b][1..] == [];
  }

  lemma LastByteCounts(s: seq<Byte>)
    requires s != []
    ensures var n := |s| - 1;
            |set k | 0 <= k < |s| && s[k] == 10| == |set k | 0 <= k < n && s[..n][k] == 10| + (if s[n] == 10 then 1 else 0)
  {
    var n := |s| - 1;
    var before := set k | 0 <= k < n && s[..n][k] == 10;
    assert (set k | 0 <= k < |s| && s[k] == 10) == if s[n] == 10 then before + {n} else before;
  }

  /** The newlines are the bytes 10. */
  lemma {:induction false} NewlinesCounted(s: seq<Byte>)
    ensures Newlines(s) == |set k | 0 <= k < |s| && s[k] == 10|
  {
    if s == [] {
      assert Newlines([]) == 0;
    } else {
      var n := |s| - 1;
      NewlinesCounted(s[..n]);
      NewlinesAdd(s[..n], [s[n]]);
      NewlineByte(s[n]);
      LastByteCounts(s);
      assert s == s[..n] + [s[n]];
    }
  }

  /** When no chunk holds more than one newline, the reads keep up with the stream. */
  lemma {:induction false} KeepsUp(rounds: seq<Read>, r: nat)
    requires r <= DataRounds(rounds)
    requires forall i :: 0 <= i < DataRounds(rounds) ==> Newlines(rounds[i].bytes) <= 1
    ensures Taken(rounds, r) == Newlines(Prefix(rounds, r))
  {
    if r > 0 {
      KeepsUp(rounds, r - 1);
      NewlinesAdd(Prefix(rounds, r - 1), rounds[r - 1].bytes);
    }
  }

  lemma {:induction false} FilledAtMost(rounds: seq<Read>, p: nat)
    requires 1 <= p <= DataRounds(rounds)
    ensures |Filled(rounds, p)| <= |Prefix(rounds, DataRounds(rounds))|
  {
    PrefixGrows(rounds, p, DataRounds(rounds));
  }

  /**
   With at most one newline per chunk and room for everything delivered, a capture succeeds if and only if enough
   non-blank lines were delivered and the first of them parse.
   */
  lemma OneLinePerChunkSucceedsIff(rounds: seq<Read>, maxSamples: int, maxBytes: int, parse: seq<Byte> -> Option<Sample>)
    requires maxSamples > 0 && maxBytes > 0 && |Delivered(rounds)| <= maxBytes
    requires forall i :: 0 <= i < DataRounds(rounds) ==> Newlines(rounds[i].bytes) <= 1
    ensures Capture(rounds, maxSamples, maxBytes, parse).Ok? <==> ParsesFirst(Lines(Delivered(rounds)), maxSamples, parse)
  {
    PrefixIsDelivered(rounds);
    var k := DataRounds(rounds);
    CaptureSucceedsIff(rounds, maxSamples, maxBytes, parse);
    KeepsUp(rounds, k);
    ReadBehind(Prefix(rounds, k), Taken(rounds, k));
    forall p | 0 < p <= k ensures RoomAt(rounds, maxBytes)(p) {
      FilledAtMost(rounds, p);
    }
    assert FitsUntil(0, k, RoomAt(rounds, maxBytes));
    assert Yielded(rounds, k) == |Lines(Prefix(rounds, k))|;
    if ParsesFirst(Lines(Prefix(rounds, k)), maxSamples, parse) {
      assert EnoughAfter(rounds, maxSamples)(k);
    }
  }

  /** The bytes of the leading data rounds are what is delivered. */
  lemma {:induction false} PrefixIsDelivered(rounds: seq<Read>)
    ensures Prefix(rounds, DataRounds(rounds)) == Delivered(rounds)
  {
    PrefixTail(rounds, 0);
  }

  lemma {:induction false} PrefixTail(rounds: seq<Read>, r: nat)
    requires r <= DataRounds(rounds)
    ensures Prefix(rounds, DataRounds(rounds)) == Prefix(rounds, r) + Delivered(rounds[r..])
    decreases DataRounds(rounds) - r
  {
    if r < DataRounds(rounds) {
      PrefixTail(rounds, r + 1);
      assert rounds[r..][0] == rounds[r] && rounds[r..][1..] == rounds[r + 1..];
    } else if r < |rounds| {
      assert rounds[r..][0] == rounds[r];
    }
  }
}
