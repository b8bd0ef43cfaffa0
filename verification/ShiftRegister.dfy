/**
 Linear shift registers over an arbitrary word type: feeding a byte adds it to the register and shifts eight times. The
 laws below are all that the error-detection argument for CRC-32 needs; module `SensorFrame` supplies the machine.
 */
module ShiftRegister {

  /** `up` moves a word one byte up; `fits(k, w)` says that only the low `k` bytes of `w` are used. */
  datatype Machine<!Byte, !Word> = Machine(
    xor: (Word, Word) -> Word,
    shift: Word -> Word,
    up: Word -> Word,
    load: Byte -> Word,
    zero: Word,
    fits: (nat, Word) -> bool)

  ghost predicate Additive<Byte(!new), Word(!new)>(m: Machine<Byte, Word>) {
    && (forall a, b, c {:trigger m.xor(m.xor(a, b), c)} :: m.xor(m.xor(a, b), c) == m.xor(a, m.xor(c, b)))
    && (forall a {:trigger m.xor(a, m.zero)} :: m.xor(a, m.zero) == a)
  }

  ghost predicate Cancellative<Byte(!new), Word(!new)>(m: Machine<Byte, Word>) {
    && (forall a, b, x {:trigger m.xor(x, a), m.xor(x, b)} :: m.xor(x, a) == m.xor(x, b) ==> a == b)
    && (forall a, b, x {:trigger m.xor(a, x), m.xor(b, x)} :: m.xor(a, x) == m.xor(b, x) ==> a == b)
  }

  ghost predicate LinearShift<Byte(!new), Word(!new)>(m: Machine<Byte, Word>) {
    && (forall a, b {:trigger m.shift(m.xor(a, b))} :: m.shift(m.xor(a, b)) == m.xor(m.shift(a), m.shift(b)))
    && (forall a, b {:trigger m.shift(a), m.shift(b)} :: m.shift(a) == m.shift(b) ==> a == b)
  }

  /** Short words are built and taken apart byte by byte, and eight shifts move one byte down. */
  ghost predicate Bytewise<Byte(!new), Word(!new)>(m: Machine<Byte, Word>) {
    && m.fits(0, m.zero)
    && (forall k: nat, w, b {:trigger m.fits(k, w), m.load(b)} ::
          k < 3 && m.fits(k, w) ==> m.fits(k + 1, m.xor(m.up(w), m.load(b))))
    && (forall k: nat, w {:trigger m.fits(k, w)} :: k <= 3 && m.fits(k, w) ==> m.fits(3, w))
    && (forall w {:trigger m.up(w)} :: m.fits(3, w) ==> Shifts(m, BitsPerByte, m.up(w)) == w)
    && (forall v, w, a, b {:trigger m.xor(m.up(v), m.load(a)), m.xor(m.up(w), m.load(b))} ::
          m.fits(3, v) && m.fits(3, w) && m.xor(m.up(v), m.load(a)) == m.xor(m.up(w), m.load(b)) ==> a == b && v == w)
  }

  ghost predicate Lawful<Byte(!new), Word(!new)>(m: Machine<Byte, Word>) {
    Additive(m) && Cancellative(m) && LinearShift(m) && Bytewise(m)
  }

  const BitsPerByte: nat := 8

  function Shifts<Byte, Word>(m: Machine<Byte, Word>, n: nat, c: Word): Word {
    if n == 0 then c else Shifts(m, n - 1, m.shift(c))
  }

  function Feed<Byte, Word>(m: Machine<Byte, Word>, c: Word, b: Byte): Word {
    Shifts(m, BitsPerByte, m.xor(c, m.load(b)))
  }

  /** The register after reading `data`. */
  function Register<Byte, Word>(m: Machine<Byte, Word>, data: seq<Byte>, c: Word): Word {
    if data == [] then c else Feed(m, Register(m, data[..|data| - 1], c), data[|data| - 1])
  }

  lemma {:induction false} ShiftsInjective<Byte(!new), Word(!new)>(m: Machine<Byte, Word>, n: nat, a: Word, b: Word)
    requires LinearShift(m) && Shifts(m, n, a) == Shifts(m, n, b)
    ensures a == b
    decreases n
  {
    if n > 0 {
      ShiftsInjective(m, n - 1, m.shift(a), m.shift(b));
    }
  }

  lemma {:induction false} ShiftsLinear<Byte(!new), Word(!new)>(m: Machine<Byte, Word>, n: nat, a: Word, b: Word)
    requires LinearShift(m)
    ensures Shifts(m, n, m.xor(a, b)) == m.xor(Shifts(m, n, a), Shifts(m, n, b))
    decreases n
  {
    if n > 0 {
      ShiftsLinear(m, n - 1, m.shift(a), m.shift(b));
    }
  }

  lemma {:induction false} RegisterConcat<Byte, Word>(m: Machine<Byte, Word>, a: seq<Byte>, b: seq<Byte>, c: Word)
    ensures Register(m, a + b, c) == Register(m, b, Register(m, a, c))
    decreases |b|
  {
    if b == [] {
      assert a + b == a;
    } else {
      RegisterConcat(m, a, b[..|b| - 1], c);
      assert (a + b)[..|a + b| - 1] == a + b[..|b| - 1];
    }
  }

  /** Reading the same bytes keeps different registers apart. */
  lemma {:induction false} RegisterInjective<Byte(!new), Word(!new)>(m: Machine<Byte, Word>, data: seq<Byte>, c: Word, d: Word)
    requires Lawful(m) && Register(m, data, c) == Register(m, data, d)
    ensures c == d
  {
    if data != [] {
      var front, x := data[..|data| - 1], m.load(data[|data| - 1]);
      ShiftsInjective(m, BitsPerByte, m.xor(Register(m, front, c), x), m.xor(Register(m, front, d), x));
      RegisterInjective(m, front, c, d);
    }
  }

  /** Up to four bytes as one word, first byte lowest. */
  function Pack<Byte, Word>(m: Machine<Byte, Word>, x: seq<Byte>): Word {
    if x == [] then m.zero else m.xor(m.up(Pack(m, x[1..])), m.load(x[0]))
  }

  function ByteShifts<Byte, Word>(m: Machine<Byte, Word>, n: nat, c: Word): Word {
    if n == 0 then c else ByteShifts(m, n - 1, Shifts(m, BitsPerByte, c))
  }

  lemma {:induction false} ByteShiftsInjective<Byte(!new), Word(!new)>(m: Machine<Byte, Word>, n: nat, a: Word, b: Word)
    requires Lawful(m) && ByteShifts(m, n, a) == ByteShifts(m, n, b)
    ensures a == b
    decreases n
  {
    if n > 0 {
      ByteShiftsInjective(m, n - 1, Shifts(m, BitsPerByte, a), Shifts(m, BitsPerByte, b));
      ShiftsInjective(m, BitsPerByte, a, b);
    }
  }

  lemma {:induction false} ByteShiftsLinear<Byte(!new), Word(!new)>(m: Machine<Byte, Word>, n: nat, a: Word, b: Word)
    requires LinearShift(m)
    ensures ByteShifts(m, n, m.xor(a, b)) == m.xor(ByteShifts(m, n, a), ByteShifts(m, n, b))
    decreases n
  {
    if n > 0 {
      ShiftsLinear(m, BitsPerByte, a, b);
      ByteShiftsLinear(m, n - 1, Shifts(m, BitsPerByte, a), Shifts(m, BitsPerByte, b));
    }
  }

  lemma {:induction false} PackFits<Byte(!new), Word(!new)>(m: Machine<Byte, Word>, x: seq<Byte>)
    requires Lawful(m) && |x| <= 3
    ensures m.fits(|x|, Pack(m, x)) && m.fits(3, Pack(m, x))
  {
    if x != [] {
      PackFits(m, x[1..]);
    }
  }

  lemma {:induction false} PackInjective<Byte(!new), Word(!new)>(m: Machine<Byte, Word>, x: seq<Byte>, y: seq<Byte>)
    requires Lawful(m) && |x| == |y| <= 4 && Pack(m, x) == Pack(m, y)
    ensures x == y
  {
    if x != [] {
      PackFits(m, x[1..]);
      PackFits(m, y[1..]);
      PackInjective(m, x[1..], y[1..]);
      assert x == [x[0]] + x[1..] && y == [y[0]] + y[1..];
    }
  }

  /** Feeding a byte and adding `w` afterwards is feeding both at once, `w` one byte further up. */
  lemma FeedTogether<Byte(!new), Word(!new)>(m: Machine<Byte, Word>, c: Word, b: Byte, w: Word)
    requires Lawful(m) && m.fits(3, w)
    ensures m.xor(Feed(m, c, b), w) == Shifts(m, BitsPerByte, m.xor(c, m.xor(m.up(w), m.load(b))))
  {
    var x := m.load(b);
    ShiftsLinear(m, BitsPerByte, m.xor(c, x), m.up(w));
    assert m.xor(m.xor(c, x), m.up(w)) == m.xor(c, m.xor(m.up(w), x));
  }

  lemma RegisterFront<Byte, Word>(m: Machine<Byte, Word>, x: seq<Byte>, c: Word)
    requires x != []
    ensures Register(m, x, c) == Register(m, x[1..], Feed(m, c, x[0]))
  {
    assert x == [x[0]] + x[1..];
    RegisterConcat(m, [x[0]], x[1..], c);
    assert [x[0]][..0] == [];
    assert Register(m, [x[0]], c) == Feed(m, c, x[0]);
  }

  /** Reading up to four bytes is adding their packed word and shifting it through. */
  lemma {:induction false} RegisterOfWord<Byte(!new), Word(!new)>(m: Machine<Byte, Word>, x: seq<Byte>, c: Word)
    requires Lawful(m) && |x| <= 4
    ensures Register(m, x, c) == ByteShifts(m, |x|, m.xor(c, Pack(m, x)))
    decreases |x|
  {
    if x != [] {
      var b, rest := x[0], x[1..];
      RegisterFront(m, x, c);
      RegisterOfWord(m, rest, Feed(m, c, b));
      PackFits(m, rest);
      PackedFeed(m, |rest|, c, b, Pack(m, rest));
    }
  }

  /** Feeding a byte and moving the rest on is moving both on together. */
  lemma {:induction false} PackedFeed<Byte(!new), Word(!new)>(m: Machine<Byte, Word>, n: nat, c: Word, b: Byte, w: Word)
    requires Lawful(m) && m.fits(3, w)
    ensures ByteShifts(m, n, m.xor(Feed(m, c, b), w)) == ByteShifts(m, n + 1, m.xor(c, m.xor(m.up(w), m.load(b))))
  {
    FeedTogether(m, c, b, w);
  }

  /** Adding a word twice removes it, and only equal words add up to zero. */
  ghost predicate Cancels<Byte(!new), Word(!new)>(m: Machine<Byte, Word>) {
    && (forall r, p, q {:trigger m.xor(m.xor(r, p), m.xor(r, q))} :: m.xor(m.xor(r, p), m.xor(r, q)) == m.xor(p, q))
    && (forall p, q {:trigger m.xor(p, q)} :: m.xor(p, q) == m.zero ==> p == q)
  }

  /** Registers of streams that differ only in their last bytes differ by those bytes, shifted through. */
  lemma {:induction false} RegisterDifference<Byte(!new), Word(!new)>(m: Machine<Byte, Word>, before: seq<Byte>, x: seq<Byte>,
                                                                      y: seq<Byte>, c: Word)
    requires Lawful(m) && Cancels(m) && |x| == |y| <= 4
    ensures m.xor(Register(m, before + x, c), Register(m, before + y, c)) ==
            ByteShifts(m, |x|, m.xor(Pack(m, x), Pack(m, y)))
  {
    var r := Register(m, before, c);
    RegisterConcat(m, before, x, c);
    RegisterConcat(m, before, y, c);
    RegisterOfWord(m, x, r);
    RegisterOfWord(m, y, r);
    ByteShiftsLinear(m, |x|, m.xor(r, Pack(m, x)), m.xor(r, Pack(m, y)));
  }

  /** No difference of `n` bytes is hidden once it is shifted through. */
  ghost predicate Shows<Byte(!new), Word(!new)>(m: Machine<Byte, Word>, n: nat, hidden: Word -> bool) {
    forall p, q {:trigger ByteShifts(m, n, m.xor(p, q))} ::
      m.fits(n, p) && m.fits(n, q) && hidden(ByteShifts(m, n, m.xor(p, q))) ==> m.xor(p, q) == m.zero
  }

  /** Then streams whose registers differ only by something hidden end alike. */
  lemma {:induction false} TailShows<Byte(!new), Word(!new)>(m: Machine<Byte, Word>, hidden: Word -> bool, before: seq<Byte>,
                                                             x: seq<Byte>, y: seq<Byte>, c: Word)
    requires Lawful(m) && Cancels(m) && |x| == |y| <= 3 && Shows(m, |x|, hidden)
    requires hidden(m.xor(Register(m, before + x, c), Register(m, before + y, c)))
    ensures x == y
  {
    RegisterDifference(m, before, x, y, c);
    PackFits(m, x);
    PackFits(m, y);
    assert Pack(m, x) == Pack(m, y);
    PackInjective(m, x, y);
  }

  lemma ShortWindow<Byte(!new), Word(!new)>(m: Machine<Byte, Word>, x: seq<Byte>, y: seq<Byte>, c: Word)
    requires Lawful(m) && |x| == |y| <= 4 && Register(m, x, c) == Register(m, y, c)
    ensures x == y
  {
    RegisterOfWord(m, x, c);
    RegisterOfWord(m, y, c);
    ByteShiftsInjective(m, |x|, m.xor(c, Pack(m, x)), m.xor(c, Pack(m, y)));
    PackInjective(m, x, y);
  }

  /** Two streams that differ only inside a window of at most four bytes leave different registers. */
  lemma WindowChangesRegister<Byte(!new), Word(!new)>(m: Machine<Byte, Word>, before: seq<Byte>, x: seq<Byte>, y: seq<Byte>,
                                                      after: seq<Byte>, c: Word)
    requires Lawful(m) && |x| == |y| <= 4
    requires Register(m, before + x + after, c) == Register(m, before + y + after, c)
    ensures x == y
  {
    var d := Register(m, before, c);
    RegisterConcat(m, before + x, after, c);
    RegisterConcat(m, before + y, after, c);
    RegisterConcat(m, before, x, c);
    RegisterConcat(m, before, y, c);
    RegisterInjective(m, after, Register(m, x, d), Register(m, y, d));
    ShortWindow(m, x, y, d);
  }
}
