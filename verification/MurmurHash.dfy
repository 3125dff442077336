/** The 32-bit MurmurHash2 of TAIR/murmurhash2.cc, with its signed tail bytes.

  Words are 32-bit vectors, so sums and products wrap; blocks are loaded little-endian and
  tail bytes are sign-extended in two's complement before they are shifted. Each operation on
  words has a name and a law; the larger proofs hide the operations and use the laws. */
module MurmurHash {
  import R = MurmurReference

  type Word = bv32
  type Byte = bv8

  // ------------------------------------------------------------------ loads and stores

  function Load(b: seq<Byte>): Word
    requires |b| == 4
  {
    (b[0] as Word) | ((b[1] as Word) << 8) | ((b[2] as Word) << 16) | ((b[3] as Word) << 24)
  }

  function Low(w: Word): Byte { (w & 0xff) as Byte }

  function Store(w: Word): (b: seq<Byte>)
    ensures |b| == 4
  {
    [Low(w), Low(w >> 8), Low(w >> 16), Low(w >> 24)]
  }

  lemma LoadStore(w: Word)
    ensures Load(Store(w)) == w
  {
    assert (w & 0xff) | (((w >> 8) & 0xff) << 8) | (((w >> 16) & 0xff) << 16) | (((w >> 24) & 0xff) << 24) == w;
  }

  lemma StoreLoad(b: seq<Byte>)
    requires |b| == 4
    ensures Store(Load(b)) == b
  {
    Split(b[0], b[1], b[2], b[3]);
  }

  lemma Split(b0: Byte, b1: Byte, b2: Byte, b3: Byte)
    ensures var w := (b0 as Word) | ((b1 as Word) << 8) | ((b2 as Word) << 16) | ((b3 as Word) << 24);
            && ((w & 0xff) as Byte) == b0 && (((w >> 8) & 0xff) as Byte) == b1
            && (((w >> 16) & 0xff) as Byte) == b2 && (((w >> 24) & 0xff) as Byte) == b3
  {
  }

  // ------------------------------------------------------------------ xor and product

  function Xor(x: Word, y: Word): Word { x ^ y }

  lemma XorCommutes(x: Word, y: Word)
    ensures Xor(x, y) == Xor(y, x)
  {
  }

  lemma XorTwice(x: Word, y: Word)
    ensures Xor(Xor(x, y), y) == x
  {
  }

  lemma XorAssociates(x: Word, y: Word, z: Word)
    ensures Xor(Xor(x, y), z) == Xor(x, Xor(y, z))
  {
  }

  /** Solving for either operand. */
  lemma XorSolve(x: Word, y: Word, z: Word)
    ensures Xor(x, y) == z <==> x == Xor(z, y)
    ensures Xor(x, y) == z <==> y == Xor(z, x)
  {
    hide Xor;
    XorTwice(x, y);
    XorTwice(z, y);
    XorTwice(y, x);
    XorTwice(z, x);
    XorCommutes(x, y);
    XorCommutes(Xor(z, x), x);
  }

  /** Multiplication by the mixing constant, and by its inverse modulo 2^32. */
  function Times(x: Word): Word { x * 0x5bd1e995 }
  function Untimes(x: Word): Word { x * 0xe59b19bd }

  lemma TimesInverse(x: Word)
    ensures Untimes(Times(x)) == x && Times(Untimes(x)) == x
  {
    TimesThenUntimes(x);
    UntimesThenTimes(x);
  }

  lemma TimesThenUntimes(x: Word)
    ensures Untimes(Times(x)) == x
  {
    UntimesEqual(Times(x), x * 0x5bd1e995);
    assert (x * 0x5bd1e995) * 0xe59b19bd == x;
  }

  lemma UntimesThenTimes(x: Word)
    ensures Times(Untimes(x)) == x
  {
    TimesEqual(Untimes(x), x * 0xe59b19bd);
    assert (x * 0xe59b19bd) * 0x5bd1e995 == x;
  }

  lemma TimesEqual(x: Word, y: Word)
    requires x == y
    ensures x * 0x5bd1e995 == y * 0x5bd1e995
  {
  }

  lemma UntimesEqual(x: Word, y: Word)
    requires x == y
    ensures x * 0xe59b19bd == y * 0xe59b19bd
  {
  }

  // ------------------------------------------------------------------ folding shifts

  function Fold24(x: Word): Word { x ^ (x >> 24) }
  function Fold13(x: Word): Word { x ^ (x >> 13) }
  function Unfold13(x: Word): Word { x ^ (x >> 13) ^ (x >> 26) }
  function Fold15(x: Word): Word { x ^ (x >> 15) }
  function Unfold15(x: Word): Word { x ^ (x >> 15) ^ (x >> 30) }

  /** No byte of the two words differs. */
  predicate SameBytes(x: Word, y: Word) {
    var d := x ^ y;
    d & 0xff == 0 && d & 0xff00 == 0 && d & 0xff_0000 == 0 && d & 0xff00_0000 == 0
  }

  lemma ByBytes(x: Word, y: Word)
    requires SameBytes(x, y)
    ensures x == y
  {
  }

  lemma Fold24Twice(x: Word)
    ensures Fold24(Fold24(x)) == x
  {
    hide SameBytes, Fold24;
    Fold24TwiceBytes(x);
    ByBytes(Fold24(Fold24(x)), x);
  }

  lemma Fold24TwiceBytes(x: Word)
    ensures SameBytes(Fold24(Fold24(x)), x)
  {
  }

  lemma Fold13Undone(x: Word)
    ensures Unfold13(Fold13(x)) == x
  {
    hide SameBytes, Fold13, Unfold13;
    Fold13UndoneBytes(x);
    ByBytes(Unfold13(Fold13(x)), x);
  }

  lemma Fold13UndoneBytes(x: Word)
    ensures SameBytes(Unfold13(Fold13(x)), x)
  {
  }

  lemma Unfold13Undone(x: Word)
    ensures Fold13(Unfold13(x)) == x
  {
    hide SameBytes, Unfold13, Fold13;
    Unfold13UndoneBytes(x);
    ByBytes(Fold13(Unfold13(x)), x);
  }

  lemma Unfold13UndoneBytes(x: Word)
    ensures SameBytes(Fold13(Unfold13(x)), x)
  {
    hide Fold13, Unfold13;
    Unfold13Low(x);
    Unfold13High(x);
  }

  lemma Unfold13Low(x: Word)
    ensures (Fold13(Unfold13(x)) ^ x) & 0xff == 0 && (Fold13(Unfold13(x)) ^ x) & 0xff00 == 0
  {
  }

  lemma Unfold13High(x: Word)
    ensures (Fold13(Unfold13(x)) ^ x) & 0xff_0000 == 0 && (Fold13(Unfold13(x)) ^ x) & 0xff00_0000 == 0
  {
  }

  lemma Fold15Undone(x: Word)
    ensures Unfold15(Fold15(x)) == x
  {
    hide SameBytes, Fold15, Unfold15;
    Fold15UndoneBytes(x);
    ByBytes(Unfold15(Fold15(x)), x);
  }

  lemma Fold15UndoneBytes(x: Word)
    ensures SameBytes(Unfold15(Fold15(x)), x)
  {
  }

  lemma Unfold15Undone(x: Word)
    ensures Fold15(Unfold15(x)) == x
  {
    hide SameBytes, Unfold15, Fold15;
    Unfold15UndoneBytes(x);
    ByBytes(Fold15(Unfold15(x)), x);
  }

  lemma Unfold15UndoneBytes(x: Word)
    ensures SameBytes(Fold15(Unfold15(x)), x)
  {
    hide Fold15, Unfold15;
    Unfold15Low(x);
    Unfold15High(x);
  }

  lemma Unfold15Low(x: Word)
    ensures (Fold15(Unfold15(x)) ^ x) & 0xff == 0 && (Fold15(Unfold15(x)) ^ x) & 0xff00 == 0
  {
  }

  lemma Unfold15High(x: Word)
    ensures (Fold15(Unfold15(x)) ^ x) & 0xff_0000 == 0 && (Fold15(Unfold15(x)) ^ x) & 0xff00_0000 == 0
  {
  }

  // ------------------------------------------------------------------ the mixing stages

  function Scramble(k: Word): Word { Times(Fold24(Times(k))) }
  function Unscramble(k: Word): Word { Untimes(Fold24(Untimes(k))) }

  /** One iteration of the loop, for the block `k`. */
  function Mix(h: Word, k: Word): Word { Xor(Times(h), Scramble(k)) }
  function Unmix(h: Word, k: Word): Word { Untimes(Xor(h, Scramble(k))) }

  function Final(h: Word): Word { Fold15(Times(Fold13(h))) }
  function Unfinal(h: Word): Word { Unfold13(Untimes(Unfold15(h))) }

  lemma ScrambleInverse(k: Word)
    ensures Unscramble(Scramble(k)) == k && Scramble(Unscramble(k)) == k
  {
    hide Times, Untimes, Fold24;
    TimesInverse(k);
    TimesInverse(Fold24(Times(k)));
    Fold24Twice(Times(k));
    TimesInverse(Fold24(Untimes(k)));
    Fold24Twice(Untimes(k));
  }

  lemma MixInverse(h: Word, k: Word)
    ensures Unmix(Mix(h, k), k) == h && Mix(Unmix(h, k), k) == h
  {
    hide Xor, Times, Untimes, Scramble;
    XorTwice(Times(h), Scramble(k));
    TimesInverse(h);
    XorTwice(h, Scramble(k));
    TimesInverse(Xor(h, Scramble(k)));
  }

  lemma FinalInverse(h: Word)
    ensures Unfinal(Final(h)) == h && Final(Unfinal(h)) == h
  {
    hide Times, Untimes, Fold13, Unfold13, Fold15, Unfold15;
    Fold13Undone(h);
    Fold15Undone(Times(Fold13(h)));
    TimesInverse(Fold13(h));
    Unfold15Undone(h);
    TimesInverse(Unfold15(h));
    Unfold13Undone(Untimes(Unfold15(h)));
  }

  // ------------------------------------------------------------------ the tail

  /** A byte as a signed char promoted to int. */
  function Signed(b: Byte): Word {
    if b & 0x80 != 0 then 0xffffff00 | (b as Word) else b as Word
  }

  /** A byte as an unsigned char promoted to int. */
  function Unsigned(b: Byte): Word { b as Word }

  function Shl8(x: Word): Word { x << 8 }
  function Shl16(x: Word): Word { x << 16 }

  /** What the fall-through switch xors into the hash. */
  function TailWord(t: seq<Byte>): Word
    requires |t| < 4
  {
    match |t|
    case 0 => 0
    case 1 => Signed(t[0])
    case 2 => Xor(Shl8(Signed(t[1])), Signed(t[0]))
    case _ => Xor(Xor(Shl16(Signed(t[2])), Shl8(Signed(t[1]))), Signed(t[0]))
  }

  /** The same with unsigned bytes, as in the reference MurmurHash2. */
  function UnsignedTailWord(t: seq<Byte>): Word
    requires |t| < 4
  {
    match |t|
    case 0 => 0
    case 1 => Unsigned(t[0])
    case 2 => Xor(Shl8(Unsigned(t[1])), Unsigned(t[0]))
    case _ => Xor(Xor(Shl16(Unsigned(t[2])), Shl8(Unsigned(t[1]))), Unsigned(t[0]))
  }

  function EndMix(h: Word, n: nat, tail: Word): Word {
    Final(if n == 0 then h else Times(Xor(h, tail)))
  }

  function EndUnmix(h: Word, n: nat, tail: Word): Word {
    if n == 0 then Unfinal(h) else Xor(Untimes(Unfinal(h)), tail)
  }

  lemma EndInverse(h: Word, n: nat, tail: Word)
    ensures EndUnmix(EndMix(h, n, tail), n, tail) == h && EndMix(EndUnmix(h, n, tail), n, tail) == h
  {
    hide Xor, Times, Untimes, Final, Unfinal;
    FinalInverse(if n == 0 then h else Times(Xor(h, tail)));
    TimesInverse(Xor(h, tail));
    XorTwice(h, tail);
    FinalInverse(h);
    TimesInverse(Unfinal(h));
    XorTwice(Untimes(Unfinal(h)), tail);
  }

  // ------------------------------------------------------------------ the hash

  /** The hash of the remaining bytes, from the running value `h`. */
  function From(h: Word, data: seq<Byte>): Word
    decreases |data|
  {
    if |data| >= 4 then From(Mix(h, Load(data[..4])), data[4..])
    else EndMix(h, |data|, TailWord(data))
  }

  function RefFrom(h: Word, data: seq<Byte>): Word
    decreases |data|
  {
    if |data| >= 4 then RefFrom(Mix(h, Load(data[..4])), data[4..])
    else EndMix(h, |data|, UnsignedTailWord(data))
  }

  /** An int parameter as the unsigned word it is xored as. */
  function AsWord(len: int): Word
    requires -0x8000_0000 <= len < 0x8000_0000
  {
    (if len < 0 then len + 0x1_0000_0000 else len) as Word
  }

  const MAX_LEN := 0x8000_0000

  function Hash(data: seq<Byte>, seed: Word): Word
    requires |data| < MAX_LEN
  {
    From(Xor(seed, AsWord(|data|)), data)
  }

  function RefHash(data: seq<Byte>, seed: Word): Word
    requires |data| < MAX_LEN
  {
    RefFrom(Xor(seed, AsWord(|data|)), data)
  }

  // ------------------------------------------------------------------ the value of a word

  lemma NextByte(b: Byte)
    requires b != 0xff
    ensures (b + 1) as int == b as int + 1
  {
  }

  lemma ZeroByte()
    ensures (0 as Byte) as int == 0 && (0xff as Byte) as int == 0xff
  {
  }

  lemma {:induction false} ByteOf(n: nat) returns (b: Byte)
    requires n < 0x100
    ensures b as int == n
  {
    ZeroByte();
    if n == 0 {
      b := 0;
    } else {
      b := ByteOf(n - 1);
      NextByte(b);
      b := b + 1;
    }
  }

  /** A block is loaded little-endian. */
  lemma LoadValue(b: seq<Byte>)
    requires |b| == 4
    ensures Load(b) as int ==
            b[0] as int + 0x100 * (b[1] as int) + 0x1_0000 * (b[2] as int) + 0x100_0000 * (b[3] as int)
  {
    FourBytes(b[0], b[1], b[2], b[3]);
  }

  lemma FourBytes(b0: Byte, b1: Byte, b2: Byte, b3: Byte)
    ensures ((b0 as Word) | ((b1 as Word) << 8) | ((b2 as Word) << 16) | ((b3 as Word) << 24)) as int ==
            b0 as int + 0x100 * (b1 as int) + 0x1_0000 * (b2 as int) + 0x100_0000 * (b3 as int)
  {
  }

  lemma Digits256(n: nat)
    requires n < 0x1_0000_0000
    ensures n == n % 0x100 + 0x100 * (n / 0x100 % 0x100) +
                 0x1_0000 * (n / 0x1_0000 % 0x100) + 0x100_0000 * (n / 0x100_0000)
    ensures n / 0x100_0000 < 0x100
  {
    assert n / 0x1_0000 == n / 0x100 / 0x100;
    assert n / 0x100_0000 == n / 0x1_0000 / 0x100;
  }

  lemma SameValue(n: nat, w: Word)
    requires n < 0x1_0000_0000 && w as int == n
    ensures n as Word == w
  {
  }

  lemma WordValue(n: nat)
    requires n < 0x1_0000_0000
    ensures (n as Word) as int == n
  {
    hide Load;
    Digits256(n);
    var b0 := ByteOf(n % 0x100);
    var b1 := ByteOf(n / 0x100 % 0x100);
    var b2 := ByteOf(n / 0x1_0000 % 0x100);
    var b3 := ByteOf(n / 0x100_0000);
    LoadValue([b0, b1, b2, b3]);
    SameValue(n, Load([b0, b1, b2, b3]));
  }

  /** The length is mixed in as itself, and a negative one modulo 2^32. */
  lemma AsWordValue(len: int)
    requires -0x8000_0000 <= len < 0x8000_0000
    ensures AsWord(len) as int == if len < 0 then len + 0x1_0000_0000 else len
  {
    WordValue(if len < 0 then len + 0x1_0000_0000 else len);
  }

  // ------------------------------------------------------------------ the hash in plain operators

  lemma SamePieces(x: Word, y: Word)
    ensures Times(x) == R.Mul(x) && Xor(x, y) == R.Xor(x, y)
  {
  }

  lemma SameFolds(x: Word)
    ensures Fold24(x) == R.XorShift24(x) && Fold13(x) == R.XorShift13(x) && Fold15(x) == R.XorShift15(x)
  {
  }

  lemma SumIsOr(b0: Byte, b1: Byte, b2: Byte, b3: Byte)
    ensures (b0 as Word) | ((b1 as Word) << 8) | ((b2 as Word) << 16) | ((b3 as Word) << 24) ==
            (b0 as Word) + (b1 as Word) * 0x100 + (b2 as Word) * 0x1_0000 + (b3 as Word) * 0x100_0000
  {
  }

  lemma SameNumber(b: seq<Byte>)
    requires |b| == 4
    ensures Load(b) == R.Number(b[0], b[1], b[2], b[3])
  {
    SumIsOr(b[0], b[1], b[2], b[3]);
  }

  lemma SameBlock(h: Word, k: Word)
    ensures Mix(h, k) == R.Block(h, k)
  {
    hide Times, Xor, Fold24, R.Mul, R.Xor, R.XorShift24;
    SamePieces(h, k);
    SamePieces(k, k);
    SameFolds(Times(k));
    SamePieces(Fold24(Times(k)), k);
    SamePieces(Times(h), Times(Fold24(Times(k))));
  }

  lemma SameFinish(h: Word)
    ensures Final(h) == R.Finish(h)
  {
    hide Times, Fold13, Fold15, R.Mul, R.XorShift13, R.XorShift15;
    SameFolds(h);
    SamePieces(Fold13(h), h);
    SameFolds(Times(Fold13(h)));
  }

  lemma SameChars(b: Byte)
    ensures Signed(b) == R.Low(b, true) && Shl8(Signed(b)) == R.Middle(b, true) && Shl16(Signed(b)) == R.High(b, true)
    ensures Unsigned(b) == R.Low(b, false) && Shl8(Unsigned(b)) == R.Middle(b, false)
    ensures Shl16(Unsigned(b)) == R.High(b, false)
  {
  }

  /** One xor after the other, as in the switch, is the xor with all of them. */
  lemma XorInTurn(h: Word, a: Word, b: Word, c: Word)
    ensures R.Xor(R.Xor(h, b), a) == Xor(h, Xor(b, a))
    ensures R.Xor(R.Xor(R.Xor(h, c), b), a) == Xor(h, Xor(Xor(c, b), a))
  {
    hide Xor, R.Xor;
    SamePieces(h, b);
    SamePieces(Xor(h, b), a);
    XorAssociates(h, b, a);
    SamePieces(h, c);
    SamePieces(Xor(h, c), b);
    SamePieces(Xor(Xor(h, c), b), a);
    XorAssociates(h, c, b);
    XorAssociates(h, Xor(c, b), a);
  }

  lemma SameTail(h: Word, t: seq<Byte>)
    requires |t| < 4
    ensures R.Tail(h, t, true) == if |t| == 0 then h else Times(Xor(h, TailWord(t)))
    ensures R.Tail(h, t, false) == if |t| == 0 then h else Times(Xor(h, UnsignedTailWord(t)))
  {
    hide Xor, R.Xor, Times, R.Mul, Signed, Unsigned, Shl8, Shl16, R.Low, R.Middle, R.High;
    if |t| > 0 {
      var b, c := if |t| > 1 then t[1] else 0, if |t| > 2 then t[2] else 0;
      SameChars(t[0]);
      SameChars(b);
      SameChars(c);
      SamePieces(h, Signed(t[0]));
      SamePieces(h, Unsigned(t[0]));
      XorInTurn(h, Signed(t[0]), Shl8(Signed(b)), Shl16(Signed(c)));
      XorInTurn(h, Unsigned(t[0]), Shl8(Unsigned(b)), Shl16(Unsigned(c)));
      SamePieces(Xor(h, TailWord(t)), h);
      SamePieces(Xor(h, UnsignedTailWord(t)), h);
    }
  }

  lemma {:induction false} SameRest(h: Word, data: seq<Byte>)
    ensures From(h, data) == R.Rest(h, data, true) && RefFrom(h, data) == R.Rest(h, data, false)
    decreases |data|
  {
    hide Mix, Load, R.Block, R.Number, Final, R.Finish, Times, Xor, TailWord, UnsignedTailWord, R.Tail;
    if |data| >= 4 {
      SameNumber(data[..4]);
      SameBlock(h, Load(data[..4]));
      SameRest(Mix(h, Load(data[..4])), data[4..]);
    } else {
      SameTail(h, data);
      SameFinish(R.Tail(h, data, true));
      SameFinish(R.Tail(h, data, false));
    }
  }

  lemma SameLength(n: nat)
    requires n < MAX_LEN
    ensures AsWord(n) == R.Length(n)
  {
  }

  /** The model is MurmurHash2 in plain operators: with signed tail bytes the hash, and with
    unsigned ones the variant that AgreesWithReference compares it to. */
  lemma HashIsMurmur2(data: seq<Byte>, seed: Word)
    requires |data| < MAX_LEN
    ensures Hash(data, seed) == R.Murmur2(data, seed, true) && RefHash(data, seed) == R.Murmur2(data, seed, false)
  {
    hide Xor, R.Xor, AsWord, R.Length, From, RefFrom, R.Rest;
    SameLength(|data|);
    SamePieces(seed, AsWord(|data|));
    SameRest(Xor(seed, AsWord(|data|)), data);
  }

  /** mur_mur_hash2 itself. A negative length reads nothing and hashes the seed alone. */
  method MurMurHash2(key: array<Byte>, len: int, seed: Word) returns (h: Word)
    requires -0x8000_0000 <= len < 0x8000_0000 && len <= key.Length
    ensures len >= 0 ==> h == Hash(key[..len], seed) == R.Murmur2(key[..len], seed, true)
    ensures len < 0 ==> h == Final(Xor(seed, AsWord(len))) == R.Finish(R.Xor(seed, AsWord(len)))
  {
    hide Xor, Times, Fold24, Fold13, Fold15, TailWord, Load, AsWord;
    h := Xor(seed, AsWord(len));
    ghost var h0 := h;
    var data := 0;
    var left := len;
    while left >= 4
      invariant len >= 0 ==> 0 <= left && data + left == len
      invariant len < 0 ==> left == len && h == h0
      invariant 0 <= data && (len >= 0 ==> From(h, key[data..len]) == From(h0, key[..len]))
    {
      ghost var rest := key[data..len];
      assert rest[..4] == key[data..data + 4] && rest[4..] == key[data + 4..len];
      var k := Load(key[data..data + 4]);
      k := Times(k);
      k := Fold24(k);
      k := Times(k);
      h := Times(h);
      h := Xor(h, k);
      data := data + 4;
      left := left - 4;
    }
    if left >= 0 {
      h := XorTail(h, key[data..len]);
    }
    h := Fold13(h);
    h := Times(h);
    h := Fold15(h);
    AsMurmur2(key[..if len < 0 then 0 else len], seed, AsWord(len));
  }

  lemma AsMurmur2(data: seq<Byte>, seed: Word, n: Word)
    requires |data| < MAX_LEN
    ensures Hash(data, seed) == R.Murmur2(data, seed, true)
    ensures Final(Xor(seed, n)) == R.Finish(R.Xor(seed, n))
  {
    hide Hash, Final, Xor, R.Xor, R.Finish, R.Murmur2;
    HashIsMurmur2(data, seed);
    SameFinish(Xor(seed, n));
    SamePieces(seed, n);
  }

  /** The fall-through switch. */
  method XorTail(h0: Word, t: seq<Byte>) returns (h: Word)
    requires |t| < 4
    ensures h == if |t| == 0 then h0 else Times(Xor(h0, TailWord(t)))
  {
    hide Xor, Times, Signed, Shl8, Shl16;
    h := h0;
    if |t| == 3 {
      h := Xor(h, Shl16(Signed(t[2])));
      XorAssociates(h0, Shl16(Signed(t[2])), Shl8(Signed(t[1])));
      XorAssociates(h0, Xor(Shl16(Signed(t[2])), Shl8(Signed(t[1]))), Signed(t[0]));
    }
    if |t| >= 2 {
      h := Xor(h, Shl8(Signed(t[1])));
      XorAssociates(h0, Shl8(Signed(t[1])), Signed(t[0]));
    }
    if |t| >= 1 {
      h := Xor(h, Signed(t[0]));
      h := Times(h);
    }
  }
}
