/** Every stage of the hash can be undone, so each part of the input determines the hash
  one-to-one when the rest is fixed. */
module MurmurTheorems {
  import opened MurmurHash
  import R = MurmurReference

  // ------------------------------------------------------------------ running value and seed

  /** The running value from which the remaining bytes hash to `target`. */
  function Back(target: Word, data: seq<Byte>): Word
    decreases |data|
  {
    if |data| >= 4 then Unmix(Back(target, data[4..]), Load(data[..4]))
    else EndUnmix(target, |data|, TailWord(data))
  }

  lemma {:induction false} BackInverse(h: Word, target: Word, data: seq<Byte>)
    ensures Back(From(h, data), data) == h && From(Back(target, data), data) == target
    decreases |data|
  {
    hide Mix, Unmix, EndMix, EndUnmix, TailWord, Load;
    if |data| >= 4 {
      var k := Load(data[..4]);
      BackInverse(Mix(h, k), target, data[4..]);
      MixInverse(h, k);
      MixInverse(Back(target, data[4..]), k);
    } else {
      EndInverse(h, |data|, TailWord(data));
      EndInverse(target, |data|, TailWord(data));
    }
  }

  function SeedFor(data: seq<Byte>, target: Word): Word
    requires |data| < MAX_LEN
  {
    Xor(Back(target, data), AsWord(|data|))
  }

  /** For a fixed key the hash is a bijection of the seed, with an explicit inverse. */
  lemma SeedBijection(data: seq<Byte>, seed: Word, target: Word)
    requires |data| < MAX_LEN
    ensures Hash(data, seed) == target <==> seed == SeedFor(data, target)
  {
    hide Xor, Back, From, AsWord;
    var n := AsWord(|data|);
    BackInverse(Xor(seed, n), target, data);
    XorSolve(seed, n, Back(target, data));
  }

  // ------------------------------------------------------------------ one block

  /** `data` with its i-th block of four bytes replaced by the word `k`. */
  function WithBlock(data: seq<Byte>, i: nat, k: Word): seq<Byte>
    requires 4 * i + 4 <= |data|
  {
    data[..4 * i] + Store(k) + data[4 * i + 4..]
  }

  /** The word to put in block i so that the whole hashes to `target`. */
  function BlockFor(h: Word, data: seq<Byte>, i: nat, target: Word): Word
    requires 4 * i + 4 <= |data|
    decreases i
  {
    if i == 0 then Unscramble(Xor(Back(target, data[4..]), Times(h)))
    else BlockFor(Mix(h, Load(data[..4])), data[4..], i - 1, target)
  }

  lemma {:induction false} BlockFromAny(h: Word, data: seq<Byte>, i: nat, k: Word, target: Word)
    requires 4 * i + 4 <= |data|
    ensures From(h, WithBlock(data, i, k)) == target <==> k == BlockFor(h, data, i, target)
    decreases i
  {
    hide Mix, EndMix, TailWord, Load, Store, Xor, Times, Unscramble, Back;
    var d := WithBlock(data, i, k);
    if i == 0 {
      FirstBlock(h, data, k, target);
    } else {
      assert d[..4] == data[..4];
      assert d[4..] == WithBlock(data[4..], i - 1, k);
      BlockFromAny(Mix(h, Load(data[..4])), data[4..], i - 1, k, target);
    }
  }

  lemma FirstBlock(h: Word, data: seq<Byte>, k: Word, target: Word)
    requires |data| >= 4
    ensures From(h, WithBlock(data, 0, k)) == target <==> k == Unscramble(Xor(Back(target, data[4..]), Times(h)))
  {
    hide Xor, Times, Scramble, Unscramble, Load, Store, Back, EndMix;
    var d, rest := WithBlock(data, 0, k), data[4..];
    assert d[..4] == Store(k) && d[4..] == rest;
    LoadStore(k);
    var b := Back(target, rest);
    BackInverse(Mix(h, k), target, rest);
    XorSolve(Times(h), Scramble(k), b);
    ScrambleInverse(k);
    ScrambleInverse(Xor(b, Times(h)));
  }

  /** Single-block bijection: with the length, the seed and all other bytes fixed, exactly one
    value of any aligned block gives any wanted hash, and BlockFor computes it. */
  lemma BlockBijection(data: seq<Byte>, seed: Word, i: nat, k: Word, target: Word)
    requires |data| < MAX_LEN && 4 * i + 4 <= |data|
    ensures |WithBlock(data, i, k)| == |data|
    ensures Hash(WithBlock(data, i, k), seed) == target <==> k == BlockFor(Xor(seed, AsWord(|data|)), data, i, target)
  {
    hide Xor, AsWord, From, BlockFor, Store;
    BlockFromAny(Xor(seed, AsWord(|data|)), data, i, k, target);
  }

  /** WithBlock reaches every key that differs from `data` in that block only. */
  lemma BlocksAreWords(data: seq<Byte>, data': seq<Byte>, i: nat)
    requires |data| == |data'| && 4 * i + 4 <= |data|
    requires data[..4 * i] == data'[..4 * i] && data[4 * i + 4..] == data'[4 * i + 4..]
    ensures data' == WithBlock(data, i, Load(data'[4 * i..4 * i + 4]))
  {
    hide Load, Store;
    StoreLoad(data'[4 * i..4 * i + 4]);
    assert data' == data'[..4 * i] + data'[4 * i..4 * i + 4] + data'[4 * i + 4..];
  }

  // ------------------------------------------------------------------ the tail

  /** The tail read back from its word, low byte first: each byte is read off, and its sign
    extension xored away before the next one is read. */
  function TailBytes(w: Word, n: nat): seq<Byte>
    requires n < 4
  {
    var a := Low(w);
    var w1 := Xor(w, Signed(a));
    var b := Byte1(w1);
    var w2 := Xor(w1, Shl8(Signed(b)));
    [a, b, Byte2(w2)][..n]
  }

  function Byte1(w: Word): Byte { ((w >> 8) & 0xff) as Byte }
  function Byte2(w: Word): Byte { ((w >> 16) & 0xff) as Byte }

  lemma ReadLow(b: Byte, x: Word, y: Word)
    ensures Low(Signed(b)) == b
    ensures Low(Xor(Shl8(x), Signed(b))) == b
    ensures Low(Xor(Xor(Shl16(y), Shl8(x)), Signed(b))) == b
  {
  }

  lemma ReadMiddle(b: Byte, x: Word)
    ensures Byte1(Shl8(Signed(b))) == b
    ensures Byte1(Xor(Shl16(x), Shl8(Signed(b)))) == b
  {
  }

  lemma ReadTop(b: Byte)
    ensures Byte2(Shl16(Signed(b))) == b
  {
  }

  /** Sign extension and fall-through lose nothing: the tail can be read back. */
  lemma TailRoundTrip(t: seq<Byte>)
    requires |t| < 4
    ensures TailBytes(TailWord(t), |t|) == t
  {
    hide Low, Byte1, Byte2, Xor, Signed, Shl8, Shl16;
    if |t| == 1 {
      ReadLow(t[0], 0, 0);
    } else if |t| == 2 {
      var b := Shl8(Signed(t[1]));
      ReadLow(t[0], Signed(t[1]), 0);
      XorTwice(b, Signed(t[0]));
      ReadMiddle(t[1], 0);
    } else if |t| == 3 {
      var c, b := Shl16(Signed(t[2])), Shl8(Signed(t[1]));
      ReadLow(t[0], Signed(t[1]), Signed(t[2]));
      XorTwice(Xor(c, b), Signed(t[0]));
      ReadMiddle(t[1], Signed(t[2]));
      XorTwice(c, b);
      ReadTop(t[2]);
    }
  }

  lemma EndSameTail(h: Word, n: nat, a: Word, b: Word)
    requires n > 0
    ensures EndMix(h, n, a) == EndMix(h, n, b) <==> a == b
  {
    hide Xor, Times, Untimes, Final, Unfinal;
    FinalInverse(Times(Xor(h, a)));
    FinalInverse(Times(Xor(h, b)));
    TimesInverse(Xor(h, a));
    TimesInverse(Xor(h, b));
    XorSolve(h, a, Xor(h, b));
    XorSolve(h, b, Xor(h, b));
  }

  lemma {:induction false} TailInjectiveFrom(h: Word, blocks: seq<Byte>, t: seq<Byte>, t': seq<Byte>)
    requires |blocks| % 4 == 0 && |t| == |t'| < 4 && From(h, blocks + t) == From(h, blocks + t')
    ensures t == t'
    decreases |blocks|
  {
    hide Mix, Load, EndMix, TailWord, TailBytes;
    if blocks == [] {
      assert blocks + t == t && blocks + t' == t';
      if |t| > 0 {
        EndSameTail(h, |t|, TailWord(t), TailWord(t'));
        TailRoundTrip(t);
        TailRoundTrip(t');
      }
    } else {
      assert (blocks + t)[..4] == blocks[..4] == (blocks + t')[..4];
      assert (blocks + t)[4..] == blocks[4..] + t && (blocks + t')[4..] == blocks[4..] + t';
      TailInjectiveFrom(Mix(h, Load(blocks[..4])), blocks[4..], t, t');
    }
  }

  /** Keys of one length with the same blocks and seed collide only if their tails are equal. */
  lemma TailInjective(blocks: seq<Byte>, t: seq<Byte>, t': seq<Byte>, seed: Word)
    requires |blocks| % 4 == 0 && |t| == |t'| < 4 && |blocks + t| < MAX_LEN
    ensures Hash(blocks + t, seed) == Hash(blocks + t', seed) <==> t == t'
  {
    hide Xor, AsWord, From;
    if Hash(blocks + t, seed) == Hash(blocks + t', seed) {
      TailInjectiveFrom(Xor(seed, AsWord(|blocks + t|)), blocks, t, t');
    }
  }

  // ------------------------------------------------------------------ the reference hash

  /** The bytes after the last whole block. */
  function TailOf(data: seq<Byte>): seq<Byte>
    decreases |data|
  {
    if |data| >= 4 then TailOf(data[4..]) else data
  }

  predicate Ascii(t: seq<Byte>) {
    forall i :: 0 <= i < |t| ==> t[i] < 0x80
  }

  lemma SameTailWord(t: seq<Byte>)
    requires |t| < 4
    ensures TailWord(t) == UnsignedTailWord(t) <==> Ascii(t)
  {
    hide Xor, Signed, Unsigned, Shl8, Shl16;
    if |t| == 1 {
      Same1(t[0]);
    } else if |t| == 2 {
      Same2(t[0], t[1]);
    } else if |t| == 3 {
      Same3(t[0], t[1], t[2]);
    }
  }

  lemma Same1(a: Byte)
    ensures Signed(a) == Unsigned(a) <==> a < 0x80
  {
  }

  lemma Same2(a: Byte, b: Byte)
    ensures Xor(Shl8(Signed(b)), Signed(a)) == Xor(Shl8(Unsigned(b)), Unsigned(a)) <==> a < 0x80 && b < 0x80
  {
  }

  lemma Same3(a: Byte, b: Byte, c: Byte)
    ensures Xor(Xor(Shl16(Signed(c)), Shl8(Signed(b))), Signed(a)) ==
            Xor(Xor(Shl16(Unsigned(c)), Shl8(Unsigned(b))), Unsigned(a))
       <==> a < 0x80 && b < 0x80 && c < 0x80
  {
  }

  lemma {:induction false} AgreesFrom(h: Word, data: seq<Byte>)
    ensures From(h, data) == RefFrom(h, data) <==> Ascii(TailOf(data))
    decreases |data|
  {
    hide Mix, Load, EndMix, Xor, Signed, Unsigned, Shl8, Shl16;
    if |data| >= 4 {
      AgreesFrom(Mix(h, Load(data[..4])), data[4..]);
    } else {
      SameTailWord(data);
      if |data| > 0 {
        EndSameTail(h, |data|, TailWord(data), UnsignedTailWord(data));
      }
    }
  }

  /** The hash agrees with the reference MurmurHash2 exactly on keys whose tail is ASCII. */
  lemma AgreesWithReference(data: seq<Byte>, seed: Word)
    requires |data| < MAX_LEN
    ensures Hash(data, seed) == R.Murmur2(data, seed, false) <==> Ascii(TailOf(data))
  {
    hide Xor, AsWord, From, RefFrom, TailOf, Ascii, R.Murmur2;
    HashIsMurmur2(data, seed);
    AgreesFrom(Xor(seed, AsWord(|data|)), data);
  }
}
