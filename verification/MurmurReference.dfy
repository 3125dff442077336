/** MurmurHash2 written out a second time, on plain 32-bit operators and in the order of the
  statements of TAIR/murmurhash2.cc, with the tail bytes either signed or, as in Austin Appleby's
  MurmurHash2, unsigned. Nothing here is shared with the model of the hash. */
module MurmurReference {

  /** A char, signed or unsigned, as a 32-bit word. */
  function Char(b: bv8, signed: bool): bv32 {
    if signed && b >= 0x80 then (b as bv32) - 0x100 else b as bv32
  }

  /** x *= m; */
  function Mul(x: bv32): bv32 { x * 0x5bd1e995 }

  /** x ^= y; */
  function Xor(x: bv32, y: bv32): bv32 { x ^ y }

  /** x ^= x >> r; for the three shifts used. */
  function XorShift24(x: bv32): bv32 { x ^ (x >> 24) }
  function XorShift13(x: bv32): bv32 { x ^ (x >> 13) }
  function XorShift15(x: bv32): bv32 { x ^ (x >> 15) }

  /** Four bytes as a number, the lowest first. */
  function Number(b0: bv8, b1: bv8, b2: bv8, b3: bv8): bv32 {
    (b0 as bv32) + (b1 as bv32) * 0x100 + (b2 as bv32) * 0x1_0000 + (b3 as bv32) * 0x100_0000
  }

  /** k *= m; k ^= k >> r; k *= m; h *= m; h ^= k; */
  function Block(h: bv32, k: bv32): bv32 {
    Xor(Mul(h), Mul(XorShift24(Mul(k))))
  }

  function Low(b: bv8, signed: bool): bv32 { Char(b, signed) }
  function Middle(b: bv8, signed: bool): bv32 { Char(b, signed) << 8 }
  function High(b: bv8, signed: bool): bv32 { Char(b, signed) << 16 }

  /** The cases of the switch, falling through. */
  function Tail(h: bv32, t: seq<bv8>, signed: bool): bv32
    requires |t| < 4
  {
    if |t| == 0 then h else
    var h2 := if |t| == 3 then Xor(h, High(t[2], signed)) else h;
    var h1 := if |t| >= 2 then Xor(h2, Middle(t[1], signed)) else h2;
    Mul(Xor(h1, Low(t[0], signed)))
  }

  /** h ^= h >> 13; h *= m; h ^= h >> 15; */
  function Finish(h: bv32): bv32 {
    XorShift15(Mul(XorShift13(h)))
  }

  function Length(n: nat): bv32
    requires n < 0x8000_0000
  {
    n as bv32
  }

  function Rest(h: bv32, data: seq<bv8>, signed: bool): bv32
    decreases |data|
  {
    if |data| >= 4 then Rest(Block(h, Number(data[0], data[1], data[2], data[3])), data[4..], signed)
    else Finish(Tail(h, data, signed))
  }

  function Murmur2(data: seq<bv8>, seed: bv32, signed: bool): bv32
    requires |data| < 0x8000_0000
  {
    Rest(Xor(seed, Length(|data|)), data, signed)
  }
}
