/**
 PBKDF2 (section 5.2 of RFC 2898) as the panel writes it: nested loops over byte buffers, over any pseudorandom function
 of fixed output length. The keyed hash is given as a function of its message.
 */
module Pbkdf2 {
  type Octet = n: int | 0 <= n < 256

  type Octets = seq<Octet>

  type Prf = Octets -> Octets

  ghost predicate FixedLength(f: Prf, n: nat) {
    forall m :: |f(m)| == n
  }

  // ----- the definition in the RFC

  /** A byte conversion keeps the low eight bits. */
  function Low(n: nat): Octet {
    n % 256
  }

  /** INT(i): the block index, most significant octet first. */
  function BlockIndex(i: nat): (r: Octets)
    ensures |r| == 4
  {
    [Low(i / 256 / 256 / 256), Low(i / 256 / 256), Low(i / 256), Low(i)]
  }

  /** U_n of block i. */
  function Iterate(f: Prf, salt: Octets, i: nat, n: nat): Octets
    requires n >= 1
  {
    if n == 1 then f(salt + BlockIndex(i)) else f(Iterate(f, salt, i, n - 1))
  }

  function Power(k: nat): nat {
    if k == 0 then 1 else 2 * Power(k - 1)
  }

  /** The low k bits of two numbers, combined bit by bit: a bit is set where exactly one of them has it. */
  function Bits(a: nat, b: nat, k: nat): (r: nat)
    ensures r < Power(k)
  {
    if k == 0 then 0 else Bits(a / 2, b / 2, k - 1) * 2 + (a + b) % 2
  }

  function ExclusiveOr(a: Octet, b: Octet): Octet {
    assert Power(8) == 256;
    Bits(a, b, 8)
  }

  function Xor(a: Octets, b: Octets): (r: Octets)
    requires |a| == |b|
    ensures |r| == |a|
  {
    seq(|a|, k requires 0 <= k < |a| => ExclusiveOr(a[k], b[k]))
  }

  /** T_i: the exclusive-or of the first c iterates. */
  ghost function Block(f: Prf, len: nat, salt: Octets, i: nat, c: nat): (t: Octets)
    requires FixedLength(f, len) && c >= 1
    ensures |t| == len
    decreases c
  {
    if c == 1 then Iterate(f, salt, i, 1) else Xor(Block(f, len, salt, i, c - 1), Iterate(f, salt, i, c))
  }

  /** T_1 || ... || T_n */
  ghost function Blocks(f: Prf, len: nat, salt: Octets, c: nat, n: nat): (r: Octets)
    requires FixedLength(f, len) && c >= 1
    ensures |r| == n * len
    decreases n
  {
    if n == 0 then [] else Blocks(f, len, salt, c, n - 1) + Block(f, len, salt, n, c)
  }

  /** An iteration count below one still makes the first iterate. */
  function Rounds(iter: int): nat {
    if iter < 1 then 1 else iter
  }

  lemma FirstIterate(f: Prf, len: nat, salt: Octets, i: nat)
    requires FixedLength(f, len)
    ensures Iterate(f, salt, i, 1) == Block(f, len, salt, i, 1) == f(salt + BlockIndex(i))
  {
  }

  lemma NextIterate(f: Prf, len: nat, salt: Octets, i: nat, n: nat)
    requires FixedLength(f, len) && n >= 2
    ensures Iterate(f, salt, i, n) == f(Iterate(f, salt, i, n - 1)) && |Iterate(f, salt, i, n)| == len
    ensures Block(f, len, salt, i, n) == Xor(Block(f, len, salt, i, n - 1), Iterate(f, salt, i, n))
  {
  }

  // ----- the loops

  /** hash.Hash keyed with the password. */
  class Mac {
    const digest: Prf
    var written: Octets

    constructor (f: Prf)
      ensures this.digest == f && written == []
    {
      digest, written := f, [];
    }

    method Reset()
      modifies this
      ensures written == []
    {
      written := [];
    }

    method Write(b: Octets)
      modifies this
      ensures written == old(written) + b
    {
      written := written + b;
    }

    method Sum() returns (r: Octets)
      ensures r == digest(written)
    {
      r := digest(written);
    }
  }

  method FillIndex(buf: array<Octet>, block: nat)
    requires buf.Length == 4
    modifies buf
    ensures buf[..] == BlockIndex(block)
  {
    buf[0] := Low(block / 256 / 256 / 256);
    buf[1] := Low(block / 256 / 256);
    buf[2] := Low(block / 256);
    buf[3] := Low(block);
  }

  method CopyInto(dst: array<Octet>, src: Octets)
    requires dst.Length == |src|
    modifies dst
    ensures dst[..] == src
  {
    for i := 0 to |src|
      invariant dst[..i] == src[..i]
    {
      dst[i] := src[i];
    }
  }

  method XorInto(t: array<Octet>, u: array<Octet>)
    requires t.Length == u.Length && t != u
    modifies t
    ensures t[..] == Xor(old(t[..]), u[..])
  {
    for i := 0 to t.Length
      invariant forall k :: 0 <= k < i ==> t[k] == ExclusiveOr(old(t[k]), u[k])
      invariant forall k :: i <= k < t.Length ==> t[k] == old(t[k])
    {
      t[i] := ExclusiveOr(t[i], u[i]);
    }
  }

  /** The inner loop: u holds the latest iterate and t the exclusive-or so far, both overwritten in place. */
  method DeriveBlock(prf: Mac, hashLen: nat, salt: Octets, iter: int, block: nat, buf: array<Octet>, u: array<Octet>)
    returns (t: array<Octet>)
    requires FixedLength(prf.digest, hashLen) && buf.Length == 4 && u.Length == hashLen && buf != u
    modifies prf, buf, u
    ensures fresh(t) && t[..] == Block(prf.digest, hashLen, salt, block, Rounds(iter))
  {
    hide Block, Iterate, Xor, BlockIndex;
    FirstIterate(prf.digest, hashLen, salt, block);
    prf.Reset();
    prf.Write(salt);
    FillIndex(buf, block);
    prf.Write(buf[..]);
    assert prf.written == salt + BlockIndex(block);
    var first := prf.Sum();
    t := new Octet[hashLen];
    CopyInto(t, first);
    CopyInto(u, t[..]);
    var n := 2;
    while n <= iter
      invariant 2 <= n && n <= Rounds(iter) + 1
      invariant fresh(t) && t.Length == hashLen
      invariant u[..] == Iterate(prf.digest, salt, block, n - 1)
      invariant t[..] == Block(prf.digest, hashLen, salt, block, n - 1)
      decreases iter - n
    {
      NextIterate(prf.digest, hashLen, salt, block, n);
      prf.Reset();
      prf.Write(u[..]);
      assert prf.written == Iterate(prf.digest, salt, block, n - 1);
      var next := prf.Sum();
      CopyInto(u, next);
      XorInto(t, u);
      n := n + 1;
    }
  }

  /** pbkdf2Key: the first keyLen octets of T_1 || T_2 || ... */
  method Key(f: Prf, size: nat, salt: Octets, iter: int, keyLen: nat) returns (key: Octets)
    requires FixedLength(f, size) && size > 0
    ensures |key| == keyLen
    ensures key <= Blocks(f, size, salt, Rounds(iter), (keyLen + size - 1) / size)
  {
    var prf := new Mac(f);
    var blocks := (keyLen + size - 1) / size;
    var out: Octets := [];
    var buf := new Octet[4];
    var u := new Octet[size];
    for block := 1 to blocks + 1
      invariant out == Blocks(f, size, salt, Rounds(iter), block - 1)
    {
      var t := DeriveBlock(prf, size, salt, iter, block, buf, u);
      out := out + t[..];
    }
    EnoughBlocks(keyLen, size);
    return out[..keyLen];
  }

  lemma EnoughBlocks(keyLen: nat, size: nat)
    requires size > 0
    ensures (keyLen + size - 1) / size * size >= keyLen
  {
  }

  // ----- what the definition gives

  /** Asking for fewer octets gives a prefix of asking for more. */
  lemma {:induction false} ShorterIsPrefix(f: Prf, len: nat, salt: Octets, c: nat, m: nat, n: nat)
    requires FixedLength(f, len) && c >= 1 && m <= n
    ensures Blocks(f, len, salt, c, m) <= Blocks(f, len, salt, c, n)
    decreases n
  {
    if m < n {
      ShorterIsPrefix(f, len, salt, c, m, n - 1);
      var whole, short := Blocks(f, len, salt, c, n), Blocks(f, len, salt, c, n - 1);
      assert whole == short + Block(f, len, salt, n, c);
    }
  }

  lemma BitsParts(a: nat, b: nat, k: nat)
    requires k > 0
    ensures Bits(a, b, k) / 2 == Bits(a / 2, b / 2, k - 1) && Bits(a, b, k) % 2 == (a + b) % 2
  {
  }

  lemma LastBit(a: nat, b: nat, c: nat)
    requires c % 2 == (a + b) % 2
    ensures (c + b) % 2 == a % 2
  {
  }

  /** Each exclusive-or undoes itself, so no iterate is lost in a block. */
  lemma {:induction false} BitsUndo(a: nat, b: nat, k: nat)
    requires a < Power(k)
    ensures Bits(Bits(a, b, k), b, k) == a
  {
    if k > 0 {
      var r := Bits(a, b, k);
      BitsUndo(a / 2, b / 2, k - 1);
      BitsParts(a, b, k);
      BitsParts(r, b, k);
      LastBit(a, b, r);
      hide Bits;
      assert Bits(r, b, k) / 2 == a / 2 && Bits(r, b, k) % 2 == a % 2;
    }
  }

  /** So an octet comes back. */
  lemma OctetUndo(a: Octet, b: Octet)
    ensures ExclusiveOr(ExclusiveOr(a, b), b) == a
  {
    hide Bits;
    assert Power(8) == 256;
    BitsUndo(a, b, 8);
  }

  function Pair(high: nat, low: nat): nat {
    high * 256 + low
  }

  lemma PairUnique(a: nat, b: nat, a': nat, b': nat)
    requires b < 256 && b' < 256
    ensures Pair(a, b) == Pair(a', b') <==> a == a' && b == b'
  {
  }

  function Packed(a: nat, b: nat, c: nat, d: nat): nat {
    Pair(Pair(Pair(a, b), c), d)
  }

  lemma PackedUnique(a: nat, b: nat, c: nat, d: nat, a': nat, b': nat, c': nat, d': nat)
    requires b < 256 && c < 256 && d < 256 && b' < 256 && c' < 256 && d' < 256
    ensures Packed(a, b, c, d) == Packed(a', b', c', d') <==> a == a' && b == b' && c == c' && d == d'
  {
    hide Pair;
    PairUnique(Pair(Pair(a, b), c), d, Pair(Pair(a', b'), c'), d');
    PairUnique(Pair(a, b), c, Pair(a', b'), c');
    PairUnique(a, b, a', b');
  }

  /** The four places of a number add up to its low 32 bits. */
  lemma Places(n: nat)
    ensures Packed(n / 256 / 256 / 256 % 256, n / 256 / 256 % 256, n / 256 % 256, n % 256) == n % 0x1_0000_0000
  {
    var q1 := n / 256;
    var q2 := q1 / 256;
    var q3 := q2 / 256;
    var q4 := q3 / 256;
    LowBits(q4, q3 % 256, q2 % 256, q1 % 256, n % 256);
  }

  lemma LowBits(q: nat, a: nat, b: nat, c: nat, d: nat)
    requires a < 256 && b < 256 && c < 256 && d < 256
    ensures Pair(Pair(Pair(Pair(q, a), b), c), d) % 0x1_0000_0000 == Packed(a, b, c, d)
  {
  }

  /** The index is written most significant octet first. */
  lemma IndexBigEndian(i: nat)
    ensures
      var b := BlockIndex(i);
      Packed(b[0], b[1], b[2], b[3]) == i % 0x1_0000_0000
  {
    hide Packed;
    Places(i);
  }

  /** Two blocks start from the same message exactly when their indexes agree in 32 bits, so a key within the RFC's
      length limit repeats none. */
  lemma IndexRepeats(i: nat, j: nat)
    ensures BlockIndex(i) == BlockIndex(j) <==> i % 0x1_0000_0000 == j % 0x1_0000_0000
  {
    hide Packed;
    var x, y := BlockIndex(i), BlockIndex(j);
    Places(i);
    Places(j);
    PackedUnique(i / 256 / 256 / 256 % 256, i / 256 / 256 % 256, i / 256 % 256, i % 256,
                 j / 256 / 256 / 256 % 256, j / 256 / 256 % 256, j / 256 % 256, j % 256);
    assert x == y <==> x[0] == y[0] && x[1] == y[1] && x[2] == y[2] && x[3] == y[3];
  }
}
