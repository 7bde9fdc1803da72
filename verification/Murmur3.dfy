/** MurmurHash3_x86_32, which maps a key to an entry of the table: the code against a
    function of the key, and which keys can never collide. */
module Murmur3 {
  type Byte = bv8
  type Word = bv32

  // ------------------------------------------------------------ the mixing steps

  /** The multipliers of the block mix, and of the finalization. */
  function TimesC1(x: Word): Word {
    x * 0xcc9e2d51
  }

  function TimesC2(x: Word): Word {
    x * 0x1b873593
  }

  function TimesF1(x: Word): Word {
    x * 0x85ebca6b
  }

  function TimesF2(x: Word): Word {
    x * 0xc2b2ae35
  }

  function Xor(x: Word, y: Word): Word {
    x ^ y
  }

  function Rotl32(x: Word, r: nat): Word
    requires 0 < r < 32
  {
    (x << r) | (x >> (32 - r))
  }

  function ShiftXor(x: Word, r: nat): Word
    requires r < 32
  {
    x ^ (x >> r)
  }

  /** x * 5 + 0xe6546b64. */
  function Stretch(x: Word): Word {
    x * 5 + 0xe6546b64
  }

  /** What happens to a block before it meets the hash. */
  function MixBlock(k: Word): Word {
    TimesC2(Rotl32(TimesC1(k), 15))
  }

  /** One turn of the block loop. */
  function Turn(h: Word, k: Word): Word {
    Stretch(Rotl32(Xor(h, MixBlock(k)), 13))
  }

  function Fmix32(h: Word): Word {
    ShiftXor(TimesF2(ShiftXor(TimesF1(ShiftXor(h, 16)), 13)), 16)
  }

  // ------------------------------------------------------------ and their inverses

  /** The multipliers are odd, so each has an inverse modulo 2^32. */
  function OverC1(x: Word): Word {
    x * 0xdee13bb1
  }

  function OverC2(x: Word): Word {
    x * 0x56ed309b
  }

  function OverF1(x: Word): Word {
    x * 0xa5cb9243
  }

  function OverF2(x: Word): Word {
    x * 0x7ed1b41d
  }

  function Unstretch(x: Word): Word {
    (x - 0xe6546b64) * 0xcccccccd
  }

  function UnshiftXor13(x: Word): Word {
    x ^ (x >> 13) ^ (x >> 26)
  }

  function UnmixBlock(m: Word): Word {
    OverC1(Rotl32(OverC2(m), 17))
  }

  /** The hash before a turn with block k. */
  function UnturnHash(h: Word, k: Word): Word {
    Xor(Rotl32(Unstretch(h), 19), MixBlock(k))
  }

  /** The block of the turn that took hash `start` to h. */
  function UnturnBlock(h: Word, start: Word): Word {
    UnmixBlock(Xor(Rotl32(Unstretch(h), 19), start))
  }

  function Unfmix32(h: Word): Word {
    ShiftXor(OverF1(UnshiftXor13(OverF2(ShiftXor(h, 16)))), 16)
  }

  lemma TimesBack(x: Word)
    ensures OverC1(TimesC1(x)) == x && TimesC1(OverC1(x)) == x && OverC2(TimesC2(x)) == x && TimesC2(OverC2(x)) == x
    ensures OverF1(TimesF1(x)) == x && TimesF1(OverF1(x)) == x && OverF2(TimesF2(x)) == x && TimesF2(OverF2(x)) == x
  {
    assert OverC1(x * 0xcc9e2d51) == x && TimesC1(x * 0xdee13bb1) == x;
    assert OverC2(x * 0x1b873593) == x && TimesC2(x * 0x56ed309b) == x;
    assert OverF1(x * 0x85ebca6b) == x && TimesF1(x * 0xa5cb9243) == x;
    assert OverF2(x * 0xc2b2ae35) == x && TimesF2(x * 0x7ed1b41d) == x;
  }

  lemma RotateBack(x: Word)
    ensures Rotl32(Rotl32(x, 15), 17) == x && Rotl32(Rotl32(x, 17), 15) == x
    ensures Rotl32(Rotl32(x, 13), 19) == x && Rotl32(Rotl32(x, 19), 13) == x
  {
    assert Rotl32((x << 15) | (x >> 17), 17) == x && Rotl32((x << 17) | (x >> 15), 15) == x;
    assert Rotl32((x << 13) | (x >> 19), 19) == x && Rotl32((x << 19) | (x >> 13), 13) == x;
  }

  lemma StretchBack(x: Word)
    ensures Unstretch(Stretch(x)) == x && Stretch(Unstretch(x)) == x
  {
    assert Unstretch(x * 5 + 0xe6546b64) == x;
    assert Stretch((x - 0xe6546b64) * 0xcccccccd) == x;
  }

  lemma ShiftXorBack(x: Word)
    ensures ShiftXor(ShiftXor(x, 16), 16) == x
    ensures UnshiftXor13(ShiftXor(x, 13)) == x && ShiftXor(UnshiftXor13(x), 13) == x
  {
    assert ShiftXor(x ^ (x >> 16), 16) == x;
    assert UnshiftXor13(x ^ (x >> 13)) == x && ShiftXor(x ^ (x >> 13) ^ (x >> 26), 13) == x;
  }

  /** The block mix is a bijection. */
  lemma MixBlockBijective(k: Word)
    ensures UnmixBlock(MixBlock(k)) == k && MixBlock(UnmixBlock(k)) == k
  {
    TimesBack(k);
    RotateBack(TimesC1(k));
    TimesBack(Rotl32(TimesC1(k), 15));
    RotateBack(OverC2(k));
    TimesBack(Rotl32(OverC2(k), 17));
  }

  lemma XorBack(a: Word, b: Word)
    ensures Xor(Xor(a, b), b) == a && Xor(Xor(a, b), a) == b && Xor(a, Xor(b, a)) == b
  {
    assert Xor(a ^ b, b) == a && Xor(a ^ b, a) == b && Xor(a, b ^ a) == b;
  }

  /** A turn of the loop is a bijection in the hash. */
  lemma TurnBijectiveInHash(h: Word, k: Word)
    ensures UnturnHash(Turn(h, k), k) == h && Turn(UnturnHash(h, k), k) == h
  {
    var m := MixBlock(k);
    XorBack(h, m);
    RotateBack(Xor(h, m));
    StretchBack(Rotl32(Xor(h, m), 13));
    var x := Rotl32(Unstretch(h), 19);
    XorBack(x, m);
    RotateBack(Unstretch(h));
    StretchBack(h);
  }

  /** A turn of the loop is a bijection in the block. */
  lemma TurnBijectiveInBlock(h: Word, k: Word)
    ensures UnturnBlock(Turn(h, k), h) == k && Turn(h, UnturnBlock(k, h)) == k
  {
    UnturnTurn(h, k);
    TurnUnturn(h, k);
  }

  lemma UnturnTurn(h: Word, k: Word)
    ensures UnturnBlock(Turn(h, k), h) == k
  {
    var m := MixBlock(k);
    XorBack(h, m);
    RotateBack(Xor(h, m));
    StretchBack(Rotl32(Xor(h, m), 13));
    MixBlockBijective(k);
  }

  lemma TurnUnturn(h: Word, g: Word)
    ensures Turn(h, UnturnBlock(g, h)) == g
  {
    var x := Rotl32(Unstretch(g), 19);
    XorBack(h, x);
    RotateBack(Unstretch(g));
    StretchBack(g);
    MixBlockBijective(Xor(x, h));
  }

  /** The finalization is a bijection. */
  lemma Fmix32Bijective(h: Word)
    ensures Unfmix32(Fmix32(h)) == h && Fmix32(Unfmix32(h)) == h
  {
    var a := ShiftXor(h, 16);
    ShiftXorBack(h);
    TimesBack(a);
    var b := TimesF1(a);
    ShiftXorBack(b);
    TimesBack(ShiftXor(b, 13));
    ShiftXorBack(TimesF2(ShiftXor(b, 13)));
    var c := OverF2(a);
    ShiftXorBack(c);
    TimesBack(UnshiftXor13(c));
    ShiftXorBack(OverF1(UnshiftXor13(c)));
  }

  // ------------------------------------------------------------------ the hash

  /** Block i of the key, the lowest byte first. */
  function Block(key: seq<Byte>, i: nat): Word
    requires 4 * i + 4 <= |key|
  {
    Join(key[4 * i], key[4 * i + 1], key[4 * i + 2], key[4 * i + 3])
  }

  function Join(a: Byte, b: Byte, c: Byte, d: Byte): Word {
    (a as Word) | ((b as Word) << 8) | ((c as Word) << 16) | ((d as Word) << 24)
  }

  /** The hash after the first n blocks. */
  function Body(key: seq<Byte>, seed: Word, n: nat): Word
    requires 4 * n <= |key|
  {
    if n == 0 then seed else Turn(Body(key, seed, n - 1), Block(key, n - 1))
  }

  /** The one to three bytes after the last block. */
  function TailWord(tail: seq<Byte>): Word
    requires |tail| < 4
  {
    match |tail|
    case 0 => 0
    case 1 => Join(tail[0], 0, 0, 0)
    case 2 => Join(tail[0], tail[1], 0, 0)
    case _ => Join(tail[0], tail[1], tail[2], 0)
  }

  /** The length as a word, which wraps around. */
  function LengthWord(n: nat): Word {
    if n == 0 then 0 else LengthWord(n - 1) + 1
  }

  function Hash(key: seq<Byte>, seed: Word): Word {
    var n := |key| / 4;
    Fmix32(Xor(Xor(Body(key, seed, n), MixBlock(TailWord(key[4 * n..]))), LengthWord(|key|)))
  }

  /** fmix32, step by step. */
  method Finalize(h: Word) returns (r: Word)
    ensures r == Fmix32(h)
  {
    r := ShiftXor(h, 16);
    r := TimesF1(r);
    r := ShiftXor(r, 13);
    r := TimesF2(r);
    r := ShiftXor(r, 16);
  }

  /** The tail's word: the cases of the switch fall through. */
  method ReadTail(tail: seq<Byte>) returns (k: Word)
    requires |tail| < 4
    ensures k == TailWord(tail)
  {
    k := 0;
    if |tail| == 3 {
      k := k ^ ((tail[2] as Word) << 16);
    }
    if |tail| >= 2 {
      k := k ^ ((tail[1] as Word) << 8);
    }
    if |tail| >= 1 {
      k := k ^ (tail[0] as Word);
    }
  }

  /** MurmurHash3_x86_32. */
  method MurmurHash3(key: seq<Byte>, seed: Word) returns (h: Word)
    ensures h == Hash(key, seed)
  {
    var nblocks := |key| / 4;
    h := seed;
    var i := -nblocks;
    while i != 0
      invariant -nblocks <= i <= 0
      invariant h == Body(key, seed, nblocks + i)
      decreases -i
    {
      var k := Block(key, nblocks + i);
      k := TimesC1(k);
      k := Rotl32(k, 15);
      k := TimesC2(k);
      h := Xor(h, k);
      h := Rotl32(h, 13);
      h := Stretch(h);
      i := i + 1;
    }
    var tail := key[4 * nblocks..];
    if |tail| != 0 {
      var k := ReadTail(tail);
      k := TimesC1(k);
      k := Rotl32(k, 15);
      k := TimesC2(k);
      h := Xor(h, k);
    } else {
      NothingMixed(h);
    }
    h := Xor(h, LengthWord(|key|));
    h := Finalize(h);
  }

  /** Without a tail nothing is added. */
  lemma NothingMixed(h: Word)
    ensures Xor(h, MixBlock(0)) == h
  {
    assert TimesC1(0) == 0;
    assert Rotl32(0, 15) == 0;
    assert MixBlock(0) == 0;
  }

  // ------------------------------------------------------------ where it cannot collide

  lemma JoinInjective(a: Byte, b: Byte, c: Byte, d: Byte, a': Byte, b': Byte, c': Byte, d': Byte)
    ensures Join(a, b, c, d) == Join(a', b', c', d') <==> a == a' && b == b' && c == c' && d == d'
  {
  }

  lemma TailInjective(a: seq<Byte>, b: seq<Byte>)
    requires |a| == |b| < 4
    ensures TailWord(a) == TailWord(b) <==> a == b
  {
    if |a| == 1 {
      JoinInjective(a[0], 0, 0, 0, b[0], 0, 0, 0);
    } else if |a| == 2 {
      JoinInjective(a[0], a[1], 0, 0, b[0], b[1], 0, 0);
    } else if |a| == 3 {
      JoinInjective(a[0], a[1], a[2], 0, b[0], b[1], b[2], 0);
    }
  }

  /** Blocks that two keys share keep hashes apart that were apart before. */
  lemma {:induction false} SharedBlocks(a: seq<Byte>, b: seq<Byte>, s: Word, t: Word, i: nat, n: nat)
    requires i <= n && 4 * n <= |a| && 4 * n <= |b|
    requires forall j :: 4 * i <= j < 4 * n ==> a[j] == b[j]
    ensures Body(a, s, n) == Body(b, t, n) <==> Body(a, s, i) == Body(b, t, i)
  {
    if i < n {
      SharedBlocks(a, b, s, t, i, n - 1);
      assert Block(a, n - 1) == Block(b, n - 1);
      TurnBijectiveInHash(Body(a, s, n - 1), Block(a, n - 1));
      TurnBijectiveInHash(Body(b, t, n - 1), Block(b, n - 1));
    }
  }

  lemma FmixInjective(x: Word, y: Word)
    ensures Fmix32(x) == Fmix32(y) <==> x == y
  {
    Fmix32Bijective(x);
    Fmix32Bijective(y);
  }

  lemma XorInjective(x: Word, y: Word, z: Word)
    ensures Xor(x, z) == Xor(y, z) <==> x == y
    ensures Xor(z, x) == Xor(z, y) <==> x == y
  {
    XorBack(x, z);
    XorBack(y, z);
    XorBack(z, x);
    XorBack(z, y);
  }

  lemma MixInjective(x: Word, y: Word)
    ensures MixBlock(x) == MixBlock(y) <==> x == y
  {
    MixBlockBijective(x);
    MixBlockBijective(y);
  }

  lemma TurnInjective(h: Word, k: Word, k': Word)
    ensures Turn(h, k) == Turn(h, k') <==> k == k'
  {
    TurnBijectiveInBlock(h, k);
    TurnBijectiveInBlock(h, k');
  }

  /** What follows the block loop keeps different hashes different. */
  lemma EndInjective(h: Word, g: Word, m: Word, w: Word)
    ensures Fmix32(Xor(Xor(h, m), w)) == Fmix32(Xor(Xor(g, m), w)) <==> h == g
  {
    FmixInjective(Xor(Xor(h, m), w), Xor(Xor(g, m), w));
    XorInjective(Xor(h, m), Xor(g, m), w);
    XorInjective(h, g, m);
  }

  lemma TailEndInjective(h: Word, x: Word, y: Word, w: Word)
    ensures Fmix32(Xor(Xor(h, MixBlock(x)), w)) == Fmix32(Xor(Xor(h, MixBlock(y)), w)) <==> x == y
  {
    FmixInjective(Xor(Xor(h, MixBlock(x)), w), Xor(Xor(h, MixBlock(y)), w));
    XorInjective(Xor(h, MixBlock(x)), Xor(h, MixBlock(y)), w);
    XorInjective(MixBlock(x), MixBlock(y), h);
    MixInjective(x, y);
  }

  /** Keys that agree outside block i leave the block loop with the same hash only if
      they agree on block i. */
  lemma OneBlockLoop(a: seq<Byte>, b: seq<Byte>, seed: Word, i: nat, n: nat)
    requires 4 * n <= |a| && 4 * n <= |b| && i < n
    requires forall j :: 0 <= j < 4 * n && !(4 * i <= j < 4 * i + 4) ==> a[j] == b[j]
    ensures Body(a, seed, n) == Body(b, seed, n) <==> Block(a, i) == Block(b, i)
  {
    SharedBlocks(a, b, seed, seed, 0, i);
    TurnInjective(Body(a, seed, i), Block(a, i), Block(b, i));
    SharedBlocks(a, b, seed, seed, i + 1, n);
  }

  /** Two keys of the same length that differ at most inside block i have the same
      hash only if they are the same key. */
  lemma OneBlockApart(a: seq<Byte>, b: seq<Byte>, seed: Word, i: nat)
    requires |a| == |b| && 4 * i + 4 <= |a|
    requires forall j :: 0 <= j < |a| && !(4 * i <= j < 4 * i + 4) ==> a[j] == b[j]
    ensures Hash(a, seed) == Hash(b, seed) <==> a == b
  {
    var n := |a| / 4;
    OneBlockLoop(a, b, seed, i, n);
    var tail := a[4 * n..];
    assert tail == b[4 * n..];
    EndInjective(Body(a, seed, n), Body(b, seed, n), MixBlock(TailWord(tail)), LengthWord(|a|));
    JoinInjective(a[4 * i], a[4 * i + 1], a[4 * i + 2], a[4 * i + 3],
                  b[4 * i], b[4 * i + 1], b[4 * i + 2], b[4 * i + 3]);
  }

  /** Two keys of the same length that differ at most after their last block have the
      same hash only if they are the same key. */
  lemma TailApart(a: seq<Byte>, b: seq<Byte>, seed: Word)
    requires |a| == |b|
    requires forall j :: 0 <= j < |a| / 4 * 4 ==> a[j] == b[j]
    ensures Hash(a, seed) == Hash(b, seed) <==> a == b
  {
    var n := |a| / 4;
    SharedBlocks(a, b, seed, seed, 0, n);
    var x, y := TailWord(a[4 * n..]), TailWord(b[4 * n..]);
    var h, w := Body(a, seed, n), LengthWord(|a|);
    TailEndInjective(h, x, y, w);
    TailInjective(a[4 * n..], b[4 * n..]);
    SplitKey(a, b, 4 * n);
  }

  lemma SplitKey(a: seq<Byte>, b: seq<Byte>, m: nat)
    requires m <= |a| == |b| && forall j :: 0 <= j < m ==> a[j] == b[j]
    ensures a[m..] == b[m..] <==> a == b
  {
    assert a == a[..m] + a[m..] && b == b[..m] + b[m..] && a[..m] == b[..m];
  }

  /** Two seeds never give a key the same hash. */
  lemma SeedsApart(key: seq<Byte>, s: Word, t: Word)
    ensures Hash(key, s) == Hash(key, t) <==> s == t
  {
    var n := |key| / 4;
    SharedBlocks(key, key, s, t, 0, n);
    EndInjective(Body(key, s, n), Body(key, t, n), MixBlock(TailWord(key[4 * n..])), LengthWord(|key|));
  }

  // ------------------------------------------------------------ the length counts

  /** A zero byte that still fits the tail changes nothing but the length, and with it
      the hash. */
  lemma LengthCounts(key: seq<Byte>, seed: Word)
    requires |key| % 4 < 3
    ensures Hash(key + [0], seed) != Hash(key, seed)
  {
    var n, more := |key| / 4, key + [0];
    assert |more| / 4 == n;
    SharedBlocks(key, more, seed, seed, 0, n);
    assert more[4 * n..] == key[4 * n..] + [0];
    assert TailWord(more[4 * n..]) == TailWord(key[4 * n..]);
    var h := Xor(Body(key, seed, n), MixBlock(TailWord(key[4 * n..])));
    FmixInjective(Xor(h, LengthWord(|key|)), Xor(h, LengthWord(|more|)));
    XorInjective(LengthWord(|key|), LengthWord(|more|), h);
    LengthsDiffer(|key|);
  }

  lemma LengthsDiffer(n: nat)
    ensures LengthWord(n + 1) != LengthWord(n)
  {
    OneMoreDiffers(LengthWord(n));
  }

  lemma OneMoreDiffers(x: Word)
    ensures x + 1 != x
  {}

  // ------------------------------------------------------------ known values

  lemma SmallLengths()
    ensures LengthWord(0) == 0 && LengthWord(2) == 2 && LengthWord(4) == 4 && LengthWord(13) == 13
  {
    assert LengthWord(8) == 8;
  }

  /** Published values of the algorithm: of the empty key, of a key with a tail only, of
      one block, and of the text "Hello, world!", which has three blocks and a tail. */
  lemma KnownValues()
    ensures Hash([], 1) == 0x514e28b7
    ensures Hash([0x21, 0x43], 0) == 0xa0f7b07a
    ensures Hash([0x21, 0x43, 0x65, 0x87], 0) == 0xf55b516b
    ensures Hash([0x48, 0x65, 0x6c, 0x6c, 0x6f, 0x2c, 0x20, 0x77, 0x6f, 0x72, 0x6c, 0x64, 0x21], 0x9747b28c)
            == 0x24884cba
  {
    KnownEmpty();
    KnownTail([0x21, 0x43]);
    KnownBlock([0x21, 0x43, 0x65, 0x87]);
    KnownText([0x48, 0x65, 0x6c, 0x6c, 0x6f, 0x2c, 0x20, 0x77, 0x6f, 0x72, 0x6c, 0x64, 0x21]);
  }

  lemma KnownEmpty()
    ensures Hash([], 1) == 0x514e28b7
  {
    SmallLengths();
    NothingMixed(1);
    assert TailWord([]) == 0;
    assert Fmix32(1) == 0x514e28b7;
  }

  lemma KnownTail(key: seq<Byte>)
    requires key == [0x21, 0x43]
    ensures Hash(key, 0) == 0xa0f7b07a
  {
    SmallLengths();
    assert key[0..] == key;
    assert TailWord(key) == 0x4321;
    assert MixBlock(0x4321) == 0xec900b60;
    assert Fmix32(0xec900b60 ^ 2) == 0xa0f7b07a;
  }

  lemma BlockTurn()
    ensures Turn(0, 0x87654321) == 0xbb095db4
  {
    assert MixBlock(0x87654321) == 0x5082edee;
  }

  lemma BlockEnd()
    ensures Fmix32(Xor(0xbb095db4, 4)) == 0xf55b516b
  {
    assert Xor(0xbb095db4, 4) == 0xbb095db0;
    assert ShiftXor(0xbb095db0, 16) == 0xbb09e6b9;
    assert TimesF1(0xbb09e6b9) == 0xe6046953;
    assert ShiftXor(0xe6046953, 13) == 0xe6035970;
    assert TimesF2(0xe6035970) == 0xf55ba430;
  }

  lemma OneBlock(key: seq<Byte>, seed: Word)
    requires |key| == 4
    ensures Hash(key, seed) == Fmix32(Xor(Turn(seed, Block(key, 0)), 4))
  {
    SmallLengths();
    assert Body(key, seed, 1) == Turn(Body(key, seed, 0), Block(key, 0));
    assert TailWord(key[4..]) == 0;
    NothingMixed(Body(key, seed, 1));
  }

  lemma KnownBlock(key: seq<Byte>)
    requires key == [0x21, 0x43, 0x65, 0x87]
    ensures Hash(key, 0) == 0xf55b516b
  {
    assert Block(key, 0) == 0x87654321;
    OneBlock(key, 0);
    BlockTurn();
    BlockEnd();
  }

  lemma TextBlocks(key: seq<Byte>)
    requires key == [0x48, 0x65, 0x6c, 0x6c, 0x6f, 0x2c, 0x20, 0x77, 0x6f, 0x72, 0x6c, 0x64, 0x21]
    ensures Block(key, 0) == 0x6c6c6548 && Block(key, 1) == 0x77202c6f && Block(key, 2) == 0x646c726f
  {}

  lemma FirstTurn()
    ensures Turn(0x9747b28c, 0x6c6c6548) == 0xdae4c92e
  {
    assert MixBlock(0x6c6c6548) == 0x0153080c;
  }

  lemma SecondTurn()
    ensures Turn(0xdae4c92e, 0x77202c6f) == 0x71c6b43c
  {
    assert MixBlock(0x77202c6f) == 0x7d238cad;
  }

  lemma ThirdTurn()
    ensures Turn(0x71c6b43c, 0x646c726f) == 0x3bd692af
  {
    assert MixBlock(0x646c726f) == 0xa9bc9655;
  }

  lemma ThreeTurns(key: seq<Byte>, seed: Word)
    requires |key| >= 12
    ensures Body(key, seed, 3) == Turn(Turn(Turn(seed, Block(key, 0)), Block(key, 1)), Block(key, 2))
  {
    assert Body(key, seed, 1) == Turn(Body(key, seed, 0), Block(key, 0));
    assert Body(key, seed, 2) == Turn(Body(key, seed, 1), Block(key, 1));
  }

  lemma KnownBlocks(key: seq<Byte>)
    requires key == [0x48, 0x65, 0x6c, 0x6c, 0x6f, 0x2c, 0x20, 0x77, 0x6f, 0x72, 0x6c, 0x64, 0x21]
    ensures Body(key, 0x9747b28c, 3) == 0x3bd692af
  {
    TextBlocks(key);
    ThreeTurns(key, 0x9747b28c);
    FirstTurn();
    SecondTurn();
    ThirdTurn();
  }

  lemma TextEnd()
    ensures Fmix32(Xor(Xor(0x3bd692af, MixBlock(0x21)), 13)) == 0x24884cba
  {
    assert MixBlock(0x21) == 0xac5e5123;
    assert Xor(Xor(0x3bd692af, 0xac5e5123), 13) == 0x9788c381;
    assert ShiftXor(0x9788c381, 16) == 0x97885409;
    assert TimesF1(0x97885409) == 0xb98d39c3;
    assert ShiftXor(0xb98d39c3, 13) == 0xb988f5aa;
    assert TimesF2(0xb988f5aa) == 0x24886832;
  }

  lemma KnownText(key: seq<Byte>)
    requires key == [0x48, 0x65, 0x6c, 0x6c, 0x6f, 0x2c, 0x20, 0x77, 0x6f, 0x72, 0x6c, 0x64, 0x21]
    ensures Hash(key, 0x9747b28c) == 0x24884cba
  {
    SmallLengths();
    KnownBlocks(key);
    assert key[12..] == [0x21];
    assert TailWord(key[12..]) == 0x21;
    TextEnd();
  }

}
