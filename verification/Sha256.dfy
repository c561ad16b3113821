/** SHA-256 as FIPS 180-4 defines it, and the streaming hasher that computes it block by block. */
module Sha256 {
  import opened Prelude

  newtype byte = x: int | 0 <= x < 256
  type word = bv32

  const BLOCK := 64
  const UINT64_MAX := 0xffff_ffff_ffff_ffff

  // ----- FIPS 180-4, sections 4.1.2 and 4.2.2: functions and constants -----

  /** Addition modulo 2^32. */
  function Plus(x: word, y: word): word { x + y }

  function Ch(x: word, y: word, z: word): word { (x & y) ^ (!x & z) }
  function Maj(x: word, y: word, z: word): word { (x & y) ^ (x & z) ^ (y & z) }

  // ROTR n is a right shift joined with the bits it pushed out.
  function BigSigma0(x: word): word { ((x >> 2) | (x << 30)) ^ ((x >> 13) | (x << 19)) ^ ((x >> 22) | (x << 10)) }
  function BigSigma1(x: word): word { ((x >> 6) | (x << 26)) ^ ((x >> 11) | (x << 21)) ^ ((x >> 25) | (x << 7)) }
  function Sigma0(x: word): word { ((x >> 7) | (x << 25)) ^ ((x >> 18) | (x << 14)) ^ (x >> 3) }
  function Sigma1(x: word): word { ((x >> 17) | (x << 15)) ^ ((x >> 19) | (x << 13)) ^ (x >> 10) }

  // The round constants, sixteen at a time.
  const K0: seq<word> := [
    0x428a2f98, 0x71374491, 0xb5c0fbcf, 0xe9b5dba5, 0x3956c25b, 0x59f111f1, 0x923f82a4, 0xab1c5ed5,
    0xd807aa98, 0x12835b01, 0x243185be, 0x550c7dc3, 0x72be5d74, 0x80deb1fe, 0x9bdc06a7, 0xc19bf174]
  const K1: seq<word> := [
    0xe49b69c1, 0xefbe4786, 0x0fc19dc6, 0x240ca1cc, 0x2de92c6f, 0x4a7484aa, 0x5cb0a9dc, 0x76f988da,
    0x983e5152, 0xa831c66d, 0xb00327c8, 0xbf597fc7, 0xc6e00bf3, 0xd5a79147, 0x06ca6351, 0x14292967]
  const K2: seq<word> := [
    0x27b70a85, 0x2e1b2138, 0x4d2c6dfc, 0x53380d13, 0x650a7354, 0x766a0abb, 0x81c2c92e, 0x92722c85,
    0xa2bfe8a1, 0xa81a664b, 0xc24b8b70, 0xc76c51a3, 0xd192e819, 0xd6990624, 0xf40e3585, 0x106aa070]
  const K3: seq<word> := [
    0x19a4c116, 0x1e376c08, 0x2748774c, 0x34b0bcb5, 0x391c0cb3, 0x4ed8aa4a, 0x5b9cca4f, 0x682e6ff3,
    0x748f82ee, 0x78a5636f, 0x84c87814, 0x8cc70208, 0x90befffa, 0xa4506ceb, 0xbef9a3f7, 0xc67178f2]
  const K: seq<word> := K0 + K1 + K2 + K3

  const IV: seq<word> := [0x6a09e667, 0xbb67ae85, 0x3c6ef372, 0xa54ff53a, 0x510e527f, 0x9b05688c, 0x1f83d9ab, 0x5be0cd19]

  lemma KLength()
    ensures |K| == 64
  {
  }

  // ----- Section 5.1.1: padding -----

  function Zeros(n: nat): (r: seq<byte>)
    ensures |r| == n && forall i :: 0 <= i < n ==> r[i] == 0
  {
    seq(n, i => 0)
  }

  function BigEndian(n: nat, k: nat): (r: seq<byte>)
    ensures |r| == k
  {
    if k == 0 then [] else BigEndian(n / 256, k - 1) + [(n % 256) as byte]
  }

  /** The number of zero bytes: the message, one byte 0x80 and they end 8 bytes short of a full block. */
  function ZeroBytes(n: nat): (k: nat)
    ensures k < BLOCK && (n + 1 + k + 8) % BLOCK == 0
  {
    (119 - n % BLOCK) % BLOCK
  }

  function Pad(m: seq<byte>): (r: seq<byte>)
    ensures |r| % BLOCK == 0
  {
    m + [0x80] + Zeros(ZeroBytes(|m|)) + BigEndian(8 * |m|, 8)
  }

  // ----- Sections 5.2.1 and 6.2.2: blocks, schedule and compression -----

  /** Four bytes, most significant first. */
  function WordOf(a: byte, b: byte, c: byte, d: byte): word {
    ((a as word) << 24) | ((b as word) << 16) | ((c as word) << 8) | (d as word)
  }

  function Schedule(block: seq<byte>, t: nat): (w: seq<word>)
    requires |block| == BLOCK && t <= 64
    ensures |w| == t
  {
    if t == 0 then []
    else
      var w := Schedule(block, t - 1);
      var i := t - 1;
      w + [if i < 16 then WordOf(block[4 * i], block[4 * i + 1], block[4 * i + 2], block[4 * i + 3])
           else Plus(Plus(Plus(w[i - 16], Sigma0(w[i - 15])), w[i - 7]), Sigma1(w[i - 2]))]
  }

  datatype Vars = Vars(a: word, b: word, c: word, d: word, e: word, f: word, g: word, h: word)

  function Round(v: Vars, k: word, w: word): Vars {
    var t1 := Plus(Plus(Plus(Plus(v.h, BigSigma1(v.e)), Ch(v.e, v.f, v.g)), k), w);
    Vars(Plus(Plus(t1, BigSigma0(v.a)), Maj(v.a, v.b, v.c)), v.a, v.b, v.c, Plus(v.d, t1), v.e, v.f, v.g)
  }

  function Rounds(v: Vars, w: seq<word>, t: nat): Vars
    requires t <= |w| && t <= |K|
  {
    if t == 0 then v else Round(Rounds(v, w, t - 1), K[t - 1], w[t - 1])
  }

  function Compress(h: seq<word>, block: seq<byte>): (r: seq<word>)
    requires |h| == 8 && |block| == BLOCK
    ensures |r| == 8
  {
    KLength();
    AddAll(h, Listed(Rounds(VarsOf(h), Schedule(block, 64), 64)))
  }

  /** The chaining value after the first `n` blocks. */
  function Chain(data: seq<byte>, n: nat): (h: seq<word>)
    requires n * BLOCK <= |data|
    ensures |h| == 8
  {
    if n == 0 then IV else Compress(Chain(data, n - 1), data[(n - 1) * BLOCK..n * BLOCK])
  }

  function Hash(m: seq<byte>): (h: seq<word>)
    ensures |h| == 8
  {
    Chain(Pad(m), |Pad(m)| / BLOCK)
  }

  // ----- The digest as text -----

  const DIGITS := "0123456789abcdef"

  /** The `k`-th hexadecimal digit of a word, the most significant first. */
  function HexDigit(w: word, k: nat): char
    requires k < 8
  {
    DIGITS[((w >> (28 - 4 * k)) & 15) as int]
  }

  function HexWord(w: word, k: nat): (r: string)
    requires k <= 8
    ensures |r| == k
  {
    if k == 0 then "" else HexWord(w, k - 1) + [HexDigit(w, k - 1)]
  }

  function HexOf(h: seq<word>, n: nat): string
    requires n <= |h|
  {
    if n == 0 then "" else HexOf(h, n - 1) + HexWord(h[n - 1], 8)
  }

  function Digest(m: seq<byte>): string {
    HexOf(Hash(m), 8)
  }

  // ----- Facts -----

  /** One more byte at the low end of a word. */
  function ShiftIn(x: word, b: byte): word {
    (x << 8) | (b as word)
  }

  lemma FourBytes(a: byte, b: byte, c: byte, d: byte)
    ensures ShiftIn(ShiftIn(ShiftIn(ShiftIn(0, a), b), c), d) == WordOf(a, b, c, d)
  {
  }

  /** `n` shifted right by `k` bytes. */
  function ShiftBytes(n: nat, k: nat): nat {
    if k == 0 then n else ShiftBytes(n / 256, k - 1)
  }

  lemma {:induction false} BigEndianAt(n: nat, k: nat, i: nat)
    requires i < k
    ensures BigEndian(n, k)[k - 1 - i] as int == ShiftBytes(n, i) % 256
  {
    if i > 0 { BigEndianAt(n / 256, k - 1, i - 1); }
  }

  function FromBytes(s: seq<byte>): nat {
    if s == [] then 0 else FromBytes(s[..|s| - 1]) * 256 + s[|s| - 1] as int
  }

  function Power256(k: nat): nat {
    if k == 0 then 1 else 256 * Power256(k - 1)
  }

  /** A length that fits 64 bits is encoded without loss. */
  lemma {:induction false} LengthRoundTrips(n: nat, k: nat)
    requires n < Power256(k)
    ensures FromBytes(BigEndian(n, k)) == n
  {
    if k > 0 { LengthRoundTrips(n / 256, k - 1); }
  }

  /** The last eight bytes of a padded message are its length in bits. */
  lemma PadEndsWithLength(m: seq<byte>)
    requires 8 * |m| <= UINT64_MAX
    ensures |Pad(m)| >= |m| + 9 && Pad(m)[..|m|] == m
    ensures FromBytes(Pad(m)[|Pad(m)| - 8..]) == 8 * |m|
  {
    var length := BigEndian(8 * |m|, 8);
    assert Power256(8) == UINT64_MAX + 1 by { assert Power256(4) == 0x1_0000_0000; }
    LengthRoundTrips(8 * |m|, 8);
    assert Pad(m)[|Pad(m)| - 8..] == length;
  }

  /** Padding loses nothing: two messages of representable length with the same padding are the same. */
  lemma PadIsInjective(a: seq<byte>, b: seq<byte>)
    requires 8 * |a| <= UINT64_MAX && 8 * |b| <= UINT64_MAX && Pad(a) == Pad(b)
    ensures a == b
  {
    hide Pad, FromBytes;
    PadEndsWithLength(a);
    PadEndsWithLength(b);
  }

  lemma {:induction false} ChainPrefix(a: seq<byte>, b: seq<byte>, n: nat)
    requires a <= b && n * BLOCK <= |a|
    ensures Chain(a, n) == Chain(b, n)
  {
    hide Compress;
    if n > 0 {
      ChainPrefix(a, b, n - 1);
      assert a[(n - 1) * BLOCK..n * BLOCK] == b[(n - 1) * BLOCK..n * BLOCK];
    }
  }

  // ----- The streaming hasher -----

  function Listed(v: Vars): seq<word> {
    [v.a, v.b, v.c, v.d, v.e, v.f, v.g, v.h]
  }

  function VarsOf(h: seq<word>): Vars
    requires |h| == 8
  {
    Vars(h[0], h[1], h[2], h[3], h[4], h[5], h[6], h[7])
  }

  predicate Summed(h: seq<word>, values: seq<word>, r: seq<word>) {
    |h| == 8 && |values| == 8 && |r| == 8 && forall k :: 0 <= k < 8 ==> r[k] == Plus(h[k], values[k])
  }

  function AddAll(h: seq<word>, values: seq<word>): (r: seq<word>)
    requires |h| == 8 && |values| == 8
    ensures Summed(h, values, r)
  {
    seq(8, i requires 0 <= i < 8 => Plus(h[i], values[i]))
  }

  lemma SumsAre(h: seq<word>, values: seq<word>, r: seq<word>)
    requires Summed(h, values, r)
    ensures r == AddAll(h, values)
  {
    hide Plus;
  }

  class Hasher {
    const state: array<word>
    const block: array<byte>
    var size: nat
    var used: nat
    ghost var data: seq<byte>

    /** The state has absorbed every whole block of the data, the block buffer holds the rest. */
    ghost predicate Valid()
      reads this, state, block
    {
      && state.Length == 8 && block.Length == BLOCK
      && Absorbed(data, used, state[..], block[..])
      && size == |data| && 8 * size <= UINT64_MAX
    }

    constructor ()
      ensures Valid() && fresh(state) && fresh(block) && data == []
    {
      state := new word[8](i requires 0 <= i < 8 => IV[i]);
      block := new byte[BLOCK](i => 0);
      size, used, data := 0, 0, [];
      new;
      assert state[..] == IV;
    }

    /** The first words of the schedule are those of the block, shifted in byte by byte. */
    method FirstWords() returns (words: array<word>)
      requires block.Length == BLOCK
      ensures fresh(words) && words.Length == 64 && words[..16] == Schedule(block[..], 16)
    {
      hide ShiftIn, WordOf, Sigma0, Sigma1, Plus;
      words := new word[64](i => 0);
      for i := 0 to 16
        invariant words[..i] == Schedule(block[..], i)
        invariant forall k :: i <= k < 64 ==> words[k] == 0
      {
        for b := 0 to 4
          invariant words[..i] == Schedule(block[..], i) && forall k :: i < k < 64 ==> words[k] == 0
          invariant words[i] == Partial(block[..], i, b)
        {
          words[i] := ShiftIn(words[i], block[i * 4 + b]);
        }
        WordIs(block[..], i);
        assert words[..i + 1] == words[..i] + [words[i]];
      }
    }

    /** The message schedule of the block at hand. */
    method Words() returns (w: seq<word>)
      requires block.Length == BLOCK
      ensures w == Schedule(block[..], 64)
    {
      hide WordOf, Sigma0, Sigma1, Plus;
      var words := FirstWords();
      for i := 16 to 64
        invariant words[..i] == Schedule(block[..], i)
      {
        var a, b := words[i - 15], words[i - 2];
        var s0, s1 := Sigma0(a), Sigma1(b);
        assert words[..i][i - 15] == a && words[..i][i - 2] == b;
        assert words[..i][i - 16] == words[i - 16] && words[..i][i - 7] == words[i - 7];
        words[i] := Plus(Plus(Plus(words[i - 16], s0), words[i - 7]), s1);
        assert words[..i + 1] == words[..i] + [words[i]];
      }
      return words[..];
    }

    /** The sixty-four rounds over the block at hand. */
    method Mix() returns (values: seq<word>)
      requires state.Length == 8 && block.Length == BLOCK
      ensures values == Listed(Rounds(VarsOf(state[..]), Schedule(block[..], 64), 64))
    {
      hide Schedule, BigSigma0, BigSigma1, Ch, Maj, Plus, K;
      var words := Words();
      var a, b, c, d, e, f, g, h := state[0], state[1], state[2], state[3], state[4], state[5], state[6], state[7];
      ghost var v0 := VarsOf(state[..]);
      KLength();
      for i := 0 to 64
        invariant Vars(a, b, c, d, e, f, g, h) == Rounds(v0, words, i)
      {
        var s1 := BigSigma1(e);
        var choose := Ch(e, f, g);
        var first := Plus(Plus(Plus(Plus(h, s1), choose), K[i]), words[i]);
        var s0 := BigSigma0(a);
        var majority := Maj(a, b, c);
        h, g, f, e, d, c, b, a := g, f, e, Plus(d, first), c, b, a, Plus(Plus(first, s0), majority);
      }
      return [a, b, c, d, e, f, g, h];
    }

    /** The working variables are added to the state. */
    method AddIn(values: seq<word>)
      requires state.Length == 8 && |values| == 8
      modifies state
      ensures state[..] == AddAll(old(state[..]), values)
    {
      hide Plus;
      ghost var h0 := state[..];
      for i := 0 to 8
        invariant forall k :: 0 <= k < 8 ==> state[k] == if k < i then Plus(h0[k], values[k]) else h0[k]
      {
        state[i] := Plus(state[i], values[i]);
      }
      SumsAre(h0, values, state[..]);
    }

    method Transform()
      requires state.Length == 8 && block.Length == BLOCK
      modifies state
      ensures state[..] == Compress(old(state[..]), block[..])
    {
      hide Schedule, Rounds, AddAll;
      KLength();
      var values := Mix();
      AddIn(values);
    }

    /** One more byte; a full block is absorbed at once. */
    method Feed(b: byte)
      requires Valid() && 8 * (size + 1) <= UINT64_MAX
      modifies this, state, block
      ensures Valid() && data == old(data) + [b] && size == old(size) + 1
    {
      hide Chain, Compress;
      ghost var before := data;
      block[used] := b;
      used := used + 1;
      size, data := size + 1, data + [b];
      if used == BLOCK {
        FullBlock(before, b, used - 1, state[..], old(block[..]), block[..]);
        Transform();
        used := 0;
      } else {
        PartBlock(before, b, used - 1, state[..], old(block[..]), block[..]);
      }
    }

    /** Refuses only input that would overflow the 64-bit length. */
    method Update(bytes: seq<byte>) returns (ok: bool)
      requires Valid()
      modifies this, state, block
      ensures Valid() && ok == (8 * (old(size) + |bytes|) <= UINT64_MAX)
      ensures data == if ok then old(data) + bytes else old(data)
    {
      hide Absorbed;
      if |bytes| > UINT64_MAX / 8 - size { return false; }
      for i := 0 to |bytes|
        invariant Valid() && data == old(data) + bytes[..i] && size == old(size) + i
      {
        Feed(bytes[i]);
        assert bytes[..i] + [bytes[i]] == bytes[..i + 1];
      }
      assert bytes[..|bytes|] == bytes;
      return true;
    }

    // ----- The end of the message -----

    method Put(b: byte, ghost d: seq<byte>)
      requires block.Length == BLOCK && used < BLOCK && Pending(d, used, state[..], block[..])
      modifies `used, block
      ensures used == old(used) + 1 && Pending(d + [b], used, state[..], block[..])
    {
      hide Chain;
      PendingPut(d, b, used, state[..], block[..]);
      block[used] := b;
      used := used + 1;
    }

    method PutZeros(to: nat, ghost d: seq<byte>)
      requires block.Length == BLOCK && used <= to <= BLOCK && Pending(d, used, state[..], block[..])
      modifies `used, block
      ensures used == to && Pending(d + Zeros(to - old(used)), to, state[..], block[..])
    {
      hide Chain, Pending, Zeros;
      ZerosSnoc(d, 0);
      while used < to
        invariant old(used) <= used <= to && Pending(d + Zeros(used - old(used)), used, state[..], block[..])
      {
        ghost var done := used - old(used);
        ZerosSnoc(d, done);
        Put(0, d + Zeros(done));
      }
    }

    method Flush(ghost d: seq<byte>)
      requires state.Length == 8 && block.Length == BLOCK && used == BLOCK && Pending(d, BLOCK, state[..], block[..])
      modifies `used, state
      ensures used == 0 && Pending(d, 0, state[..], block[..])
    {
      hide Compress;
      PendingFlush(d, state[..], block[..]);
      Transform();
      used := 0;
    }

    /** The message length in bits, most significant byte first, in the last eight bytes of the block. */
    method PutLength(bits: nat, ghost d: seq<byte>)
      requires state.Length == 8 && block.Length == BLOCK && used == 56 && Pending(d, 56, state[..], block[..])
      modifies `used, block
      ensures used == BLOCK && Pending(d + BigEndian(bits, 8), BLOCK, state[..], block[..])
    {
      hide Chain, BigEndian, ShiftBytes, Pending;
      ghost var before, state0 := block[..56], block[..];
      for index := 0 to 8
        invariant forall j :: 0 <= j < 56 ==> block[j] == state0[j]
        invariant forall j :: 64 - index <= j < 64 ==> block[j] == BigEndian(bits, 8)[j - 56]
      {
        BigEndianAt(bits, 8, index);
        block[63 - index] := (ShiftBytes(bits, index) % 256) as byte;
      }
      assert block[..] == before + BigEndian(bits, 8);
      PendingLength(d, BigEndian(bits, 8), state[..], state0, block[..]);
      used := BLOCK;
    }

    method Print() returns (output: string)
      requires state.Length == 8
      ensures output == HexOf(state[..], 8)
    {
      output := "";
      for i := 0 to 8
        invariant output == HexOf(state[..], i)
      {
        var word := state[i];
        for k := 0 to 8
          invariant output == HexOf(state[..], i) + HexWord(word, k)
        {
          output := output + [HexDigit(word, k)];
        }
      }
    }

    /** Pads the rest, absorbs it and prints the state: the digest of everything that was fed. */
    method Finish() returns (digest: string)
      requires Valid()
      modifies this, state, block
      ensures digest == Digest(old(data))
    {
      hide Chain, HexOf, Pad, BigEndian, Pending;
      ghost var m := data;
      AbsorbedIsPending(m, used, state[..], block[..]);
      Put(0x80, m);
      ghost var d := m + [0x80];
      ghost var zeros := 0;
      if used > 56 {
        zeros := BLOCK - used;
        PutZeros(BLOCK, d);
        d := d + Zeros(zeros);
        Flush(d);
      }
      zeros := zeros + 56 - used;
      ghost var rest := 56 - used;
      PutZeros(56, d);
      PutLength(8 * size, d + Zeros(rest));
      Padded(m, d, zeros - rest, rest);
      Flush(Pad(m));
      PendingDone(Pad(m), state[..], block[..]);
      digest := Print();
    }
  }

  /** `n` whole blocks are in the state and `used` more bytes lie in the buffer. */
  ghost predicate Absorbed(data: seq<byte>, used: nat, state: seq<word>, block: seq<byte>) {
    && used < BLOCK && |block| == BLOCK && used == |data| % BLOCK
    && state == Chain(data, |data| / BLOCK)
    && block[..used] == data[|data| / BLOCK * BLOCK..]
  }

  lemma Parts(n: nat, used: nat)
    requires used == n % BLOCK
    ensures n / BLOCK * BLOCK + used == n && (n - used) / BLOCK == n / BLOCK && (n - used) % BLOCK == 0
    ensures used + 1 < BLOCK ==> (n + 1) / BLOCK == n / BLOCK && (n + 1) % BLOCK == used + 1
    ensures used + 1 == BLOCK ==> (n + 1) / BLOCK == n / BLOCK + 1 && (n + 1) % BLOCK == 0
  {
  }

  lemma PartBlock(data: seq<byte>, b: byte, used: nat, state: seq<word>, block: seq<byte>, block': seq<byte>)
    requires Absorbed(data, used, state, block) && block' == block[used := b] && used + 1 < BLOCK
    ensures Absorbed(data + [b], used + 1, state, block')
  {
    hide Chain;
    Parts(|data|, used);
    ChainPrefix(data, data + [b], |data| / BLOCK);
    assert block'[..used + 1] == block[..used] + [b];
    Tail(data, b, |data| / BLOCK * BLOCK);
  }

  lemma Tail(data: seq<byte>, b: byte, i: nat)
    requires i <= |data|
    ensures (data + [b])[i..] == data[i..] + [b]
  {
  }

  lemma FullBlock(data: seq<byte>, b: byte, used: nat, state: seq<word>, block: seq<byte>, block': seq<byte>)
    requires Absorbed(data, used, state, block) && block' == block[used := b] && used + 1 == BLOCK
    ensures |state| == 8
    ensures forall block'' :: |block''| == BLOCK ==> Absorbed(data + [b], 0, Compress(state, block'), block'')
  {
    hide Compress;
    var n, all := |data| / BLOCK, data + [b];
    Parts(|data|, used);
    ChainPrefix(data, all, n);
    assert block' == block[..used] + [b];
    Tail(data, b, n * BLOCK);
    assert all[n * BLOCK..(n + 1) * BLOCK] == all[n * BLOCK..];
  }

  /** Like `Absorbed`, but a full buffer may still be waiting. */
  ghost predicate Pending(data: seq<byte>, used: nat, state: seq<word>, block: seq<byte>) {
    && used <= BLOCK && |block| == BLOCK && used <= |data| && (|data| - used) % BLOCK == 0
    && state == Chain(data, (|data| - used) / BLOCK)
    && block[..used] == data[|data| - used..]
  }

  lemma ZerosSnoc(d: seq<byte>, n: nat)
    ensures d + Zeros(n) + [0] == d + Zeros(n + 1) && d + Zeros(0) == d
  {
  }

  lemma AbsorbedIsPending(data: seq<byte>, used: nat, state: seq<word>, block: seq<byte>)
    requires Absorbed(data, used, state, block)
    ensures Pending(data, used, state, block)
  {
    hide Chain;
    Parts(|data|, used);
  }

  lemma PendingPut(data: seq<byte>, b: byte, used: nat, state: seq<word>, block: seq<byte>)
    requires Pending(data, used, state, block) && used < BLOCK
    ensures Pending(data + [b], used + 1, state, block[used := b])
  {
    hide Chain;
    ChainPrefix(data, data + [b], (|data| - used) / BLOCK);
    Tail(data, b, |data| - used);
    assert block[used := b][..used + 1] == block[..used] + [b];
  }

  lemma PendingFlush(data: seq<byte>, state: seq<word>, block: seq<byte>)
    requires Pending(data, BLOCK, state, block)
    ensures |state| == 8 && Pending(data, 0, Compress(state, block), block)
  {
    hide Compress;
    var n := (|data| - BLOCK) / BLOCK;
    assert |data| == (n + 1) * BLOCK;
    assert block == block[..BLOCK];
    assert data[n * BLOCK..(n + 1) * BLOCK] == data[n * BLOCK..];
  }

  lemma PendingLength(data: seq<byte>, length: seq<byte>, state: seq<word>, before: seq<byte>, block: seq<byte>)
    requires |length| == 8 && Pending(data, 56, state, before) && block == before[..56] + length
    ensures Pending(data + length, BLOCK, state, block)
  {
    hide Chain;
    ChainPrefix(data, data + length, (|data| - 56) / BLOCK);
    assert (data + length)[|data| - 56..] == data[|data| - 56..] + length;
    assert block[..BLOCK] == block;
  }

  lemma PendingDone(data: seq<byte>, state: seq<word>, block: seq<byte>)
    requires Pending(data, 0, state, block)
    ensures |data| % BLOCK == 0 && state == Chain(data, |data| / BLOCK)
  {
  }

  /** The zero bytes written in one or two stretches are the padding's. */
  lemma Padded(m: seq<byte>, d: seq<byte>, first: nat, second: nat)
    requires d == m + [0x80] + Zeros(first) && first + second == ZeroBytes(|m|)
    ensures d + Zeros(second) + BigEndian(8 * |m|, 8) == Pad(m)
  {
    hide BigEndian;
    assert Zeros(first) + Zeros(second) == Zeros(first + second);
  }

  /** A word after `b` of its bytes have been shifted in. */
  function Partial(block: seq<byte>, i: nat, b: nat): word
    requires |block| == BLOCK && i < 16 && b <= 4
  {
    if b == 0 then 0 else ShiftIn(Partial(block, i, b - 1), block[i * 4 + b - 1])
  }

  lemma WordIs(block: seq<byte>, i: nat)
    requires |block| == BLOCK && i < 16
    ensures Partial(block, i, 4) == WordOf(block[4 * i], block[4 * i + 1], block[4 * i + 2], block[4 * i + 3])
  {
    hide ShiftIn, WordOf;
    var a, b, c, d := block[4 * i], block[4 * i + 1], block[4 * i + 2], block[4 * i + 3];
    assert Partial(block, i, 1) == ShiftIn(0, a);
    assert Partial(block, i, 2) == ShiftIn(Partial(block, i, 1), b);
    assert Partial(block, i, 3) == ShiftIn(Partial(block, i, 2), c);
    FourBytes(a, b, c, d);
  }

  // ----- Hashing a file -----

  /** What one pread gives: an interrupted call, an error or end of file, or up to `count` bytes. */
  datatype Read = Interrupted | Failed | Got(count: nat)

  const BUFFER := 65536

  /** Bytes the first `n` reads deliver, of the `left` that are still wanted; none if one of them fails. */
  function Delivered(attempts: seq<Read>, n: nat, left: nat): Option<nat>
    requires n <= |attempts|
    ensures Delivered(attempts, n, left).Some? ==> Delivered(attempts, n, left).value <= left
  {
    if n == 0 then Some(0)
    else
      var d := Delivered(attempts, n - 1, left);
      if d.None? || d == Some(left) then d
      else match attempts[n - 1]
        case Interrupted => d
        case Failed => None
        case Got(count) =>
          if count == 0 then None else Some(d.value + Min(count, Min(left - d.value, BUFFER)))
  }

  lemma {:induction false} DeliveredStays(attempts: seq<Read>, m: nat, n: nat, left: nat)
    requires m <= n <= |attempts| && (Delivered(attempts, m, left).None? || Delivered(attempts, m, left) == Some(left))
    ensures Delivered(attempts, n, left) == Delivered(attempts, m, left)
  {
    if m < n { DeliveredStays(attempts, m, n - 1, left); }
  }

  lemma OneRead(attempts: seq<Read>, n: nat, left: nat)
    requires n < |attempts| && Delivered(attempts, n, left).Some? && Delivered(attempts, n, left).value < left
    ensures var d := Delivered(attempts, n, left).value;
            Delivered(attempts, n + 1, left) ==
            match attempts[n]
            case Interrupted => Some(d)
            case Failed => None
            case Got(count) => if count == 0 then None else Some(d + Min(count, Min(left - d, BUFFER)))
  {
  }

  lemma NoneDelivered(attempts: seq<Read>, left: nat)
    ensures Delivered(attempts, 0, left) == Some(0)
  {
  }

  lemma Stretch(s: seq<byte>, i: nat, n: nat)
    requires i + n <= |s|
    ensures s[..i] + s[i..i + n] == s[..i + n]
  {
  }

  /** Hashes each byte of an unchanging regular file once and in order, whatever the short reads. A stop request or
      the deadline ends it before any read, which is where `attempts` ends, or after the last one, which is `late`. */
  method HashDescriptor(content: seq<byte>, attempts: seq<Read>, late: bool, stable: bool) returns (digest: Option<string>)
    ensures digest.Some? <==>
            Delivered(attempts, |attempts|, |content|) == Some(|content|) && !late && stable && 8 * |content| <= UINT64_MAX
    ensures digest.Some? ==> digest.value == Digest(content)
  {
    hide Digest, Absorbed, Delivered;
    NoneDelivered(attempts, |content|);
    var hash := new Hasher();
    var remaining: nat := |content|;
    var n := 0;
    while remaining > 0
      invariant fresh(hash) && fresh(hash.state) && fresh(hash.block) && hash.Valid()
      invariant 0 <= remaining <= |content| && n <= |attempts| && hash.data == content[..|content| - remaining]
      invariant Delivered(attempts, n, |content|) == Some(|content| - remaining)
      decreases |attempts| - n
    {
      if n == |attempts| { return None; }
      var read := attempts[n];
      OneRead(attempts, n, |content|);
      n := n + 1;
      if read.Interrupted? { continue; }
      if read.Failed? || read.count == 0 {
        DeliveredStays(attempts, n, |attempts|, |content|);
        return None;
      }
      var requested := Min(remaining, BUFFER);
      var count := Min(read.count, requested);
      var offset := |content| - remaining;
      var ok := hash.Update(content[offset..offset + count]);
      if !ok { return None; }
      Stretch(content, offset, count);
      remaining := remaining - count;
    }
    DeliveredStays(attempts, n, |attempts|, |content|);
    assert content[..|content|] == content;
    if late || !stable { return None; }
    var text := hash.Finish();
    return Some(text);
  }
}
