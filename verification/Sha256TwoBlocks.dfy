/** The second example of the standard, and of the repository's own check: 56 bytes, whose padding goes on into a second
    block. It shows what the one-block example cannot: how a block starts from the values of the one before it. */
module Sha256TwoBlocks {
  import opened Sha256
  import opened Sha256Example

  const F0: seq<byte> := [0x61, 0x62, 0x63, 0x64, 0x62, 0x63, 0x64, 0x65, 0x63, 0x64, 0x65, 0x66, 0x64, 0x65, 0x66, 0x67]
  const F1: seq<byte> := [0x65, 0x66, 0x67, 0x68, 0x66, 0x67, 0x68, 0x69, 0x67, 0x68, 0x69, 0x6a, 0x68, 0x69, 0x6a, 0x6b]
  const F2: seq<byte> := [0x69, 0x6a, 0x6b, 0x6c, 0x6a, 0x6b, 0x6c, 0x6d, 0x6b, 0x6c, 0x6d, 0x6e, 0x6c, 0x6d, 0x6e, 0x6f]
  const F3: seq<byte> := [0x6d, 0x6e, 0x6f, 0x70, 0x6e, 0x6f, 0x70, 0x71, 0x80, 0x00, 0x00, 0x00, 0x00, 0x00, 0x00, 0x00]
  const LAST: seq<byte> := [0x6d, 0x6e, 0x6f, 0x70, 0x6e, 0x6f, 0x70, 0x71]

  const MESSAGE: seq<byte> := F0 + F1 + F2 + LAST
  const FIRST: seq<byte> := F0 + F1 + F2 + F3

  const SECOND: seq<byte> := Zeros(62) + [0x01, 0xc0]

  const MIDDLE: seq<word> := [0x85e655d6, 0x417a1795, 0x3363376a, 0x624cde5c, 0x76e09589, 0xcac5f811, 0xcc4b32c1, 0xf20e533a]

  lemma FirstLength()
    ensures |FIRST| == BLOCK
  {
  }

  lemma SecondLength()
    ensures |SECOND| == BLOCK
  {
  }

  lemma WordsOne16(w: seq<word>)
    requires |FIRST| == BLOCK && w == Schedule(FIRST, 64)
    requires Words(w, 0, 0x61626364, 0x62636465, 0x63646566, 0x64656667, 0x65666768, 0x66676869, 0x6768696a, 0x68696a6b)
    requires Words(w, 8, 0x696a6b6c, 0x6a6b6c6d, 0x6b6c6d6e, 0x6c6d6e6f, 0x6d6e6f70, 0x6e6f7071, 0x80000000, 0x00000000)
    ensures Words(w, 16, 0xeb8012ad, 0xa7c3ae92, 0x76e93ba2, 0xba42e743, 0x92a92204, 0xd847e75e, 0x9e160036, 0xb280a7cb)
  {
    hide Schedule;
    Expand(FIRST, w, 16, 0x61626364, 0x62636465, 0x6a6b6c6d, 0x80000000, 0xeb8012ad);
    Expand(FIRST, w, 17, 0x62636465, 0x63646566, 0x6b6c6d6e, 0x00000000, 0xa7c3ae92);
    Expand(FIRST, w, 18, 0x63646566, 0x64656667, 0x6c6d6e6f, 0xeb8012ad, 0x76e93ba2);
    Expand(FIRST, w, 19, 0x64656667, 0x65666768, 0x6d6e6f70, 0xa7c3ae92, 0xba42e743);
    Expand(FIRST, w, 20, 0x65666768, 0x66676869, 0x6e6f7071, 0x76e93ba2, 0x92a92204);
    Expand(FIRST, w, 21, 0x66676869, 0x6768696a, 0x80000000, 0xba42e743, 0xd847e75e);
    Expand(FIRST, w, 22, 0x6768696a, 0x68696a6b, 0x00000000, 0x92a92204, 0x9e160036);
    Expand(FIRST, w, 23, 0x68696a6b, 0x696a6b6c, 0xeb8012ad, 0xd847e75e, 0xb280a7cb);
  }

  lemma WordsOne24(w: seq<word>)
    requires |FIRST| == BLOCK && w == Schedule(FIRST, 64)
    requires Words(w, 8, 0x696a6b6c, 0x6a6b6c6d, 0x6b6c6d6e, 0x6c6d6e6f, 0x6d6e6f70, 0x6e6f7071, 0x80000000, 0x00000000)
    requires Words(w, 16, 0xeb8012ad, 0xa7c3ae92, 0x76e93ba2, 0xba42e743, 0x92a92204, 0xd847e75e, 0x9e160036, 0xb280a7cb)
    ensures Words(w, 24, 0xddeb1516, 0xf36586f4, 0x969cd048, 0xe959d99d, 0x6accc0ec, 0xf54cb098, 0x2af1b2da, 0xee59c4c9)
  {
    hide Schedule;
    Expand(FIRST, w, 24, 0x696a6b6c, 0x6a6b6c6d, 0xa7c3ae92, 0x9e160036, 0xddeb1516);
    Expand(FIRST, w, 25, 0x6a6b6c6d, 0x6b6c6d6e, 0x76e93ba2, 0xb280a7cb, 0xf36586f4);
    Expand(FIRST, w, 26, 0x6b6c6d6e, 0x6c6d6e6f, 0xba42e743, 0xddeb1516, 0x969cd048);
    Expand(FIRST, w, 27, 0x6c6d6e6f, 0x6d6e6f70, 0x92a92204, 0xf36586f4, 0xe959d99d);
    Expand(FIRST, w, 28, 0x6d6e6f70, 0x6e6f7071, 0xd847e75e, 0x969cd048, 0x6accc0ec);
    Expand(FIRST, w, 29, 0x6e6f7071, 0x80000000, 0x9e160036, 0xe959d99d, 0xf54cb098);
    Expand(FIRST, w, 30, 0x80000000, 0x00000000, 0xb280a7cb, 0x6accc0ec, 0x2af1b2da);
    Expand(FIRST, w, 31, 0x00000000, 0xeb8012ad, 0xddeb1516, 0xf54cb098, 0xee59c4c9);
  }

  lemma WordsOne32(w: seq<word>)
    requires |FIRST| == BLOCK && w == Schedule(FIRST, 64)
    requires Words(w, 16, 0xeb8012ad, 0xa7c3ae92, 0x76e93ba2, 0xba42e743, 0x92a92204, 0xd847e75e, 0x9e160036, 0xb280a7cb)
    requires Words(w, 24, 0xddeb1516, 0xf36586f4, 0x969cd048, 0xe959d99d, 0x6accc0ec, 0xf54cb098, 0x2af1b2da, 0xee59c4c9)
    ensures Words(w, 32, 0xa835e16a, 0x1dff4429, 0xd6e15959, 0xc397cd6e, 0x6f1801ca, 0x21574205, 0x35ff7a84, 0x9743ee78)
  {
    hide Schedule;
    Expand(FIRST, w, 32, 0xeb8012ad, 0xa7c3ae92, 0xf36586f4, 0x2af1b2da, 0xa835e16a);
    Expand(FIRST, w, 33, 0xa7c3ae92, 0x76e93ba2, 0x969cd048, 0xee59c4c9, 0x1dff4429);
    Expand(FIRST, w, 34, 0x76e93ba2, 0xba42e743, 0xe959d99d, 0xa835e16a, 0xd6e15959);
    Expand(FIRST, w, 35, 0xba42e743, 0x92a92204, 0x6accc0ec, 0x1dff4429, 0xc397cd6e);
    Expand(FIRST, w, 36, 0x92a92204, 0xd847e75e, 0xf54cb098, 0xd6e15959, 0x6f1801ca);
    Expand(FIRST, w, 37, 0xd847e75e, 0x9e160036, 0x2af1b2da, 0xc397cd6e, 0x21574205);
    Expand(FIRST, w, 38, 0x9e160036, 0xb280a7cb, 0xee59c4c9, 0x6f1801ca, 0x35ff7a84);
    Expand(FIRST, w, 39, 0xb280a7cb, 0xddeb1516, 0xa835e16a, 0x21574205, 0x9743ee78);
  }

  lemma WordsOne40(w: seq<word>)
    requires |FIRST| == BLOCK && w == Schedule(FIRST, 64)
    requires Words(w, 24, 0xddeb1516, 0xf36586f4, 0x969cd048, 0xe959d99d, 0x6accc0ec, 0xf54cb098, 0x2af1b2da, 0xee59c4c9)
    requires Words(w, 32, 0xa835e16a, 0x1dff4429, 0xd6e15959, 0xc397cd6e, 0x6f1801ca, 0x21574205, 0x35ff7a84, 0x9743ee78)
    ensures Words(w, 40, 0xe44183e7, 0x0d09f00d, 0x9c89af54, 0x042d5bef, 0x71f134d0, 0x0f94f463, 0x7e49dc63, 0x6f65c997)
  {
    hide Schedule;
    Expand(FIRST, w, 40, 0xddeb1516, 0xf36586f4, 0x1dff4429, 0x35ff7a84, 0xe44183e7);
    Expand(FIRST, w, 41, 0xf36586f4, 0x969cd048, 0xd6e15959, 0x9743ee78, 0x0d09f00d);
    Expand(FIRST, w, 42, 0x969cd048, 0xe959d99d, 0xc397cd6e, 0xe44183e7, 0x9c89af54);
    Expand(FIRST, w, 43, 0xe959d99d, 0x6accc0ec, 0x6f1801ca, 0x0d09f00d, 0x042d5bef);
    Expand(FIRST, w, 44, 0x6accc0ec, 0xf54cb098, 0x21574205, 0x9c89af54, 0x71f134d0);
    Expand(FIRST, w, 45, 0xf54cb098, 0x2af1b2da, 0x35ff7a84, 0x042d5bef, 0x0f94f463);
    Expand(FIRST, w, 46, 0x2af1b2da, 0xee59c4c9, 0x9743ee78, 0x71f134d0, 0x7e49dc63);
    Expand(FIRST, w, 47, 0xee59c4c9, 0xa835e16a, 0xe44183e7, 0x0f94f463, 0x6f65c997);
  }

  lemma WordsOne48(w: seq<word>)
    requires |FIRST| == BLOCK && w == Schedule(FIRST, 64)
    requires Words(w, 32, 0xa835e16a, 0x1dff4429, 0xd6e15959, 0xc397cd6e, 0x6f1801ca, 0x21574205, 0x35ff7a84, 0x9743ee78)
    requires Words(w, 40, 0xe44183e7, 0x0d09f00d, 0x9c89af54, 0x042d5bef, 0x71f134d0, 0x0f94f463, 0x7e49dc63, 0x6f65c997)
    ensures Words(w, 48, 0x0b706583, 0x179312ca, 0x503054e9, 0xba125c39, 0x7e9392c9, 0xd5cbaa1e, 0x78e0585d, 0xf6e7611c)
  {
    hide Schedule;
    Expand(FIRST, w, 48, 0xa835e16a, 0x1dff4429, 0x0d09f00d, 0x7e49dc63, 0x0b706583);
    Expand(FIRST, w, 49, 0x1dff4429, 0xd6e15959, 0x9c89af54, 0x6f65c997, 0x179312ca);
    Expand(FIRST, w, 50, 0xd6e15959, 0xc397cd6e, 0x042d5bef, 0x0b706583, 0x503054e9);
    Expand(FIRST, w, 51, 0xc397cd6e, 0x6f1801ca, 0x71f134d0, 0x179312ca, 0xba125c39);
    Expand(FIRST, w, 52, 0x6f1801ca, 0x21574205, 0x0f94f463, 0x503054e9, 0x7e9392c9);
    Expand(FIRST, w, 53, 0x21574205, 0x35ff7a84, 0x7e49dc63, 0xba125c39, 0xd5cbaa1e);
    Expand(FIRST, w, 54, 0x35ff7a84, 0x9743ee78, 0x6f65c997, 0x7e9392c9, 0x78e0585d);
    Expand(FIRST, w, 55, 0x9743ee78, 0xe44183e7, 0x0b706583, 0xd5cbaa1e, 0xf6e7611c);
  }

  lemma WordsOne56(w: seq<word>)
    requires |FIRST| == BLOCK && w == Schedule(FIRST, 64)
    requires Words(w, 40, 0xe44183e7, 0x0d09f00d, 0x9c89af54, 0x042d5bef, 0x71f134d0, 0x0f94f463, 0x7e49dc63, 0x6f65c997)
    requires Words(w, 48, 0x0b706583, 0x179312ca, 0x503054e9, 0xba125c39, 0x7e9392c9, 0xd5cbaa1e, 0x78e0585d, 0xf6e7611c)
    ensures Words(w, 56, 0x8ac830ce, 0x8b47a303, 0xfd6e627f, 0x8c6e2c6a, 0x4001adf1, 0x1a3dd097, 0xa9df6f62, 0x6aa60a39)
  {
    hide Schedule;
    Expand(FIRST, w, 56, 0xe44183e7, 0x0d09f00d, 0x179312ca, 0x78e0585d, 0x8ac830ce);
    Expand(FIRST, w, 57, 0x0d09f00d, 0x9c89af54, 0x503054e9, 0xf6e7611c, 0x8b47a303);
    Expand(FIRST, w, 58, 0x9c89af54, 0x042d5bef, 0xba125c39, 0x8ac830ce, 0xfd6e627f);
    Expand(FIRST, w, 59, 0x042d5bef, 0x71f134d0, 0x7e9392c9, 0x8b47a303, 0x8c6e2c6a);
    Expand(FIRST, w, 60, 0x71f134d0, 0x0f94f463, 0xd5cbaa1e, 0xfd6e627f, 0x4001adf1);
    Expand(FIRST, w, 61, 0x0f94f463, 0x7e49dc63, 0x78e0585d, 0x8c6e2c6a, 0x1a3dd097);
    Expand(FIRST, w, 62, 0x7e49dc63, 0x6f65c997, 0xf6e7611c, 0x4001adf1, 0xa9df6f62);
    Expand(FIRST, w, 63, 0x6f65c997, 0x0b706583, 0x8ac830ce, 0x1a3dd097, 0x6aa60a39);
  }

  lemma RoundsOne0(v: Vars, w: seq<word>)
    requires |w| == 64 && Rounds(v, w, 0) == Vars(0x6a09e667, 0xbb67ae85, 0x3c6ef372, 0xa54ff53a, 0x510e527f, 0x9b05688c, 0x1f83d9ab, 0x5be0cd19)
    requires Words(w, 0, 0x61626364, 0x62636465, 0x63646566, 0x64656667, 0x65666768, 0x66676869, 0x6768696a, 0x68696a6b)
    requires Words(w, 8, 0x696a6b6c, 0x6a6b6c6d, 0x6b6c6d6e, 0x6c6d6e6f, 0x6d6e6f70, 0x6e6f7071, 0x80000000, 0x00000000)
    ensures Rounds(v, w, 16) == Vars(0xc3486194, 0xdd16cbb3, 0xd68e6457, 0x101a4861, 0x1496a54f, 0x9162aded, 0x9243f8af, 0x839a0fc9)
  {
    hide Rounds, K;
    Keys0();
    Advance(v, w, 0, 0x428a2f98, 0x61626364, 0xfa2a4606, 0x5d6aebb1,
            Vars(0x6a09e667, 0xbb67ae85, 0x3c6ef372, 0xa54ff53a, 0x510e527f, 0x9b05688c, 0x1f83d9ab, 0x5be0cd19));
    Advance(v, w, 1, 0x71374491, 0x62636465, 0x4eb1cfce, 0x2f2d5fcf,
            Vars(0x5d6aebb1, 0x6a09e667, 0xbb67ae85, 0x3c6ef372, 0xfa2a4606, 0x510e527f, 0x9b05688c, 0x1f83d9ab));
    Advance(v, w, 2, 0xb5c0fbcf, 0x63646566, 0x62d5c49e, 0x97651825,
            Vars(0x2f2d5fcf, 0x5d6aebb1, 0x6a09e667, 0xbb67ae85, 0x4eb1cfce, 0xfa2a4606, 0x510e527f, 0x9b05688c));
    Advance(v, w, 3, 0xe9b5dba5, 0x64656667, 0x6494841b, 0x4a8d64d5,
            Vars(0x97651825, 0x2f2d5fcf, 0x5d6aebb1, 0x6a09e667, 0x62d5c49e, 0x4eb1cfce, 0xfa2a4606, 0x510e527f));
    Advance(v, w, 4, 0x3956c25b, 0x65666768, 0x05c4f88a, 0xf921c212,
            Vars(0x4a8d64d5, 0x97651825, 0x2f2d5fcf, 0x5d6aebb1, 0x6494841b, 0x62d5c49e, 0x4eb1cfce, 0xfa2a4606));
    Advance(v, w, 5, 0x59f111f1, 0x66676869, 0x7ff91c94, 0x55c8ef48,
            Vars(0xf921c212, 0x4a8d64d5, 0x97651825, 0x2f2d5fcf, 0x05c4f88a, 0x6494841b, 0x62d5c49e, 0x4eb1cfce));
    Advance(v, w, 6, 0x923f82a4, 0x6768696a, 0x39a5b2ca, 0x485835b7,
            Vars(0x55c8ef48, 0xf921c212, 0x4a8d64d5, 0x97651825, 0x7ff91c94, 0x05c4f88a, 0x6494841b, 0x62d5c49e));
    Advance(v, w, 7, 0xab1c5ed5, 0x68696a6b, 0xa401d211, 0xd237e6db,
            Vars(0x485835b7, 0x55c8ef48, 0xf921c212, 0x4a8d64d5, 0x39a5b2ca, 0x7ff91c94, 0x05c4f88a, 0x6494841b));
    Advance(v, w, 8, 0xd807aa98, 0x696a6b6c, 0xc09ffec4, 0x359f2bce,
            Vars(0xd237e6db, 0x485835b7, 0x55c8ef48, 0xf921c212, 0xa401d211, 0x39a5b2ca, 0x7ff91c94, 0x05c4f88a));
    Advance(v, w, 9, 0x12835b01, 0x6a6b6c6d, 0x9037b3b8, 0x3a474b2b,
            Vars(0x359f2bce, 0xd237e6db, 0x485835b7, 0x55c8ef48, 0xc09ffec4, 0xa401d211, 0x39a5b2ca, 0x7ff91c94));
    Advance(v, w, 10, 0x243185be, 0x6b6c6d6e, 0x443ed29e, 0xb8e2b4cb,
            Vars(0x3a474b2b, 0x359f2bce, 0xd237e6db, 0x485835b7, 0x9037b3b8, 0xc09ffec4, 0xa401d211, 0x39a5b2ca));
    Advance(v, w, 11, 0x550c7dc3, 0x6c6d6e6f, 0xee1c97a8, 0x1762215c,
            Vars(0xb8e2b4cb, 0x3a474b2b, 0x359f2bce, 0xd237e6db, 0x443ed29e, 0x9037b3b8, 0xc09ffec4, 0xa401d211));
    Advance(v, w, 12, 0x72be5d74, 0x6d6e6f70, 0x839a0fc9, 0x101a4861,
            Vars(0x1762215c, 0xb8e2b4cb, 0x3a474b2b, 0x359f2bce, 0xee1c97a8, 0x443ed29e, 0x9037b3b8, 0xc09ffec4));
    Advance(v, w, 13, 0x80deb1fe, 0x6e6f7071, 0x9243f8af, 0xd68e6457,
            Vars(0x101a4861, 0x1762215c, 0xb8e2b4cb, 0x3a474b2b, 0x839a0fc9, 0xee1c97a8, 0x443ed29e, 0x9037b3b8));
    Advance(v, w, 14, 0x9bdc06a7, 0x80000000, 0x9162aded, 0xdd16cbb3,
            Vars(0xd68e6457, 0x101a4861, 0x1762215c, 0xb8e2b4cb, 0x9243f8af, 0x839a0fc9, 0xee1c97a8, 0x443ed29e));
    Advance(v, w, 15, 0xc19bf174, 0x00000000, 0x1496a54f, 0xc3486194,
            Vars(0xdd16cbb3, 0xd68e6457, 0x101a4861, 0x1762215c, 0x9162aded, 0x9243f8af, 0x839a0fc9, 0xee1c97a8));
  }

  lemma RoundsOne16(v: Vars, w: seq<word>)
    requires |w| == 64 && Rounds(v, w, 16) == Vars(0xc3486194, 0xdd16cbb3, 0xd68e6457, 0x101a4861, 0x1496a54f, 0x9162aded, 0x9243f8af, 0x839a0fc9)
    requires Words(w, 16, 0xeb8012ad, 0xa7c3ae92, 0x76e93ba2, 0xba42e743, 0x92a92204, 0xd847e75e, 0x9e160036, 0xb280a7cb)
    requires Words(w, 24, 0xddeb1516, 0xf36586f4, 0x969cd048, 0xe959d99d, 0x6accc0ec, 0xf54cb098, 0x2af1b2da, 0xee59c4c9)
    ensures Rounds(v, w, 32) == Vars(0x5581ab07, 0xeb43f3ed, 0xdf7151a0, 0x74bcf468, 0xdf980085, 0x0635d880, 0x7629c961, 0x72abaecd)
  {
    hide Rounds, K;
    Keys16();
    Advance(v, w, 16, 0xe49b69c1, 0xeb8012ad, 0xd4f64250, 0xb9dcacb1,
            Vars(0xc3486194, 0xdd16cbb3, 0xd68e6457, 0x101a4861, 0x1496a54f, 0x9162aded, 0x9243f8af, 0x839a0fc9));
    Advance(v, w, 17, 0xefbe4786, 0xa7c3ae92, 0x885370b6, 0x046a193e,
            Vars(0xb9dcacb1, 0xc3486194, 0xdd16cbb3, 0xd68e6457, 0xd4f64250, 0x1496a54f, 0x9162aded, 0x9243f8af));
    Advance(v, w, 18, 0x0fc19dc6, 0x76e93ba2, 0x6f433549, 0xf402f058,
            Vars(0x046a193e, 0xb9dcacb1, 0xc3486194, 0xdd16cbb3, 0x885370b6, 0xd4f64250, 0x1496a54f, 0x9162aded));
    Advance(v, w, 19, 0x240ca1cc, 0xba42e743, 0x7c304206, 0x2139187b,
            Vars(0xf402f058, 0x046a193e, 0xb9dcacb1, 0xc3486194, 0x6f433549, 0x885370b6, 0xd4f64250, 0x1496a54f));
    Advance(v, w, 20, 0x2de92c6f, 0x92a92204, 0x7cc6b262, 0xd70ac17d,
            Vars(0x2139187b, 0xf402f058, 0x046a193e, 0xb9dcacb1, 0x7c304206, 0x6f433549, 0x885370b6, 0xd4f64250));
    Advance(v, w, 21, 0x4a7484aa, 0xd847e75e, 0xd560b028, 0x1b2b66b8,
            Vars(0xd70ac17d, 0x2139187b, 0xf402f058, 0x046a193e, 0x7cc6b262, 0x7c304206, 0x6f433549, 0x885370b6));
    Advance(v, w, 22, 0x5cb0a9dc, 0x9e160036, 0xf074fc95, 0xae2e2d4f,
            Vars(0x1b2b66b8, 0xd70ac17d, 0x2139187b, 0xf402f058, 0xd560b028, 0x7cc6b262, 0x7c304206, 0x6f433549));
    Advance(v, w, 23, 0x76f988da, 0xb280a7cb, 0xa2c7d51d, 0x59fce6b9,
            Vars(0xae2e2d4f, 0x1b2b66b8, 0xd70ac17d, 0x2139187b, 0xf074fc95, 0xd560b028, 0x7cc6b262, 0x7c304206));
    Advance(v, w, 24, 0x983e5152, 0xddeb1516, 0x763597fb, 0x4a885065,
            Vars(0x59fce6b9, 0xae2e2d4f, 0x1b2b66b8, 0xd70ac17d, 0xa2c7d51d, 0xf074fc95, 0xd560b028, 0x7cc6b262));
    Advance(v, w, 25, 0xa831c66d, 0xf36586f4, 0x36e74eb4, 0x573221da,
            Vars(0x4a885065, 0x59fce6b9, 0xae2e2d4f, 0x1b2b66b8, 0x763597fb, 0xa2c7d51d, 0xf074fc95, 0xd560b028));
    Advance(v, w, 26, 0xb00327c8, 0x969cd048, 0x1162d575, 0x128661da,
            Vars(0x573221da, 0x4a885065, 0x59fce6b9, 0xae2e2d4f, 0x36e74eb4, 0x763597fb, 0xa2c7d51d, 0xf074fc95));
    Advance(v, w, 27, 0xbf597fc7, 0xe959d99d, 0xe77c797f, 0x73f858af,
            Vars(0x128661da, 0x573221da, 0x4a885065, 0x59fce6b9, 0x1162d575, 0x36e74eb4, 0x763597fb, 0xa2c7d51d));
    Advance(v, w, 28, 0xc6e00bf3, 0x6accc0ec, 0x72abaecd, 0x74bcf468,
            Vars(0x73f858af, 0x128661da, 0x573221da, 0x4a885065, 0xe77c797f, 0x1162d575, 0x36e74eb4, 0x763597fb));
    Advance(v, w, 29, 0xd5a79147, 0xf54cb098, 0x7629c961, 0xdf7151a0,
            Vars(0x74bcf468, 0x73f858af, 0x128661da, 0x573221da, 0x72abaecd, 0xe77c797f, 0x1162d575, 0x36e74eb4));
    Advance(v, w, 30, 0x06ca6351, 0x2af1b2da, 0x0635d880, 0xeb43f3ed,
            Vars(0xdf7151a0, 0x74bcf468, 0x73f858af, 0x128661da, 0x7629c961, 0x72abaecd, 0xe77c797f, 0x1162d575));
    Advance(v, w, 31, 0x14292967, 0xee59c4c9, 0xdf980085, 0x5581ab07,
            Vars(0xeb43f3ed, 0xdf7151a0, 0x74bcf468, 0x73f858af, 0x0635d880, 0x7629c961, 0x72abaecd, 0xe77c797f));
  }

  lemma RoundsOne32(v: Vars, w: seq<word>)
    requires |w| == 64 && Rounds(v, w, 32) == Vars(0x5581ab07, 0xeb43f3ed, 0xdf7151a0, 0x74bcf468, 0xdf980085, 0x0635d880, 0x7629c961, 0x72abaecd)
    requires Words(w, 32, 0xa835e16a, 0x1dff4429, 0xd6e15959, 0xc397cd6e, 0x6f1801ca, 0x21574205, 0x35ff7a84, 0x9743ee78)
    requires Words(w, 40, 0xe44183e7, 0x0d09f00d, 0x9c89af54, 0x042d5bef, 0x71f134d0, 0x0f94f463, 0x7e49dc63, 0x6f65c997)
    ensures Rounds(v, w, 48) == Vars(0x13d82741, 0x165be9cd, 0x18f0d19d, 0xde71e2f2, 0xa7802a4d, 0xa483f080, 0x6b88472c, 0xff61c636)
  {
    hide Rounds, K;
    Keys32();
    Advance(v, w, 32, 0x27b70a85, 0xa835e16a, 0xa94d2af1, 0x9fc905c8,
            Vars(0x5581ab07, 0xeb43f3ed, 0xdf7151a0, 0x74bcf468, 0xdf980085, 0x0635d880, 0x7629c961, 0x72abaecd));
    Advance(v, w, 33, 0x2e1b2138, 0x1dff4429, 0x6ef3b6bd, 0x9ce5a62f,
            Vars(0x9fc905c8, 0x5581ab07, 0xeb43f3ed, 0xdf7151a0, 0xa94d2af1, 0xdf980085, 0x0635d880, 0x7629c961));
    Advance(v, w, 34, 0x4d2c6dfc, 0xd6e15959, 0x2a9e048e, 0x1df8e885,
            Vars(0x9ce5a62f, 0x9fc905c8, 0x5581ab07, 0xeb43f3ed, 0x6ef3b6bd, 0xa94d2af1, 0xdf980085, 0x0635d880));
    Advance(v, w, 35, 0x53380d13, 0xc397cd6e, 0xde2a21d1, 0x0786dce8,
            Vars(0x1df8e885, 0x9ce5a62f, 0x9fc905c8, 0x5581ab07, 0x2a9e048e, 0x6ef3b6bd, 0xa94d2af1, 0xdf980085));
    Advance(v, w, 36, 0x650a7354, 0x6f1801ca, 0xb067c1af, 0x2c55d3a6,
            Vars(0x0786dce8, 0x1df8e885, 0x9ce5a62f, 0x9fc905c8, 0xde2a21d1, 0x2a9e048e, 0x6ef3b6bd, 0xa94d2af1));
    Advance(v, w, 37, 0x766a0abb, 0x21574205, 0xf72bf353, 0xa985b4be,
            Vars(0x2c55d3a6, 0x0786dce8, 0x1df8e885, 0x9ce5a62f, 0xb067c1af, 0xde2a21d1, 0x2a9e048e, 0x6ef3b6bd));
    Advance(v, w, 38, 0x81c2c92e, 0x35ff7a84, 0x68d8d590, 0x91ac9d5d,
            Vars(0xa985b4be, 0x2c55d3a6, 0x0786dce8, 0x1df8e885, 0xf72bf353, 0xb067c1af, 0xde2a21d1, 0x2a9e048e));
    Advance(v, w, 39, 0x92722c85, 0x9743ee78, 0x9f5b9b6d, 0x7e4d30b8,
            Vars(0x91ac9d5d, 0xa985b4be, 0x2c55d3a6, 0x0786dce8, 0x68d8d590, 0xf72bf353, 0xb067c1af, 0xde2a21d1));
    Advance(v, w, 40, 0xa2bfe8a1, 0xe44183e7, 0x423b26c0, 0x7e056794,
            Vars(0x7e4d30b8, 0x91ac9d5d, 0xa985b4be, 0x2c55d3a6, 0x9f5b9b6d, 0x68d8d590, 0xf72bf353, 0xb067c1af));
    Advance(v, w, 41, 0xa81a664b, 0x0d09f00d, 0x45459d97, 0x508a16ab,
            Vars(0x7e056794, 0x7e4d30b8, 0x91ac9d5d, 0xa985b4be, 0x423b26c0, 0x9f5b9b6d, 0x68d8d590, 0xf72bf353));
    Advance(v, w, 42, 0xc24b8b70, 0x9c89af54, 0x80a92a00, 0xb62c7013,
            Vars(0x508a16ab, 0x7e056794, 0x7e4d30b8, 0x91ac9d5d, 0x45459d97, 0x423b26c0, 0x9f5b9b6d, 0x68d8d590));
    Advance(v, w, 43, 0xc76c51a3, 0x042d5bef, 0x41dd3844, 0x167361de,
            Vars(0xb62c7013, 0x508a16ab, 0x7e056794, 0x7e4d30b8, 0x80a92a00, 0x45459d97, 0x423b26c0, 0x9f5b9b6d));
    Advance(v, w, 44, 0xd192e819, 0x71f134d0, 0xff61c636, 0xde71e2f2,
            Vars(0x167361de, 0xb62c7013, 0x508a16ab, 0x7e056794, 0x41dd3844, 0x80a92a00, 0x45459d97, 0x423b26c0));
    Advance(v, w, 45, 0xd6990624, 0x0f94f463, 0x6b88472c, 0x18f0d19d,
            Vars(0xde71e2f2, 0x167361de, 0xb62c7013, 0x508a16ab, 0xff61c636, 0x41dd3844, 0x80a92a00, 0x45459d97));
    Advance(v, w, 46, 0xf40e3585, 0x7e49dc63, 0xa483f080, 0x165be9cd,
            Vars(0x18f0d19d, 0xde71e2f2, 0x167361de, 0xb62c7013, 0x6b88472c, 0xff61c636, 0x41dd3844, 0x80a92a00));
    Advance(v, w, 47, 0x106aa070, 0x6f65c997, 0xa7802a4d, 0x13d82741,
            Vars(0x165be9cd, 0x18f0d19d, 0xde71e2f2, 0x167361de, 0xa483f080, 0x6b88472c, 0xff61c636, 0x41dd3844));
  }

  lemma RoundsOne48(v: Vars, w: seq<word>)
    requires |w| == 64 && Rounds(v, w, 48) == Vars(0x13d82741, 0x165be9cd, 0x18f0d19d, 0xde71e2f2, 0xa7802a4d, 0xa483f080, 0x6b88472c, 0xff61c636)
    requires Words(w, 48, 0x0b706583, 0x179312ca, 0x503054e9, 0xba125c39, 0x7e9392c9, 0xd5cbaa1e, 0x78e0585d, 0xf6e7611c)
    requires Words(w, 56, 0x8ac830ce, 0x8b47a303, 0xfd6e627f, 0x8c6e2c6a, 0x4001adf1, 0x1a3dd097, 0xa9df6f62, 0x6aa60a39)
    ensures Rounds(v, w, 64) == Vars(0x1bdc6f6f, 0x86126910, 0xf6f443f8, 0xbcfce922, 0x25d2430a, 0x2fc08f85, 0xacc75916, 0x962d8621)
  {
    hide Rounds, K;
    Keys48();
    Advance(v, w, 48, 0x19a4c116, 0x0b706583, 0xaeb10b60, 0x017b9d99,
            Vars(0x13d82741, 0x165be9cd, 0x18f0d19d, 0xde71e2f2, 0xa7802a4d, 0xa483f080, 0x6b88472c, 0xff61c636));
    Advance(v, w, 49, 0x1e376c08, 0x179312ca, 0x16f134b6, 0x543c99a1,
            Vars(0x017b9d99, 0x13d82741, 0x165be9cd, 0x18f0d19d, 0xaeb10b60, 0xa7802a4d, 0xa483f080, 0x6b88472c));
    Advance(v, w, 50, 0x2748774c, 0x503054e9, 0x100cf2ea, 0x758ca97a,
            Vars(0x543c99a1, 0x017b9d99, 0x13d82741, 0x165be9cd, 0x16f134b6, 0xaeb10b60, 0xa7802a4d, 0xa483f080));
    Advance(v, w, 51, 0x34b0bcb5, 0xba125c39, 0x5c47eb7b, 0x81c1cde0,
            Vars(0x758ca97a, 0x543c99a1, 0x017b9d99, 0x13d82741, 0x100cf2ea, 0x16f134b6, 0xaeb10b60, 0xa7802a4d));
    Advance(v, w, 52, 0x391c0cb3, 0x7e9392c9, 0x1c806a61, 0xb8d55619,
            Vars(0x81c1cde0, 0x758ca97a, 0x543c99a1, 0x017b9d99, 0x5c47eb7b, 0x100cf2ea, 0x16f134b6, 0xaeb10b60));
    Advance(v, w, 53, 0x4ed8aa4a, 0xd5cbaa1e, 0x3443bed4, 0x1d6de87a,
            Vars(0xb8d55619, 0x81c1cde0, 0x758ca97a, 0x543c99a1, 0x1c806a61, 0x5c47eb7b, 0x100cf2ea, 0x16f134b6));
    Advance(v, w, 54, 0x5b9cca4f, 0x78e0585d, 0x61a41711, 0xf907b313,
            Vars(0x1d6de87a, 0xb8d55619, 0x81c1cde0, 0x758ca97a, 0x3443bed4, 0x1c806a61, 0x5c47eb7b, 0x100cf2ea));
    Advance(v, w, 55, 0x682e6ff3, 0xf6e7611c, 0xeec13548, 0x9e57c4a0,
            Vars(0xf907b313, 0x1d6de87a, 0xb8d55619, 0x81c1cde0, 0x61a41711, 0x3443bed4, 0x1c806a61, 0x5c47eb7b));
    Advance(v, w, 56, 0x748f82ee, 0x8ac830ce, 0x2f6c8c4e, 0x71629856,
            Vars(0x9e57c4a0, 0xf907b313, 0x1d6de87a, 0xb8d55619, 0xeec13548, 0x61a41711, 0x3443bed4, 0x1c806a61));
    Advance(v, w, 57, 0x78a5636f, 0x8b47a303, 0xcb9d3dd0, 0x7c015a2c,
            Vars(0x71629856, 0x9e57c4a0, 0xf907b313, 0x1d6de87a, 0x2f6c8c4e, 0xeec13548, 0x61a41711, 0x3443bed4));
    Advance(v, w, 58, 0x84c87814, 0xfd6e627f, 0x43d8a034, 0x921fccb6,
            Vars(0x7c015a2c, 0x71629856, 0x9e57c4a0, 0xf907b313, 0xcb9d3dd0, 0x2f6c8c4e, 0xeec13548, 0x61a41711));
    Advance(v, w, 59, 0x8cc70208, 0x8c6e2c6a, 0x51e15869, 0xe18f259a,
            Vars(0x921fccb6, 0x7c015a2c, 0x71629856, 0x9e57c4a0, 0x43d8a034, 0xcb9d3dd0, 0x2f6c8c4e, 0xeec13548));
    Advance(v, w, 60, 0x90befffa, 0x4001adf1, 0x962d8621, 0xbcfce922,
            Vars(0xe18f259a, 0x921fccb6, 0x7c015a2c, 0x71629856, 0x51e15869, 0x43d8a034, 0xcb9d3dd0, 0x2f6c8c4e));
    Advance(v, w, 61, 0xa4506ceb, 0x1a3dd097, 0xacc75916, 0xf6f443f8,
            Vars(0xbcfce922, 0xe18f259a, 0x921fccb6, 0x7c015a2c, 0x962d8621, 0x51e15869, 0x43d8a034, 0xcb9d3dd0));
    Advance(v, w, 62, 0xbef9a3f7, 0xa9df6f62, 0x2fc08f85, 0x86126910,
            Vars(0xf6f443f8, 0xbcfce922, 0xe18f259a, 0x921fccb6, 0xacc75916, 0x962d8621, 0x51e15869, 0x43d8a034));
    Advance(v, w, 63, 0xc67178f2, 0x6aa60a39, 0x25d2430a, 0x1bdc6f6f,
            Vars(0x86126910, 0xf6f443f8, 0xbcfce922, 0xe18f259a, 0x2fc08f85, 0xacc75916, 0x962d8621, 0x51e15869));
  }

  lemma WordsTwo16(w: seq<word>)
    requires |SECOND| == BLOCK && w == Schedule(SECOND, 64)
    requires Words(w, 0, 0x00000000, 0x00000000, 0x00000000, 0x00000000, 0x00000000, 0x00000000, 0x00000000, 0x00000000)
    requires Words(w, 8, 0x00000000, 0x00000000, 0x00000000, 0x00000000, 0x00000000, 0x00000000, 0x00000000, 0x000001c0)
    ensures Words(w, 16, 0x00000000, 0x00d80000, 0x00000000, 0x00003677, 0x00000000, 0x1df5600d, 0x000001c0, 0x1c00501c)
  {
    hide Schedule;
    Expand(SECOND, w, 16, 0x00000000, 0x00000000, 0x00000000, 0x00000000, 0x00000000);
    Expand(SECOND, w, 17, 0x00000000, 0x00000000, 0x00000000, 0x000001c0, 0x00d80000);
    Expand(SECOND, w, 18, 0x00000000, 0x00000000, 0x00000000, 0x00000000, 0x00000000);
    Expand(SECOND, w, 19, 0x00000000, 0x00000000, 0x00000000, 0x00d80000, 0x00003677);
    Expand(SECOND, w, 20, 0x00000000, 0x00000000, 0x00000000, 0x00000000, 0x00000000);
    Expand(SECOND, w, 21, 0x00000000, 0x00000000, 0x00000000, 0x00003677, 0x1df5600d);
    Expand(SECOND, w, 22, 0x00000000, 0x00000000, 0x000001c0, 0x00000000, 0x000001c0);
    Expand(SECOND, w, 23, 0x00000000, 0x00000000, 0x00000000, 0x1df5600d, 0x1c00501c);
  }

  lemma WordsTwo24(w: seq<word>)
    requires |SECOND| == BLOCK && w == Schedule(SECOND, 64)
    requires Words(w, 8, 0x00000000, 0x00000000, 0x00000000, 0x00000000, 0x00000000, 0x00000000, 0x00000000, 0x000001c0)
    requires Words(w, 16, 0x00000000, 0x00d80000, 0x00000000, 0x00003677, 0x00000000, 0x1df5600d, 0x000001c0, 0x1c00501c)
    ensures Words(w, 24, 0x01b00000, 0x220a8d94, 0x0000a365, 0x177017e7, 0x63d38035, 0x090ab713, 0x4c7539ca, 0x0f19a8c9)
  {
    hide Schedule;
    Expand(SECOND, w, 24, 0x00000000, 0x00000000, 0x00d80000, 0x000001c0, 0x01b00000);
    Expand(SECOND, w, 25, 0x00000000, 0x00000000, 0x00000000, 0x1c00501c, 0x220a8d94);
    Expand(SECOND, w, 26, 0x00000000, 0x00000000, 0x00003677, 0x01b00000, 0x0000a365);
    Expand(SECOND, w, 27, 0x00000000, 0x00000000, 0x00000000, 0x220a8d94, 0x177017e7);
    Expand(SECOND, w, 28, 0x00000000, 0x00000000, 0x1df5600d, 0x0000a365, 0x63d38035);
    Expand(SECOND, w, 29, 0x00000000, 0x00000000, 0x000001c0, 0x177017e7, 0x090ab713);
    Expand(SECOND, w, 30, 0x00000000, 0x000001c0, 0x1c00501c, 0x63d38035, 0x4c7539ca);
    Expand(SECOND, w, 31, 0x000001c0, 0x00000000, 0x01b00000, 0x090ab713, 0x0f19a8c9);
  }

  lemma WordsTwo32(w: seq<word>)
    requires |SECOND| == BLOCK && w == Schedule(SECOND, 64)
    requires Words(w, 16, 0x00000000, 0x00d80000, 0x00000000, 0x00003677, 0x00000000, 0x1df5600d, 0x000001c0, 0x1c00501c)
    requires Words(w, 24, 0x01b00000, 0x220a8d94, 0x0000a365, 0x177017e7, 0x63d38035, 0x090ab713, 0x4c7539ca, 0x0f19a8c9)
    ensures Words(w, 32, 0x5df4b0c4, 0xe257036a, 0xc97bb6f1, 0xc5b46f4d, 0xf8253c4e, 0xa558d189, 0x78696285, 0xed07117f)
  {
    hide Schedule;
    Expand(SECOND, w, 32, 0x00000000, 0x00d80000, 0x220a8d94, 0x4c7539ca, 0x5df4b0c4);
    Expand(SECOND, w, 33, 0x00d80000, 0x00000000, 0x0000a365, 0x0f19a8c9, 0xe257036a);
    Expand(SECOND, w, 34, 0x00000000, 0x00003677, 0x177017e7, 0x5df4b0c4, 0xc97bb6f1);
    Expand(SECOND, w, 35, 0x00003677, 0x00000000, 0x63d38035, 0xe257036a, 0xc5b46f4d);
    Expand(SECOND, w, 36, 0x00000000, 0x1df5600d, 0x090ab713, 0xc97bb6f1, 0xf8253c4e);
    Expand(SECOND, w, 37, 0x1df5600d, 0x000001c0, 0x4c7539ca, 0xc5b46f4d, 0xa558d189);
    Expand(SECOND, w, 38, 0x000001c0, 0x1c00501c, 0x0f19a8c9, 0xf8253c4e, 0x78696285);
    Expand(SECOND, w, 39, 0x1c00501c, 0x01b00000, 0x5df4b0c4, 0xa558d189, 0xed07117f);
  }

  lemma WordsTwo40(w: seq<word>)
    requires |SECOND| == BLOCK && w == Schedule(SECOND, 64)
    requires Words(w, 24, 0x01b00000, 0x220a8d94, 0x0000a365, 0x177017e7, 0x63d38035, 0x090ab713, 0x4c7539ca, 0x0f19a8c9)
    requires Words(w, 32, 0x5df4b0c4, 0xe257036a, 0xc97bb6f1, 0xc5b46f4d, 0xf8253c4e, 0xa558d189, 0x78696285, 0xed07117f)
    ensures Words(w, 40, 0x107358f6, 0x390ae496, 0x565010a2, 0xc51d7d44, 0x9e74c972, 0x6614b561, 0x30fc129d, 0x9ac684a8)
  {
    hide Schedule;
    Expand(SECOND, w, 40, 0x01b00000, 0x220a8d94, 0xe257036a, 0x78696285, 0x107358f6);
    Expand(SECOND, w, 41, 0x220a8d94, 0x0000a365, 0xc97bb6f1, 0xed07117f, 0x390ae496);
    Expand(SECOND, w, 42, 0x0000a365, 0x177017e7, 0xc5b46f4d, 0x107358f6, 0x565010a2);
    Expand(SECOND, w, 43, 0x177017e7, 0x63d38035, 0xf8253c4e, 0x390ae496, 0xc51d7d44);
    Expand(SECOND, w, 44, 0x63d38035, 0x090ab713, 0xa558d189, 0x565010a2, 0x9e74c972);
    Expand(SECOND, w, 45, 0x090ab713, 0x4c7539ca, 0x78696285, 0xc51d7d44, 0x6614b561);
    Expand(SECOND, w, 46, 0x4c7539ca, 0x0f19a8c9, 0xed07117f, 0x9e74c972, 0x30fc129d);
    Expand(SECOND, w, 47, 0x0f19a8c9, 0x5df4b0c4, 0x107358f6, 0x6614b561, 0x9ac684a8);
  }

  lemma WordsTwo48(w: seq<word>)
    requires |SECOND| == BLOCK && w == Schedule(SECOND, 64)
    requires Words(w, 32, 0x5df4b0c4, 0xe257036a, 0xc97bb6f1, 0xc5b46f4d, 0xf8253c4e, 0xa558d189, 0x78696285, 0xed07117f)
    requires Words(w, 40, 0x107358f6, 0x390ae496, 0x565010a2, 0xc51d7d44, 0x9e74c972, 0x6614b561, 0x30fc129d, 0x9ac684a8)
    ensures Words(w, 48, 0x2b658dbd, 0xe290f793, 0x9eebb24c, 0x9713b5de, 0x41061ab7, 0xe022e23b, 0x0772079e, 0x7de22d9c)
  {
    hide Schedule;
    Expand(SECOND, w, 48, 0x5df4b0c4, 0xe257036a, 0x390ae496, 0x30fc129d, 0x2b658dbd);
    Expand(SECOND, w, 49, 0xe257036a, 0xc97bb6f1, 0x565010a2, 0x9ac684a8, 0xe290f793);
    Expand(SECOND, w, 50, 0xc97bb6f1, 0xc5b46f4d, 0xc51d7d44, 0x2b658dbd, 0x9eebb24c);
    Expand(SECOND, w, 51, 0xc5b46f4d, 0xf8253c4e, 0x9e74c972, 0xe290f793, 0x9713b5de);
    Expand(SECOND, w, 52, 0xf8253c4e, 0xa558d189, 0x6614b561, 0x9eebb24c, 0x41061ab7);
    Expand(SECOND, w, 53, 0xa558d189, 0x78696285, 0x30fc129d, 0x9713b5de, 0xe022e23b);
    Expand(SECOND, w, 54, 0x78696285, 0xed07117f, 0x9ac684a8, 0x41061ab7, 0x0772079e);
    Expand(SECOND, w, 55, 0xed07117f, 0x107358f6, 0x2b658dbd, 0xe022e23b, 0x7de22d9c);
  }

  lemma WordsTwo56(w: seq<word>)
    requires |SECOND| == BLOCK && w == Schedule(SECOND, 64)
    requires Words(w, 40, 0x107358f6, 0x390ae496, 0x565010a2, 0xc51d7d44, 0x9e74c972, 0x6614b561, 0x30fc129d, 0x9ac684a8)
    requires Words(w, 48, 0x2b658dbd, 0xe290f793, 0x9eebb24c, 0x9713b5de, 0x41061ab7, 0xe022e23b, 0x0772079e, 0x7de22d9c)
    ensures Words(w, 56, 0xc8b83778, 0x75a79849, 0xd93dbddb, 0x0a036c9d, 0xcb4f6ac6, 0x823f97e2, 0xea2f2a7a, 0xb9018b52)
  {
    hide Schedule;
    Expand(SECOND, w, 56, 0x107358f6, 0x390ae496, 0xe290f793, 0x0772079e, 0xc8b83778);
    Expand(SECOND, w, 57, 0x390ae496, 0x565010a2, 0x9eebb24c, 0x7de22d9c, 0x75a79849);
    Expand(SECOND, w, 58, 0x565010a2, 0xc51d7d44, 0x9713b5de, 0xc8b83778, 0xd93dbddb);
    Expand(SECOND, w, 59, 0xc51d7d44, 0x9e74c972, 0x41061ab7, 0x75a79849, 0x0a036c9d);
    Expand(SECOND, w, 60, 0x9e74c972, 0x6614b561, 0xe022e23b, 0xd93dbddb, 0xcb4f6ac6);
    Expand(SECOND, w, 61, 0x6614b561, 0x30fc129d, 0x0772079e, 0x0a036c9d, 0x823f97e2);
    Expand(SECOND, w, 62, 0x30fc129d, 0x9ac684a8, 0x7de22d9c, 0xcb4f6ac6, 0xea2f2a7a);
    Expand(SECOND, w, 63, 0x9ac684a8, 0x2b658dbd, 0xc8b83778, 0x823f97e2, 0xb9018b52);
  }

  lemma RoundsTwo0(v: Vars, w: seq<word>)
    requires |w| == 64 && Rounds(v, w, 0) == Vars(0x85e655d6, 0x417a1795, 0x3363376a, 0x624cde5c, 0x76e09589, 0xcac5f811, 0xcc4b32c1, 0xf20e533a)
    requires Words(w, 0, 0x00000000, 0x00000000, 0x00000000, 0x00000000, 0x00000000, 0x00000000, 0x00000000, 0x00000000)
    requires Words(w, 8, 0x00000000, 0x00000000, 0x00000000, 0x00000000, 0x00000000, 0x00000000, 0x00000000, 0x000001c0)
    ensures Rounds(v, w, 16) == Vars(0x16a8cc79, 0x0cea5cbc, 0xd74080fa, 0x35ee996d, 0x0fcb1f6f, 0x60356548, 0x68aa893f, 0x5c24e2a2)
  {
    hide Rounds, K;
    Keys0();
    Advance(v, w, 0, 0x428a2f98, 0x00000000, 0x4670ae6e, 0x7c20c838,
            Vars(0x85e655d6, 0x417a1795, 0x3363376a, 0x624cde5c, 0x76e09589, 0xcac5f811, 0xcc4b32c1, 0xf20e533a));
    Advance(v, w, 1, 0x71374491, 0x00000000, 0x8c51be64, 0x7c3c0f86,
            Vars(0x7c20c838, 0x85e655d6, 0x417a1795, 0x3363376a, 0x4670ae6e, 0x76e09589, 0xcac5f811, 0xcc4b32c1));
    Advance(v, w, 2, 0xb5c0fbcf, 0x00000000, 0xaf71b9ea, 0xfd1eebdc,
            Vars(0x7c3c0f86, 0x7c20c838, 0x85e655d6, 0x417a1795, 0x8c51be64, 0x4670ae6e, 0x76e09589, 0xcac5f811));
    Advance(v, w, 3, 0xe9b5dba5, 0x00000000, 0xe20362ef, 0xf268faa9,
            Vars(0xfd1eebdc, 0x7c3c0f86, 0x7c20c838, 0x85e655d6, 0xaf71b9ea, 0x8c51be64, 0x4670ae6e, 0x76e09589));
    Advance(v, w, 4, 0x3956c25b, 0x00000000, 0x8dff3001, 0x185a5d79,
            Vars(0xf268faa9, 0xfd1eebdc, 0x7c3c0f86, 0x7c20c838, 0xe20362ef, 0xaf71b9ea, 0x8c51be64, 0x4670ae6e));
    Advance(v, w, 5, 0x59f111f1, 0x00000000, 0xfe20cda6, 0x3eeb6c06,
            Vars(0x185a5d79, 0xf268faa9, 0xfd1eebdc, 0x7c3c0f86, 0x8dff3001, 0xe20362ef, 0xaf71b9ea, 0x8c51be64));
    Advance(v, w, 6, 0x923f82a4, 0x00000000, 0x0a34df03, 0x89bba3f1,
            Vars(0x3eeb6c06, 0x185a5d79, 0xf268faa9, 0xfd1eebdc, 0xfe20cda6, 0x8dff3001, 0xe20362ef, 0xaf71b9ea));
    Advance(v, w, 7, 0xab1c5ed5, 0x00000000, 0x059abdd1, 0xbf9a93a0,
            Vars(0x89bba3f1, 0x3eeb6c06, 0x185a5d79, 0xf268faa9, 0x0a34df03, 0xfe20cda6, 0x8dff3001, 0xe20362ef));
    Advance(v, w, 8, 0xd807aa98, 0x00000000, 0xabfa465b, 0x2c096744,
            Vars(0xbf9a93a0, 0x89bba3f1, 0x3eeb6c06, 0x185a5d79, 0x059abdd1, 0x0a34df03, 0xfe20cda6, 0x8dff3001));
    Advance(v, w, 9, 0x12835b01, 0x00000000, 0xaa27ed82, 0x2d964e86,
            Vars(0x2c096744, 0xbf9a93a0, 0x89bba3f1, 0x3eeb6c06, 0xabfa465b, 0x059abdd1, 0x0a34df03, 0xfe20cda6));
    Advance(v, w, 10, 0x243185be, 0x00000000, 0x10e77723, 0x5b35025b,
            Vars(0x2d964e86, 0x2c096744, 0xbf9a93a0, 0x89bba3f1, 0xaa27ed82, 0xabfa465b, 0x059abdd1, 0x0a34df03));
    Advance(v, w, 11, 0x550c7dc3, 0x00000000, 0xe11b4548, 0x5eb4ec40,
            Vars(0x5b35025b, 0x2d964e86, 0x2c096744, 0xbf9a93a0, 0x10e77723, 0xaa27ed82, 0xabfa465b, 0x059abdd1));
    Advance(v, w, 12, 0x72be5d74, 0x00000000, 0x5c24e2a2, 0x35ee996d,
            Vars(0x5eb4ec40, 0x5b35025b, 0x2d964e86, 0x2c096744, 0xe11b4548, 0x10e77723, 0xaa27ed82, 0xabfa465b));
    Advance(v, w, 13, 0x80deb1fe, 0x00000000, 0x68aa893f, 0xd74080fa,
            Vars(0x35ee996d, 0x5eb4ec40, 0x5b35025b, 0x2d964e86, 0x5c24e2a2, 0xe11b4548, 0x10e77723, 0xaa27ed82));
    Advance(v, w, 14, 0x9bdc06a7, 0x00000000, 0x60356548, 0x0cea5cbc,
            Vars(0xd74080fa, 0x35ee996d, 0x5eb4ec40, 0x5b35025b, 0x68aa893f, 0x5c24e2a2, 0xe11b4548, 0x10e77723));
    Advance(v, w, 15, 0xc19bf174, 0x000001c0, 0x0fcb1f6f, 0x16a8cc79,
            Vars(0x0cea5cbc, 0xd74080fa, 0x35ee996d, 0x5eb4ec40, 0x60356548, 0x68aa893f, 0x5c24e2a2, 0xe11b4548));
  }

  lemma RoundsTwo16(v: Vars, w: seq<word>)
    requires |w| == 64 && Rounds(v, w, 16) == Vars(0x16a8cc79, 0x0cea5cbc, 0xd74080fa, 0x35ee996d, 0x0fcb1f6f, 0x60356548, 0x68aa893f, 0x5c24e2a2)
    requires Words(w, 16, 0x00000000, 0x00d80000, 0x00000000, 0x00003677, 0x00000000, 0x1df5600d, 0x000001c0, 0x1c00501c)
    requires Words(w, 24, 0x01b00000, 0x220a8d94, 0x0000a365, 0x177017e7, 0x63d38035, 0x090ab713, 0x4c7539ca, 0x0f19a8c9)
    ensures Rounds(v, w, 32) == Vars(0xb0eab1c5, 0x02ef3a5f, 0x1cfa5eb0, 0xd958b529, 0xf6d93952, 0x5da10665, 0x6c49db9f, 0xc2fa99b1)
  {
    hide Rounds, K;
    Keys16();
    Advance(v, w, 16, 0xe49b69c1, 0x00000000, 0x8b21cdc1, 0xf16f634e,
            Vars(0x16a8cc79, 0x0cea5cbc, 0xd74080fa, 0x35ee996d, 0x0fcb1f6f, 0x60356548, 0x68aa893f, 0x5c24e2a2));
    Advance(v, w, 17, 0xefbe4786, 0x00d80000, 0xca9182d3, 0x23dcb6c2,
            Vars(0xf16f634e, 0x16a8cc79, 0x0cea5cbc, 0xd74080fa, 0x8b21cdc1, 0x0fcb1f6f, 0x60356548, 0x68aa893f));
    Advance(v, w, 18, 0x0fc19dc6, 0x00000000, 0x69bf7b95, 0xdcff40fd,
            Vars(0x23dcb6c2, 0xf16f634e, 0x16a8cc79, 0x0cea5cbc, 0xca9182d3, 0x8b21cdc1, 0x0fcb1f6f, 0x60356548));
    Advance(v, w, 19, 0x240ca1cc, 0x00003677, 0x0dc84bb1, 0x76f1a2bc,
            Vars(0xdcff40fd, 0x23dcb6c2, 0xf16f634e, 0x16a8cc79, 0x69bf7b95, 0xca9182d3, 0x8b21cdc1, 0x0fcb1f6f));
    Advance(v, w, 20, 0x2de92c6f, 0x00000000, 0xcc4769f2, 0x20aad899,
            Vars(0x76f1a2bc, 0xdcff40fd, 0x23dcb6c2, 0xf16f634e, 0x0dc84bb1, 0x69bf7b95, 0xca9182d3, 0x8b21cdc1));
    Advance(v, w, 21, 0x4a7484aa, 0x1df5600d, 0x5bace62d, 0xd44dc81a,
            Vars(0x20aad899, 0x76f1a2bc, 0xdcff40fd, 0x23dcb6c2, 0xcc4769f2, 0x0dc84bb1, 0x69bf7b95, 0xca9182d3));
    Advance(v, w, 22, 0x5cb0a9dc, 0x000001c0, 0x966aa287, 0xf13ae55b,
            Vars(0xd44dc81a, 0x20aad899, 0x76f1a2bc, 0xdcff40fd, 0x5bace62d, 0xcc4769f2, 0x0dc84bb1, 0x69bf7b95));
    Advance(v, w, 23, 0x76f988da, 0x1c00501c, 0xeddbd6ed, 0xa4195b91,
            Vars(0xf13ae55b, 0xd44dc81a, 0x20aad899, 0x76f1a2bc, 0x966aa287, 0x5bace62d, 0xcc4769f2, 0x0dc84bb1));
    Advance(v, w, 24, 0x983e5152, 0x01b00000, 0xa530d939, 0x4984fa79,
            Vars(0xa4195b91, 0xf13ae55b, 0xd44dc81a, 0x20aad899, 0xeddbd6ed, 0x966aa287, 0x5bace62d, 0xcc4769f2));
    Advance(v, w, 25, 0xa831c66d, 0x220a8d94, 0x0b5eeea4, 0xaa6cb982,
            Vars(0x4984fa79, 0xa4195b91, 0xf13ae55b, 0xd44dc81a, 0xa530d939, 0xeddbd6ed, 0x966aa287, 0x5bace62d));
    Advance(v, w, 26, 0xb00327c8, 0x0000a365, 0x09166dda, 0x9450fbbc,
            Vars(0xaa6cb982, 0x4984fa79, 0xa4195b91, 0xf13ae55b, 0x0b5eeea4, 0xa530d939, 0xeddbd6ed, 0x966aa287));
    Advance(v, w, 27, 0xbf597fc7, 0x177017e7, 0x6e495d4b, 0x0d936bab,
            Vars(0x9450fbbc, 0xaa6cb982, 0x4984fa79, 0xa4195b91, 0x09166dda, 0x0b5eeea4, 0xa530d939, 0xeddbd6ed));
    Advance(v, w, 28, 0xc6e00bf3, 0x63d38035, 0xc2fa99b1, 0xd958b529,
            Vars(0x0d936bab, 0x9450fbbc, 0xaa6cb982, 0x4984fa79, 0x6e495d4b, 0x09166dda, 0x0b5eeea4, 0xa530d939));
    Advance(v, w, 29, 0xd5a79147, 0x090ab713, 0x6c49db9f, 0x1cfa5eb0,
            Vars(0xd958b529, 0x0d936bab, 0x9450fbbc, 0xaa6cb982, 0xc2fa99b1, 0x6e495d4b, 0x09166dda, 0x0b5eeea4));
    Advance(v, w, 30, 0x06ca6351, 0x4c7539ca, 0x5da10665, 0x02ef3a5f,
            Vars(0x1cfa5eb0, 0xd958b529, 0x0d936bab, 0x9450fbbc, 0x6c49db9f, 0xc2fa99b1, 0x6e495d4b, 0x09166dda));
    Advance(v, w, 31, 0x14292967, 0x0f19a8c9, 0xf6d93952, 0xb0eab1c5,
            Vars(0x02ef3a5f, 0x1cfa5eb0, 0xd958b529, 0x0d936bab, 0x5da10665, 0x6c49db9f, 0xc2fa99b1, 0x6e495d4b));
  }

  lemma RoundsTwo32(v: Vars, w: seq<word>)
    requires |w| == 64 && Rounds(v, w, 32) == Vars(0xb0eab1c5, 0x02ef3a5f, 0x1cfa5eb0, 0xd958b529, 0xf6d93952, 0x5da10665, 0x6c49db9f, 0xc2fa99b1)
    requires Words(w, 32, 0x5df4b0c4, 0xe257036a, 0xc97bb6f1, 0xc5b46f4d, 0xf8253c4e, 0xa558d189, 0x78696285, 0xed07117f)
    requires Words(w, 40, 0x107358f6, 0x390ae496, 0x565010a2, 0xc51d7d44, 0x9e74c972, 0x6614b561, 0x30fc129d, 0x9ac684a8)
    ensures Rounds(v, w, 48) == Vars(0xd7354d5b, 0x0b3303a7, 0x104a7db4, 0x0f154e11, 0xaad55b6b, 0xbbe1c39a, 0x5348e8f6, 0x6f9517cb)
  {
    hide Rounds, K;
    Keys32();
    Advance(v, w, 32, 0x27b70a85, 0x5df4b0c4, 0x8b99e3a9, 0x0bfba73c,
            Vars(0xb0eab1c5, 0x02ef3a5f, 0x1cfa5eb0, 0xd958b529, 0xf6d93952, 0x5da10665, 0x6c49db9f, 0xc2fa99b1));
    Advance(v, w, 33, 0x2e1b2138, 0xe257036a, 0x905e44ac, 0x4bd1df96,
            Vars(0x0bfba73c, 0xb0eab1c5, 0x02ef3a5f, 0x1cfa5eb0, 0x8b99e3a9, 0xf6d93952, 0x5da10665, 0x6c49db9f));
    Advance(v, w, 34, 0x4d2c6dfc, 0xc97bb6f1, 0x66c3043d, 0x9907f1b6,
            Vars(0x4bd1df96, 0x0bfba73c, 0xb0eab1c5, 0x02ef3a5f, 0x905e44ac, 0x8b99e3a9, 0xf6d93952, 0x5da10665));
    Advance(v, w, 35, 0x53380d13, 0xc5b46f4d, 0x5dc119e6, 0xecde4e0d,
            Vars(0x9907f1b6, 0x4bd1df96, 0x0bfba73c, 0xb0eab1c5, 0x66c3043d, 0x905e44ac, 0x8b99e3a9, 0xf6d93952));
    Advance(v, w, 36, 0x650a7354, 0xf8253c4e, 0xfed4ce1d, 0x2f11c939,
            Vars(0xecde4e0d, 0x9907f1b6, 0x4bd1df96, 0x0bfba73c, 0x5dc119e6, 0x66c3043d, 0x905e44ac, 0x8b99e3a9));
    Advance(v, w, 37, 0x766a0abb, 0xa558d189, 0x32d99008, 0xd949682b,
            Vars(0x2f11c939, 0xecde4e0d, 0x9907f1b6, 0x4bd1df96, 0xfed4ce1d, 0x5dc119e6, 0x66c3043d, 0x905e44ac));
    Advance(v, w, 38, 0x81c2c92e, 0x78696285, 0xc6cce4ff, 0xadca7a96,
            Vars(0xd949682b, 0x2f11c939, 0xecde4e0d, 0x9907f1b6, 0x32d99008, 0xfed4ce1d, 0x5dc119e6, 0x66c3043d));
    Advance(v, w, 39, 0x92722c85, 0xed07117f, 0x0b82c5eb, 0x221b8a5a,
            Vars(0xadca7a96, 0xd949682b, 0x2f11c939, 0xecde4e0d, 0xc6cce4ff, 0x32d99008, 0xfed4ce1d, 0x5dc119e6));
    Advance(v, w, 40, 0xa2bfe8a1, 0x107358f6, 0xe4213ca2, 0x12d97845,
            Vars(0x221b8a5a, 0xadca7a96, 0xd949682b, 0x2f11c939, 0x0b82c5eb, 0xc6cce4ff, 0x32d99008, 0xfed4ce1d));
    Advance(v, w, 41, 0xa81a664b, 0x390ae496, 0xff6759ba, 0x2c794876,
            Vars(0x12d97845, 0x221b8a5a, 0xadca7a96, 0xd949682b, 0xe4213ca2, 0x0b82c5eb, 0xc6cce4ff, 0x32d99008));
    Advance(v, w, 42, 0xc24b8b70, 0x565010a2, 0xe0e3457c, 0x8300fca2,
            Vars(0x2c794876, 0x12d97845, 0x221b8a5a, 0xadca7a96, 0xff6759ba, 0xe4213ca2, 0x0b82c5eb, 0xc6cce4ff));
    Advance(v, w, 43, 0xc76c51a3, 0xc51d7d44, 0xcc48c7f3, 0xf2ad6322,
            Vars(0x8300fca2, 0x2c794876, 0x12d97845, 0x221b8a5a, 0xe0e3457c, 0xff6759ba, 0xe4213ca2, 0x0b82c5eb));
    Advance(v, w, 44, 0xd192e819, 0x9e74c972, 0x6f9517cb, 0x0f154e11,
            Vars(0xf2ad6322, 0x8300fca2, 0x2c794876, 0x12d97845, 0xcc48c7f3, 0xe0e3457c, 0xff6759ba, 0xe4213ca2));
    Advance(v, w, 45, 0xd6990624, 0x6614b561, 0x5348e8f6, 0x104a7db4,
            Vars(0x0f154e11, 0xf2ad6322, 0x8300fca2, 0x2c794876, 0x6f9517cb, 0xcc48c7f3, 0xe0e3457c, 0xff6759ba));
    Advance(v, w, 46, 0xf40e3585, 0x30fc129d, 0xbbe1c39a, 0x0b3303a7,
            Vars(0x104a7db4, 0x0f154e11, 0xf2ad6322, 0x8300fca2, 0x5348e8f6, 0x6f9517cb, 0xcc48c7f3, 0xe0e3457c));
    Advance(v, w, 47, 0x106aa070, 0x9ac684a8, 0xaad55b6b, 0xd7354d5b,
            Vars(0x0b3303a7, 0x104a7db4, 0x0f154e11, 0xf2ad6322, 0xbbe1c39a, 0x5348e8f6, 0x6f9517cb, 0xcc48c7f3));
  }

  lemma RoundsTwo48(v: Vars, w: seq<word>)
    requires |w| == 64 && Rounds(v, w, 48) == Vars(0xd7354d5b, 0x0b3303a7, 0x104a7db4, 0x0f154e11, 0xaad55b6b, 0xbbe1c39a, 0x5348e8f6, 0x6f9517cb)
    requires Words(w, 48, 0x2b658dbd, 0xe290f793, 0x9eebb24c, 0x9713b5de, 0x41061ab7, 0xe022e23b, 0x0772079e, 0x7de22d9c)
    requires Words(w, 56, 0xc8b83778, 0x75a79849, 0xd93dbddb, 0x0a036c9d, 0xcb4f6ac6, 0x823f97e2, 0xea2f2a7a, 0xb9018b52)
    ensures Rounds(v, w, 64) == Vars(0x9ea7148b, 0x908c2123, 0xb25cef29, 0xa9f181dd, 0x2c5c4ed0, 0x9a392956, 0x2aa1bb13, 0x27ccb387)
  {
    hide Rounds, K;
    Keys48();
    Advance(v, w, 48, 0x19a4c116, 0x2b658dbd, 0x68f25260, 0xb736d7a6,
            Vars(0xd7354d5b, 0x0b3303a7, 0x104a7db4, 0x0f154e11, 0xaad55b6b, 0xbbe1c39a, 0x5348e8f6, 0x6f9517cb));
    Advance(v, w, 49, 0x1e376c08, 0xe290f793, 0xd4b58576, 0x2748e5ec,
            Vars(0xb736d7a6, 0xd7354d5b, 0x0b3303a7, 0x104a7db4, 0x68f25260, 0xaad55b6b, 0xbbe1c39a, 0x5348e8f6));
    Advance(v, w, 50, 0x2748774c, 0x9eebb24c, 0x27844711, 0xd8aabcf9,
            Vars(0x2748e5ec, 0xb736d7a6, 0xd7354d5b, 0x0b3303a7, 0xd4b58576, 0x68f25260, 0xaad55b6b, 0xbbe1c39a));
    Advance(v, w, 51, 0x34b0bcb5, 0x9713b5de, 0xff5e99d0, 0x1a6bcf6a,
            Vars(0xd8aabcf9, 0x2748e5ec, 0xb736d7a6, 0xd7354d5b, 0x27844711, 0xd4b58576, 0x68f25260, 0xaad55b6b));
    Advance(v, w, 52, 0x391c0cb3, 0x41061ab7, 0x989ed071, 0x4eca6fa0,
            Vars(0x1a6bcf6a, 0xd8aabcf9, 0x2748e5ec, 0xb736d7a6, 0xff5e99d0, 0x27844711, 0xd4b58576, 0x68f25260));
    Advance(v, w, 53, 0x4ed8aa4a, 0xe022e23b, 0x7151df8e, 0xec02560a,
            Vars(0x4eca6fa0, 0x1a6bcf6a, 0xd8aabcf9, 0x2748e5ec, 0x989ed071, 0xff5e99d0, 0x27844711, 0xd4b58576));
    Advance(v, w, 54, 0x5b9cca4f, 0x0772079e, 0x624150c4, 0xd9f0c115,
            Vars(0xec02560a, 0x4eca6fa0, 0x1a6bcf6a, 0xd8aabcf9, 0x7151df8e, 0x989ed071, 0xff5e99d0, 0x27844711));
    Advance(v, w, 55, 0x682e6ff3, 0x7de22d9c, 0x226806d6, 0x92952710,
            Vars(0xd9f0c115, 0xec02560a, 0x4eca6fa0, 0x1a6bcf6a, 0x624150c4, 0x7151df8e, 0x989ed071, 0xff5e99d0));
    Advance(v, w, 56, 0x748f82ee, 0xc8b83778, 0x4e515a4d, 0x20d4d0e4,
            Vars(0x92952710, 0xd9f0c115, 0xec02560a, 0x4eca6fa0, 0x226806d6, 0x624150c4, 0x7151df8e, 0x989ed071));
    Advance(v, w, 57, 0x78a5636f, 0x75a79849, 0xc21eddf9, 0x4348eb1f,
            Vars(0x20d4d0e4, 0x92952710, 0xd9f0c115, 0xec02560a, 0x4e515a4d, 0x226806d6, 0x624150c4, 0x7151df8e));
    Advance(v, w, 58, 0x84c87814, 0xd93dbddb, 0x54076664, 0x286fe5f0,
            Vars(0x4348eb1f, 0x20d4d0e4, 0x92952710, 0xd9f0c115, 0xc21eddf9, 0x4e515a4d, 0x226806d6, 0x624150c4));
    Advance(v, w, 59, 0x8cc70208, 0x0a036c9d, 0xf487a853, 0x1c4cddd9,
            Vars(0x286fe5f0, 0x4348eb1f, 0x20d4d0e4, 0x92952710, 0x54076664, 0xc21eddf9, 0x4e515a4d, 0x226806d6));
    Advance(v, w, 60, 0x90befffa, 0xcb4f6ac6, 0x27ccb387, 0xa9f181dd,
            Vars(0x1c4cddd9, 0x286fe5f0, 0x4348eb1f, 0x20d4d0e4, 0xf487a853, 0x54076664, 0xc21eddf9, 0x4e515a4d));
    Advance(v, w, 61, 0xa4506ceb, 0x823f97e2, 0x2aa1bb13, 0xb25cef29,
            Vars(0xa9f181dd, 0x1c4cddd9, 0x286fe5f0, 0x4348eb1f, 0x27ccb387, 0xf487a853, 0x54076664, 0xc21eddf9));
    Advance(v, w, 62, 0xbef9a3f7, 0xea2f2a7a, 0x9a392956, 0x908c2123,
            Vars(0xb25cef29, 0xa9f181dd, 0x1c4cddd9, 0x286fe5f0, 0x2aa1bb13, 0x27ccb387, 0xf487a853, 0x54076664));
    Advance(v, w, 63, 0xc67178f2, 0xb9018b52, 0x2c5c4ed0, 0x9ea7148b,
            Vars(0x908c2123, 0xb25cef29, 0xa9f181dd, 0x1c4cddd9, 0x9a392956, 0x2aa1bb13, 0x27ccb387, 0xf487a853));
  }

  lemma StartOne(v: Vars, w: seq<word>)
    requires |w| == 64 && v == VarsOf(IV)
    ensures Rounds(v, w, 0) == Vars(0x6a09e667, 0xbb67ae85, 0x3c6ef372, 0xa54ff53a, 0x510e527f, 0x9b05688c, 0x1f83d9ab, 0x5be0cd19)
  {
  }

  lemma SumOne()
    ensures AddAll(IV, Listed(Vars(0x1bdc6f6f, 0x86126910, 0xf6f443f8, 0xbcfce922, 0x25d2430a, 0x2fc08f85, 0xacc75916, 0x962d8621)))
            == [0x85e655d6, 0x417a1795, 0x3363376a, 0x624cde5c, 0x76e09589, 0xcac5f811, 0xcc4b32c1, 0xf20e533a]
  {
  }

  lemma CompressOne()
    ensures |FIRST| == BLOCK
    ensures Compress(IV, FIRST) ==
            [0x85e655d6, 0x417a1795, 0x3363376a, 0x624cde5c, 0x76e09589, 0xcac5f811, 0xcc4b32c1, 0xf20e533a]
  {
    hide Schedule, Rounds, Words;
    FirstLength();
    var w, v := Schedule(FIRST, 64), VarsOf(IV);
    StartOne(v, w);
    FirstOne(w);
    WordsOne16(w); WordsOne24(w); WordsOne32(w); WordsOne40(w); WordsOne48(w); WordsOne56(w);
    RoundsOne0(v, w);
    RoundsOne16(v, w);
    RoundsOne32(v, w);
    RoundsOne48(v, w);
    SumOne();
  }

  lemma StartTwo(v: Vars, w: seq<word>)
    requires |w| == 64 && v == VarsOf(MIDDLE)
    ensures Rounds(v, w, 0) == Vars(0x85e655d6, 0x417a1795, 0x3363376a, 0x624cde5c, 0x76e09589, 0xcac5f811, 0xcc4b32c1, 0xf20e533a)
  {
  }

  lemma SumTwo()
    ensures AddAll(MIDDLE, Listed(Vars(0x9ea7148b, 0x908c2123, 0xb25cef29, 0xa9f181dd, 0x2c5c4ed0, 0x9a392956, 0x2aa1bb13, 0x27ccb387)))
            == [0x248d6a61, 0xd20638b8, 0xe5c02693, 0x0c3e6039, 0xa33ce459, 0x64ff2167, 0xf6ecedd4, 0x19db06c1]
  {
  }

  lemma CompressTwo()
    ensures |SECOND| == BLOCK
    ensures Compress(MIDDLE, SECOND) ==
            [0x248d6a61, 0xd20638b8, 0xe5c02693, 0x0c3e6039, 0xa33ce459, 0x64ff2167, 0xf6ecedd4, 0x19db06c1]
  {
    hide Schedule, Rounds, Words;
    SecondLength();
    var w, v := Schedule(SECOND, 64), VarsOf(MIDDLE);
    StartTwo(v, w);
    FirstTwo(w);
    WordsTwo16(w); WordsTwo24(w); WordsTwo32(w); WordsTwo40(w); WordsTwo48(w); WordsTwo56(w);
    RoundsTwo0(v, w);
    RoundsTwo16(v, w);
    RoundsTwo32(v, w);
    RoundsTwo48(v, w);
    SumTwo();
  }

  lemma FirstOne(w: seq<word>)
    requires |FIRST| == BLOCK && w == Schedule(FIRST, 64)
    ensures Words(w, 0, 0x61626364, 0x62636465, 0x63646566, 0x64656667, 0x65666768, 0x66676869, 0x6768696a, 0x68696a6b)
    ensures Words(w, 8, 0x696a6b6c, 0x6a6b6c6d, 0x6b6c6d6e, 0x6c6d6e6f, 0x6d6e6f70, 0x6e6f7071, 0x80000000, 0x00000000)
  {
    hide Schedule, WordOf;
    MessageWords();
    Ending();
    forall i | 0 <= i < 16 ensures w[i] == WordOf(FIRST[4 * i], FIRST[4 * i + 1], FIRST[4 * i + 2], FIRST[4 * i + 3]) {
      ScheduleAt(FIRST, i);
    }
    Quarters();
    assert w[0] == WordOf(F0[0], F0[1], F0[2], F0[3]);
    assert w[1] == WordOf(F0[4], F0[5], F0[6], F0[7]);
    assert w[2] == WordOf(F0[8], F0[9], F0[10], F0[11]);
    assert w[3] == WordOf(F0[12], F0[13], F0[14], F0[15]);
    assert w[4] == WordOf(F1[0], F1[1], F1[2], F1[3]);
    assert w[5] == WordOf(F1[4], F1[5], F1[6], F1[7]);
    assert w[6] == WordOf(F1[8], F1[9], F1[10], F1[11]);
    assert w[7] == WordOf(F1[12], F1[13], F1[14], F1[15]);
    assert w[8] == WordOf(F2[0], F2[1], F2[2], F2[3]);
    assert w[9] == WordOf(F2[4], F2[5], F2[6], F2[7]);
    assert w[10] == WordOf(F2[8], F2[9], F2[10], F2[11]);
    assert w[11] == WordOf(F2[12], F2[13], F2[14], F2[15]);
    assert w[12] == WordOf(F3[0], F3[1], F3[2], F3[3]);
    assert w[13] == WordOf(F3[4], F3[5], F3[6], F3[7]);
    assert w[14] == WordOf(F3[8], F3[9], F3[10], F3[11]);
    assert w[15] == WordOf(F3[12], F3[13], F3[14], F3[15]);
  }

  lemma Quarters()
    ensures |FIRST| == BLOCK
    ensures forall i :: 0 <= i < 16 ==> FIRST[i] == F0[i] && FIRST[i + 16] == F1[i] && FIRST[i + 32] == F2[i] && FIRST[i + 48] == F3[i]
  {
  }

  lemma MessageWords()
    ensures WordOf(0x61, 0x62, 0x63, 0x64) == 0x61626364
    ensures WordOf(0x62, 0x63, 0x64, 0x65) == 0x62636465
    ensures WordOf(0x63, 0x64, 0x65, 0x66) == 0x63646566
    ensures WordOf(0x64, 0x65, 0x66, 0x67) == 0x64656667
    ensures WordOf(0x65, 0x66, 0x67, 0x68) == 0x65666768
    ensures WordOf(0x66, 0x67, 0x68, 0x69) == 0x66676869
    ensures WordOf(0x67, 0x68, 0x69, 0x6a) == 0x6768696a
    ensures WordOf(0x68, 0x69, 0x6a, 0x6b) == 0x68696a6b
    ensures WordOf(0x69, 0x6a, 0x6b, 0x6c) == 0x696a6b6c
    ensures WordOf(0x6a, 0x6b, 0x6c, 0x6d) == 0x6a6b6c6d
    ensures WordOf(0x6b, 0x6c, 0x6d, 0x6e) == 0x6b6c6d6e
    ensures WordOf(0x6c, 0x6d, 0x6e, 0x6f) == 0x6c6d6e6f
    ensures WordOf(0x6d, 0x6e, 0x6f, 0x70) == 0x6d6e6f70
    ensures WordOf(0x6e, 0x6f, 0x70, 0x71) == 0x6e6f7071
  {
  }

  lemma Ending()
    ensures WordOf(0x80, 0, 0, 0) == 0x80000000 && WordOf(0, 0, 0, 0) == 0 && WordOf(0, 0, 0x01, 0xc0) == 0x000001c0
  {
  }

  lemma FirstTwo(w: seq<word>)
    requires |SECOND| == BLOCK && w == Schedule(SECOND, 64)
    ensures Words(w, 0, 0x00000000, 0x00000000, 0x00000000, 0x00000000, 0x00000000, 0x00000000, 0x00000000, 0x00000000)
    ensures Words(w, 8, 0x00000000, 0x00000000, 0x00000000, 0x00000000, 0x00000000, 0x00000000, 0x00000000, 0x000001c0)
  {
    hide Schedule, WordOf;
    Ending();
    assert forall i :: 0 <= i < 62 ==> SECOND[i] == 0;
    forall i | 0 <= i < 16 ensures w[i] == if i == 15 then 0x000001c0 else 0 { ScheduleAt(SECOND, i); }
  }

  lemma LengthOfMessage()
    ensures BigEndian(448, 8) == [0, 0, 0, 0, 0, 0, 1, 192]
  {
    assert BigEndian(0, 1) == [0];
    assert BigEndian(0, 2) == [0, 0];
    assert BigEndian(0, 3) == [0, 0, 0];
    assert BigEndian(0, 4) == [0, 0, 0, 0];
    assert BigEndian(0, 5) == [0, 0, 0, 0, 0];
    assert BigEndian(0, 6) == [0, 0, 0, 0, 0, 0];
    assert BigEndian(1, 7) == [0, 0, 0, 0, 0, 0, 1];
  }

  lemma BlocksOfMessage()
    ensures Pad(MESSAGE) == FIRST + SECOND
  {
    hide BigEndian;
    LengthOfMessage();
    MessageLength();
    assert ZeroBytes(56) == 63;
    LastQuarter();
    hide F0, F1, F2, F3, LAST;
    assert Zeros(63) == Zeros(7) + Zeros(56);
    assert FIRST == MESSAGE + [0x80] + Zeros(7);
    assert SECOND == Zeros(56) + [0, 0, 0, 0, 0, 0, 1, 192];
  }

  lemma MessageLength()
    ensures |MESSAGE| == 56
  {
  }

  lemma LastQuarter()
    ensures F3 == LAST + [0x80] + Zeros(7)
  {
  }

  lemma HashOfTwo()
    ensures Hash(MESSAGE) == [0x248d6a61, 0xd20638b8, 0xe5c02693, 0x0c3e6039, 0xa33ce459, 0x64ff2167, 0xf6ecedd4, 0x19db06c1]
  {
    hide Compress, Pad, Zeros;
    BlocksOfMessage();
    CompressOne();
    CompressTwo();
    var p := FIRST + SECOND;
    assert p[0..BLOCK] == FIRST && p[BLOCK..2 * BLOCK] == SECOND;
    assert Chain(p, 1) == Compress(Chain(p, 0), p[0..BLOCK]);
    assert Chain(p, 2) == Compress(Chain(p, 1), p[BLOCK..2 * BLOCK]);
  }


  lemma HighTwo()
    ensures HexWord(0x248d6a61, 8) == "248d6a61"
    ensures HexWord(0xd20638b8, 8) == "d20638b8"
    ensures HexWord(0xe5c02693, 8) == "e5c02693"
    ensures HexWord(0x0c3e6039, 8) == "0c3e6039"
  {
    EightDigits(0x248d6a61, '2', '4', '8', 'd', '6', 'a', '6', '1');
    EightDigits(0xd20638b8, 'd', '2', '0', '6', '3', '8', 'b', '8');
    EightDigits(0xe5c02693, 'e', '5', 'c', '0', '2', '6', '9', '3');
    EightDigits(0x0c3e6039, '0', 'c', '3', 'e', '6', '0', '3', '9');
  }

  lemma LowTwo()
    ensures HexWord(0xa33ce459, 8) == "a33ce459"
    ensures HexWord(0x64ff2167, 8) == "64ff2167"
    ensures HexWord(0xf6ecedd4, 8) == "f6ecedd4"
    ensures HexWord(0x19db06c1, 8) == "19db06c1"
  {
    EightDigits(0xa33ce459, 'a', '3', '3', 'c', 'e', '4', '5', '9');
    EightDigits(0x64ff2167, '6', '4', 'f', 'f', '2', '1', '6', '7');
    EightDigits(0xf6ecedd4, 'f', '6', 'e', 'c', 'e', 'd', 'd', '4');
    EightDigits(0x19db06c1, '1', '9', 'd', 'b', '0', '6', 'c', '1');
  }

  /** The digest of a message whose padding needs a second block is the published one. */
  lemma DigestOfTwoBlocks()
    ensures Digest(MESSAGE) == "248d6a61d20638b8e5c026930c3e6039a33ce45964ff2167f6ecedd419db06c1"
  {
    hide Hash, HexWord;
    HashOfTwo();
    HighTwo();
    LowTwo();
    var d := Hash(MESSAGE);
    assert HexOf(d, 1) == "248d6a61";
    assert HexOf(d, 2) == "248d6a61d20638b8";
    assert HexOf(d, 3) == "248d6a61d20638b8e5c02693";
    assert HexOf(d, 4) == "248d6a61d20638b8e5c026930c3e6039";
    assert HexOf(d, 5) == "248d6a61d20638b8e5c026930c3e6039a33ce459";
    assert HexOf(d, 6) == "248d6a61d20638b8e5c026930c3e6039a33ce45964ff2167";
    assert HexOf(d, 7) == "248d6a61d20638b8e5c026930c3e6039a33ce45964ff2167f6ecedd4";
    assert HexOf(d, 8) == "248d6a61d20638b8e5c026930c3e6039a33ce45964ff2167f6ecedd419db06c1";
  }
}
