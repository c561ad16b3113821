/** The first example of the standard, and of the repository's own check: the digest of "abc", computed from the
    definitions in `Sha256`. A slip in any constant, rotation, round or digit would give another text. */
module Sha256Example {
  import opened Sha256

  const ABC: seq<byte> := [0x61, 0x62, 0x63]

  lemma {:induction false} SchedulePrefix(block: seq<byte>, t: nat, u: nat)
    requires |block| == BLOCK && t <= u <= 64
    ensures Schedule(block, t) == Schedule(block, u)[..t]
  {
    hide Plus, Sigma0, Sigma1, WordOf;
    if t < u { SchedulePrefix(block, t, u - 1); }
  }

  lemma ScheduleAt(block: seq<byte>, i: nat)
    requires |block| == BLOCK && i < 64
    ensures var w := Schedule(block, 64);
            w[i] == if i < 16 then WordOf(block[4 * i], block[4 * i + 1], block[4 * i + 2], block[4 * i + 3])
                    else Plus(Plus(Plus(w[i - 16], Sigma0(w[i - 15])), w[i - 7]), Sigma1(w[i - 2]))
  {
    hide Plus, Sigma0, Sigma1, WordOf;
    SchedulePrefix(block, i, 64);
    SchedulePrefix(block, i + 1, 64);
    assert Schedule(block, 64)[i] == Schedule(block, i + 1)[i];
  }

  /** One more word of the schedule. */
  lemma Expand(block: seq<byte>, w: seq<word>, t: nat, a: word, b: word, c: word, d: word, r: word)
    requires |block| == BLOCK && w == Schedule(block, 64) && 16 <= t < 64
    requires w[t - 16] == a && w[t - 15] == b && w[t - 7] == c && w[t - 2] == d
    requires Plus(Plus(Plus(a, Sigma0(b)), c), Sigma1(d)) == r
    ensures w[t] == r
  {
    hide Plus, Sigma0, Sigma1, Schedule;
    ScheduleAt(block, t);
  }

  /** Eight words of the schedule beginning at `t`. */
  ghost predicate Words(w: seq<word>, t: nat, x0: word, x1: word, x2: word, x3: word, x4: word, x5: word, x6: word, x7: word) {
    && t + 8 <= |w| && w[t] == x0 && w[t + 1] == x1 && w[t + 2] == x2 && w[t + 3] == x3
    && w[t + 4] == x4 && w[t + 5] == x5 && w[t + 6] == x6 && w[t + 7] == x7
  }

  /** One more round: only two of the variables are new. */
  lemma Advance(start: Vars, w: seq<word>, t: nat, k: word, x: word, e: word, a: word, v: Vars)
    requires t < 64 && |w| == 64 && |K| == 64 && K[t] == k && w[t] == x && Rounds(start, w, t) == v
    requires var first := Plus(Plus(Plus(Plus(v.h, BigSigma1(v.e)), Ch(v.e, v.f, v.g)), k), x);
             Plus(v.d, first) == e && Plus(Plus(first, BigSigma0(v.a)), Maj(v.a, v.b, v.c)) == a
    ensures Rounds(start, w, t + 1) == Vars(a, v.a, v.b, v.c, e, v.e, v.f, v.g)
  {
    hide Plus, BigSigma0, BigSigma1, Ch, Maj, K;
  }

  lemma EightDigits(w: word, a: char, b: char, c: char, d: char, e: char, f: char, g: char, h: char)
    requires HexDigit(w, 0) == a && HexDigit(w, 1) == b && HexDigit(w, 2) == c && HexDigit(w, 3) == d
    requires HexDigit(w, 4) == e && HexDigit(w, 5) == f && HexDigit(w, 6) == g && HexDigit(w, 7) == h
    ensures HexWord(w, 8) == [a, b, c, d, e, f, g, h]
  {
    hide HexDigit;
    assert HexWord(w, 1) == [a];
    assert HexWord(w, 2) == [a, b];
    assert HexWord(w, 3) == [a, b, c];
    assert HexWord(w, 4) == [a, b, c, d];
    assert HexWord(w, 5) == [a, b, c, d, e];
    assert HexWord(w, 6) == [a, b, c, d, e, f];
    assert HexWord(w, 7) == [a, b, c, d, e, f, g];
  }

  lemma Keys0()
    ensures |K| == 64
    ensures Words(K, 0, 0x428a2f98, 0x71374491, 0xb5c0fbcf, 0xe9b5dba5, 0x3956c25b, 0x59f111f1, 0x923f82a4, 0xab1c5ed5)
    ensures Words(K, 8, 0xd807aa98, 0x12835b01, 0x243185be, 0x550c7dc3, 0x72be5d74, 0x80deb1fe, 0x9bdc06a7, 0xc19bf174)
  {
    KLength();
  }

  lemma Keys16()
    ensures |K| == 64
    ensures Words(K, 16, 0xe49b69c1, 0xefbe4786, 0x0fc19dc6, 0x240ca1cc, 0x2de92c6f, 0x4a7484aa, 0x5cb0a9dc, 0x76f988da)
    ensures Words(K, 24, 0x983e5152, 0xa831c66d, 0xb00327c8, 0xbf597fc7, 0xc6e00bf3, 0xd5a79147, 0x06ca6351, 0x14292967)
  {
    KLength();
  }

  lemma Keys32()
    ensures |K| == 64
    ensures Words(K, 32, 0x27b70a85, 0x2e1b2138, 0x4d2c6dfc, 0x53380d13, 0x650a7354, 0x766a0abb, 0x81c2c92e, 0x92722c85)
    ensures Words(K, 40, 0xa2bfe8a1, 0xa81a664b, 0xc24b8b70, 0xc76c51a3, 0xd192e819, 0xd6990624, 0xf40e3585, 0x106aa070)
  {
    KLength();
  }

  lemma Keys48()
    ensures |K| == 64
    ensures Words(K, 48, 0x19a4c116, 0x1e376c08, 0x2748774c, 0x34b0bcb5, 0x391c0cb3, 0x4ed8aa4a, 0x5b9cca4f, 0x682e6ff3)
    ensures Words(K, 56, 0x748f82ee, 0x78a5636f, 0x84c87814, 0x8cc70208, 0x90befffa, 0xa4506ceb, 0xbef9a3f7, 0xc67178f2)
  {
    KLength();
  }

  lemma WordsAbc16(w: seq<word>)
    requires |PADDED| == BLOCK && w == Schedule(PADDED, 64)
    requires Words(w, 0, 0x61626380, 0x00000000, 0x00000000, 0x00000000, 0x00000000, 0x00000000, 0x00000000, 0x00000000)
    requires Words(w, 8, 0x00000000, 0x00000000, 0x00000000, 0x00000000, 0x00000000, 0x00000000, 0x00000000, 0x00000018)
    ensures Words(w, 16, 0x61626380, 0x000f0000, 0x7da86405, 0x600003c6, 0x3e9d7b78, 0x0183fc00, 0x12dcbfdb, 0xe2e2c38e)
  {
    hide Schedule;
    Expand(PADDED, w, 16, 0x61626380, 0x00000000, 0x00000000, 0x00000000, 0x61626380);
    Expand(PADDED, w, 17, 0x00000000, 0x00000000, 0x00000000, 0x00000018, 0x000f0000);
    Expand(PADDED, w, 18, 0x00000000, 0x00000000, 0x00000000, 0x61626380, 0x7da86405);
    Expand(PADDED, w, 19, 0x00000000, 0x00000000, 0x00000000, 0x000f0000, 0x600003c6);
    Expand(PADDED, w, 20, 0x00000000, 0x00000000, 0x00000000, 0x7da86405, 0x3e9d7b78);
    Expand(PADDED, w, 21, 0x00000000, 0x00000000, 0x00000000, 0x600003c6, 0x0183fc00);
    Expand(PADDED, w, 22, 0x00000000, 0x00000000, 0x00000018, 0x3e9d7b78, 0x12dcbfdb);
    Expand(PADDED, w, 23, 0x00000000, 0x00000000, 0x61626380, 0x0183fc00, 0xe2e2c38e);
  }

  lemma WordsAbc24(w: seq<word>)
    requires |PADDED| == BLOCK && w == Schedule(PADDED, 64)
    requires Words(w, 8, 0x00000000, 0x00000000, 0x00000000, 0x00000000, 0x00000000, 0x00000000, 0x00000000, 0x00000018)
    requires Words(w, 16, 0x61626380, 0x000f0000, 0x7da86405, 0x600003c6, 0x3e9d7b78, 0x0183fc00, 0x12dcbfdb, 0xe2e2c38e)
    ensures Words(w, 24, 0xc8215c1a, 0xb73679a2, 0xe5bc3909, 0x32663c5b, 0x9d209d67, 0xec8726cb, 0x702138a4, 0xd3b7973b)
  {
    hide Schedule;
    Expand(PADDED, w, 24, 0x00000000, 0x00000000, 0x000f0000, 0x12dcbfdb, 0xc8215c1a);
    Expand(PADDED, w, 25, 0x00000000, 0x00000000, 0x7da86405, 0xe2e2c38e, 0xb73679a2);
    Expand(PADDED, w, 26, 0x00000000, 0x00000000, 0x600003c6, 0xc8215c1a, 0xe5bc3909);
    Expand(PADDED, w, 27, 0x00000000, 0x00000000, 0x3e9d7b78, 0xb73679a2, 0x32663c5b);
    Expand(PADDED, w, 28, 0x00000000, 0x00000000, 0x0183fc00, 0xe5bc3909, 0x9d209d67);
    Expand(PADDED, w, 29, 0x00000000, 0x00000000, 0x12dcbfdb, 0x32663c5b, 0xec8726cb);
    Expand(PADDED, w, 30, 0x00000000, 0x00000018, 0xe2e2c38e, 0x9d209d67, 0x702138a4);
    Expand(PADDED, w, 31, 0x00000018, 0x61626380, 0xc8215c1a, 0xec8726cb, 0xd3b7973b);
  }

  lemma WordsAbc32(w: seq<word>)
    requires |PADDED| == BLOCK && w == Schedule(PADDED, 64)
    requires Words(w, 16, 0x61626380, 0x000f0000, 0x7da86405, 0x600003c6, 0x3e9d7b78, 0x0183fc00, 0x12dcbfdb, 0xe2e2c38e)
    requires Words(w, 24, 0xc8215c1a, 0xb73679a2, 0xe5bc3909, 0x32663c5b, 0x9d209d67, 0xec8726cb, 0x702138a4, 0xd3b7973b)
    ensures Words(w, 32, 0x93f5997f, 0x3b68ba73, 0xaff4ffc1, 0xf10a5c62, 0x0a8b3996, 0x72af830a, 0x9409e33e, 0x24641522)
  {
    hide Schedule;
    Expand(PADDED, w, 32, 0x61626380, 0x000f0000, 0xb73679a2, 0x702138a4, 0x93f5997f);
    Expand(PADDED, w, 33, 0x000f0000, 0x7da86405, 0xe5bc3909, 0xd3b7973b, 0x3b68ba73);
    Expand(PADDED, w, 34, 0x7da86405, 0x600003c6, 0x32663c5b, 0x93f5997f, 0xaff4ffc1);
    Expand(PADDED, w, 35, 0x600003c6, 0x3e9d7b78, 0x9d209d67, 0x3b68ba73, 0xf10a5c62);
    Expand(PADDED, w, 36, 0x3e9d7b78, 0x0183fc00, 0xec8726cb, 0xaff4ffc1, 0x0a8b3996);
    Expand(PADDED, w, 37, 0x0183fc00, 0x12dcbfdb, 0x702138a4, 0xf10a5c62, 0x72af830a);
    Expand(PADDED, w, 38, 0x12dcbfdb, 0xe2e2c38e, 0xd3b7973b, 0x0a8b3996, 0x9409e33e);
    Expand(PADDED, w, 39, 0xe2e2c38e, 0xc8215c1a, 0x93f5997f, 0x72af830a, 0x24641522);
  }

  lemma WordsAbc40(w: seq<word>)
    requires |PADDED| == BLOCK && w == Schedule(PADDED, 64)
    requires Words(w, 24, 0xc8215c1a, 0xb73679a2, 0xe5bc3909, 0x32663c5b, 0x9d209d67, 0xec8726cb, 0x702138a4, 0xd3b7973b)
    requires Words(w, 32, 0x93f5997f, 0x3b68ba73, 0xaff4ffc1, 0xf10a5c62, 0x0a8b3996, 0x72af830a, 0x9409e33e, 0x24641522)
    ensures Words(w, 40, 0x9f47bf94, 0xf0a64f5a, 0x3e246a79, 0x27333ba3, 0x0c4763f2, 0x840abf27, 0x7a290d5d, 0x065c43da)
  {
    hide Schedule;
    Expand(PADDED, w, 40, 0xc8215c1a, 0xb73679a2, 0x3b68ba73, 0x9409e33e, 0x9f47bf94);
    Expand(PADDED, w, 41, 0xb73679a2, 0xe5bc3909, 0xaff4ffc1, 0x24641522, 0xf0a64f5a);
    Expand(PADDED, w, 42, 0xe5bc3909, 0x32663c5b, 0xf10a5c62, 0x9f47bf94, 0x3e246a79);
    Expand(PADDED, w, 43, 0x32663c5b, 0x9d209d67, 0x0a8b3996, 0xf0a64f5a, 0x27333ba3);
    Expand(PADDED, w, 44, 0x9d209d67, 0xec8726cb, 0x72af830a, 0x3e246a79, 0x0c4763f2);
    Expand(PADDED, w, 45, 0xec8726cb, 0x702138a4, 0x9409e33e, 0x27333ba3, 0x840abf27);
    Expand(PADDED, w, 46, 0x702138a4, 0xd3b7973b, 0x24641522, 0x0c4763f2, 0x7a290d5d);
    Expand(PADDED, w, 47, 0xd3b7973b, 0x93f5997f, 0x9f47bf94, 0x840abf27, 0x065c43da);
  }

  lemma WordsAbc48(w: seq<word>)
    requires |PADDED| == BLOCK && w == Schedule(PADDED, 64)
    requires Words(w, 32, 0x93f5997f, 0x3b68ba73, 0xaff4ffc1, 0xf10a5c62, 0x0a8b3996, 0x72af830a, 0x9409e33e, 0x24641522)
    requires Words(w, 40, 0x9f47bf94, 0xf0a64f5a, 0x3e246a79, 0x27333ba3, 0x0c4763f2, 0x840abf27, 0x7a290d5d, 0x065c43da)
    ensures Words(w, 48, 0xfb3e89cb, 0xcc7617db, 0xb9e66c34, 0xa9993667, 0x84badedd, 0xc21462bc, 0x1487472c, 0xb20f7a99)
  {
    hide Schedule;
    Expand(PADDED, w, 48, 0x93f5997f, 0x3b68ba73, 0xf0a64f5a, 0x7a290d5d, 0xfb3e89cb);
    Expand(PADDED, w, 49, 0x3b68ba73, 0xaff4ffc1, 0x3e246a79, 0x065c43da, 0xcc7617db);
    Expand(PADDED, w, 50, 0xaff4ffc1, 0xf10a5c62, 0x27333ba3, 0xfb3e89cb, 0xb9e66c34);
    Expand(PADDED, w, 51, 0xf10a5c62, 0x0a8b3996, 0x0c4763f2, 0xcc7617db, 0xa9993667);
    Expand(PADDED, w, 52, 0x0a8b3996, 0x72af830a, 0x840abf27, 0xb9e66c34, 0x84badedd);
    Expand(PADDED, w, 53, 0x72af830a, 0x9409e33e, 0x7a290d5d, 0xa9993667, 0xc21462bc);
    Expand(PADDED, w, 54, 0x9409e33e, 0x24641522, 0x065c43da, 0x84badedd, 0x1487472c);
    Expand(PADDED, w, 55, 0x24641522, 0x9f47bf94, 0xfb3e89cb, 0xc21462bc, 0xb20f7a99);
  }

  lemma WordsAbc56(w: seq<word>)
    requires |PADDED| == BLOCK && w == Schedule(PADDED, 64)
    requires Words(w, 40, 0x9f47bf94, 0xf0a64f5a, 0x3e246a79, 0x27333ba3, 0x0c4763f2, 0x840abf27, 0x7a290d5d, 0x065c43da)
    requires Words(w, 48, 0xfb3e89cb, 0xcc7617db, 0xb9e66c34, 0xa9993667, 0x84badedd, 0xc21462bc, 0x1487472c, 0xb20f7a99)
    ensures Words(w, 56, 0xef57b9cd, 0xebe6b238, 0x9fe3095e, 0x78bc8d4b, 0xa43fcf15, 0x668b2ff8, 0xeeaba2cc, 0x12b1edeb)
  {
    hide Schedule;
    Expand(PADDED, w, 56, 0x9f47bf94, 0xf0a64f5a, 0xcc7617db, 0x1487472c, 0xef57b9cd);
    Expand(PADDED, w, 57, 0xf0a64f5a, 0x3e246a79, 0xb9e66c34, 0xb20f7a99, 0xebe6b238);
    Expand(PADDED, w, 58, 0x3e246a79, 0x27333ba3, 0xa9993667, 0xef57b9cd, 0x9fe3095e);
    Expand(PADDED, w, 59, 0x27333ba3, 0x0c4763f2, 0x84badedd, 0xebe6b238, 0x78bc8d4b);
    Expand(PADDED, w, 60, 0x0c4763f2, 0x840abf27, 0xc21462bc, 0x9fe3095e, 0xa43fcf15);
    Expand(PADDED, w, 61, 0x840abf27, 0x7a290d5d, 0x1487472c, 0x78bc8d4b, 0x668b2ff8);
    Expand(PADDED, w, 62, 0x7a290d5d, 0x065c43da, 0xb20f7a99, 0xa43fcf15, 0xeeaba2cc);
    Expand(PADDED, w, 63, 0x065c43da, 0xfb3e89cb, 0xef57b9cd, 0x668b2ff8, 0x12b1edeb);
  }

  lemma RoundsAbc0(v: Vars, w: seq<word>)
    requires |w| == 64 && Rounds(v, w, 0) == Vars(0x6a09e667, 0xbb67ae85, 0x3c6ef372, 0xa54ff53a, 0x510e527f, 0x9b05688c, 0x1f83d9ab, 0x5be0cd19)
    requires Words(w, 0, 0x61626380, 0x00000000, 0x00000000, 0x00000000, 0x00000000, 0x00000000, 0x00000000, 0x00000000)
    requires Words(w, 8, 0x00000000, 0x00000000, 0x00000000, 0x00000000, 0x00000000, 0x00000000, 0x00000000, 0x00000018)
    ensures Rounds(v, w, 16) == Vars(0xb0fa238e, 0xc0645fde, 0xd932eb16, 0x87912990, 0x07590dcd, 0x0b92f20c, 0x745a48de, 0x1e578218)
  {
    hide Rounds, K;
    Keys0();
    Advance(v, w, 0, 0x428a2f98, 0x61626380, 0xfa2a4622, 0x5d6aebcd,
            Vars(0x6a09e667, 0xbb67ae85, 0x3c6ef372, 0xa54ff53a, 0x510e527f, 0x9b05688c, 0x1f83d9ab, 0x5be0cd19));
    Advance(v, w, 1, 0x71374491, 0x00000000, 0x78ce7989, 0x5a6ad9ad,
            Vars(0x5d6aebcd, 0x6a09e667, 0xbb67ae85, 0x3c6ef372, 0xfa2a4622, 0x510e527f, 0x9b05688c, 0x1f83d9ab));
    Advance(v, w, 2, 0xb5c0fbcf, 0x00000000, 0xf92939eb, 0xc8c347a7,
            Vars(0x5a6ad9ad, 0x5d6aebcd, 0x6a09e667, 0xbb67ae85, 0x78ce7989, 0xfa2a4622, 0x510e527f, 0x9b05688c));
    Advance(v, w, 3, 0xe9b5dba5, 0x00000000, 0x24e00850, 0xd550f666,
            Vars(0xc8c347a7, 0x5a6ad9ad, 0x5d6aebcd, 0x6a09e667, 0xf92939eb, 0x78ce7989, 0xfa2a4622, 0x510e527f));
    Advance(v, w, 4, 0x3956c25b, 0x00000000, 0x43ada245, 0x04409a6a,
            Vars(0xd550f666, 0xc8c347a7, 0x5a6ad9ad, 0x5d6aebcd, 0x24e00850, 0xf92939eb, 0x78ce7989, 0xfa2a4622));
    Advance(v, w, 5, 0x59f111f1, 0x00000000, 0x714260ad, 0x2b4209f5,
            Vars(0x04409a6a, 0xd550f666, 0xc8c347a7, 0x5a6ad9ad, 0x43ada245, 0x24e00850, 0xf92939eb, 0x78ce7989));
    Advance(v, w, 6, 0x923f82a4, 0x00000000, 0x9b27a401, 0xe5030380,
            Vars(0x2b4209f5, 0x04409a6a, 0xd550f666, 0xc8c347a7, 0x714260ad, 0x43ada245, 0x24e00850, 0xf92939eb));
    Advance(v, w, 7, 0xab1c5ed5, 0x00000000, 0x0c657a79, 0x85a07b5f,
            Vars(0xe5030380, 0x2b4209f5, 0x04409a6a, 0xd550f666, 0x9b27a401, 0x714260ad, 0x43ada245, 0x24e00850));
    Advance(v, w, 8, 0xd807aa98, 0x00000000, 0x32ca2d8c, 0x8e04ecb9,
            Vars(0x85a07b5f, 0xe5030380, 0x2b4209f5, 0x04409a6a, 0x0c657a79, 0x9b27a401, 0x714260ad, 0x43ada245));
    Advance(v, w, 9, 0x12835b01, 0x00000000, 0x1cc92596, 0x8c87346b,
            Vars(0x8e04ecb9, 0x85a07b5f, 0xe5030380, 0x2b4209f5, 0x32ca2d8c, 0x0c657a79, 0x9b27a401, 0x714260ad));
    Advance(v, w, 10, 0x243185be, 0x00000000, 0x436b23e8, 0x4798a3f4,
            Vars(0x8c87346b, 0x8e04ecb9, 0x85a07b5f, 0xe5030380, 0x1cc92596, 0x32ca2d8c, 0x0c657a79, 0x9b27a401));
    Advance(v, w, 11, 0x550c7dc3, 0x00000000, 0x816fd6e9, 0xf71fc5a9,
            Vars(0x4798a3f4, 0x8c87346b, 0x8e04ecb9, 0x85a07b5f, 0x436b23e8, 0x1cc92596, 0x32ca2d8c, 0x0c657a79));
    Advance(v, w, 12, 0x72be5d74, 0x00000000, 0x1e578218, 0x87912990,
            Vars(0xf71fc5a9, 0x4798a3f4, 0x8c87346b, 0x8e04ecb9, 0x816fd6e9, 0x436b23e8, 0x1cc92596, 0x32ca2d8c));
    Advance(v, w, 13, 0x80deb1fe, 0x00000000, 0x745a48de, 0xd932eb16,
            Vars(0x87912990, 0xf71fc5a9, 0x4798a3f4, 0x8c87346b, 0x1e578218, 0x816fd6e9, 0x436b23e8, 0x1cc92596));
    Advance(v, w, 14, 0x9bdc06a7, 0x00000000, 0x0b92f20c, 0xc0645fde,
            Vars(0xd932eb16, 0x87912990, 0xf71fc5a9, 0x4798a3f4, 0x745a48de, 0x1e578218, 0x816fd6e9, 0x436b23e8));
    Advance(v, w, 15, 0xc19bf174, 0x00000018, 0x07590dcd, 0xb0fa238e,
            Vars(0xc0645fde, 0xd932eb16, 0x87912990, 0xf71fc5a9, 0x0b92f20c, 0x745a48de, 0x1e578218, 0x816fd6e9));
  }

  lemma RoundsAbc16(v: Vars, w: seq<word>)
    requires |w| == 64 && Rounds(v, w, 16) == Vars(0xb0fa238e, 0xc0645fde, 0xd932eb16, 0x87912990, 0x07590dcd, 0x0b92f20c, 0x745a48de, 0x1e578218)
    requires Words(w, 16, 0x61626380, 0x000f0000, 0x7da86405, 0x600003c6, 0x3e9d7b78, 0x0183fc00, 0x12dcbfdb, 0xe2e2c38e)
    requires Words(w, 24, 0xc8215c1a, 0xb73679a2, 0xe5bc3909, 0x32663c5b, 0x9d209d67, 0xec8726cb, 0x702138a4, 0xd3b7973b)
    ensures Rounds(v, w, 32) == Vars(0x73b33bf5, 0xea992a22, 0xa0060b30, 0x363482c9, 0xba591112, 0x0109ab3a, 0xade79437, 0x6112a3b7)
  {
    hide Rounds, K;
    Keys16();
    Advance(v, w, 16, 0xe49b69c1, 0x61626380, 0x8034229c, 0x21da9a9b,
            Vars(0xb0fa238e, 0xc0645fde, 0xd932eb16, 0x87912990, 0x07590dcd, 0x0b92f20c, 0x745a48de, 0x1e578218));
    Advance(v, w, 17, 0xefbe4786, 0x000f0000, 0x846ee454, 0xc2fbd9d1,
            Vars(0x21da9a9b, 0xb0fa238e, 0xc0645fde, 0xd932eb16, 0x8034229c, 0x07590dcd, 0x0b92f20c, 0x745a48de));
    Advance(v, w, 18, 0x0fc19dc6, 0x7da86405, 0xcc899961, 0xfe777bbf,
            Vars(0xc2fbd9d1, 0x21da9a9b, 0xb0fa238e, 0xc0645fde, 0x846ee454, 0x8034229c, 0x07590dcd, 0x0b92f20c));
    Advance(v, w, 19, 0x240ca1cc, 0x600003c6, 0xb0638179, 0xe1f20c33,
            Vars(0xfe777bbf, 0xc2fbd9d1, 0x21da9a9b, 0xb0fa238e, 0xcc899961, 0x846ee454, 0x8034229c, 0x07590dcd));
    Advance(v, w, 20, 0x2de92c6f, 0x3e9d7b78, 0x8ada8930, 0x9dc68b63,
            Vars(0xe1f20c33, 0xfe777bbf, 0xc2fbd9d1, 0x21da9a9b, 0xb0638179, 0xcc899961, 0x846ee454, 0x8034229c));
    Advance(v, w, 21, 0x4a7484aa, 0x0183fc00, 0xe1257970, 0xc2606d6d,
            Vars(0x9dc68b63, 0xe1f20c33, 0xfe777bbf, 0xc2fbd9d1, 0x8ada8930, 0xb0638179, 0xcc899961, 0x846ee454));
    Advance(v, w, 22, 0x5cb0a9dc, 0x12dcbfdb, 0x49f5114a, 0xa7a3623f,
            Vars(0xc2606d6d, 0x9dc68b63, 0xe1f20c33, 0xfe777bbf, 0xe1257970, 0x8ada8930, 0xb0638179, 0xcc899961));
    Advance(v, w, 23, 0x76f988da, 0xe2e2c38e, 0xaa47c347, 0xc5d53d8d,
            Vars(0xa7a3623f, 0xc2606d6d, 0x9dc68b63, 0xe1f20c33, 0x49f5114a, 0xe1257970, 0x8ada8930, 0xb0638179));
    Advance(v, w, 24, 0x983e5152, 0xc8215c1a, 0x2823ef91, 0x1c2c2838,
            Vars(0xc5d53d8d, 0xa7a3623f, 0xc2606d6d, 0x9dc68b63, 0xaa47c347, 0x49f5114a, 0xe1257970, 0x8ada8930));
    Advance(v, w, 25, 0xa831c66d, 0xb73679a2, 0x14383d8e, 0xcde8037d,
            Vars(0x1c2c2838, 0xc5d53d8d, 0xa7a3623f, 0xc2606d6d, 0x2823ef91, 0xaa47c347, 0x49f5114a, 0xe1257970));
    Advance(v, w, 26, 0xb00327c8, 0xe5bc3909, 0xc74c6516, 0xb62ec4bc,
            Vars(0xcde8037d, 0x1c2c2838, 0xc5d53d8d, 0xa7a3623f, 0x14383d8e, 0x2823ef91, 0xaa47c347, 0x49f5114a));
    Advance(v, w, 27, 0xbf597fc7, 0x32663c5b, 0xedffbff8, 0x77d37528,
            Vars(0xb62ec4bc, 0xcde8037d, 0x1c2c2838, 0xc5d53d8d, 0xc74c6516, 0x14383d8e, 0x2823ef91, 0xaa47c347));
    Advance(v, w, 28, 0xc6e00bf3, 0x9d209d67, 0x6112a3b7, 0x363482c9,
            Vars(0x77d37528, 0xb62ec4bc, 0xcde8037d, 0x1c2c2838, 0xedffbff8, 0xc74c6516, 0x14383d8e, 0x2823ef91));
    Advance(v, w, 29, 0xd5a79147, 0xec8726cb, 0xade79437, 0xa0060b30,
            Vars(0x363482c9, 0x77d37528, 0xb62ec4bc, 0xcde8037d, 0x6112a3b7, 0xedffbff8, 0xc74c6516, 0x14383d8e));
    Advance(v, w, 30, 0x06ca6351, 0x702138a4, 0x0109ab3a, 0xea992a22,
            Vars(0xa0060b30, 0x363482c9, 0x77d37528, 0xb62ec4bc, 0xade79437, 0x6112a3b7, 0xedffbff8, 0xc74c6516));
    Advance(v, w, 31, 0x14292967, 0xd3b7973b, 0xba591112, 0x73b33bf5,
            Vars(0xea992a22, 0xa0060b30, 0x363482c9, 0x77d37528, 0x0109ab3a, 0xade79437, 0x6112a3b7, 0xedffbff8));
  }

  lemma RoundsAbc32(v: Vars, w: seq<word>)
    requires |w| == 64 && Rounds(v, w, 32) == Vars(0x73b33bf5, 0xea992a22, 0xa0060b30, 0x363482c9, 0xba591112, 0x0109ab3a, 0xade79437, 0x6112a3b7)
    requires Words(w, 32, 0x93f5997f, 0x3b68ba73, 0xaff4ffc1, 0xf10a5c62, 0x0a8b3996, 0x72af830a, 0x9409e33e, 0x24641522)
    requires Words(w, 40, 0x9f47bf94, 0xf0a64f5a, 0x3e246a79, 0x27333ba3, 0x0c4763f2, 0x840abf27, 0x7a290d5d, 0x065c43da)
    ensures Rounds(v, w, 48) == Vars(0x4172328d, 0xa14c14b0, 0x72ab4b91, 0x26628815, 0xfecf0bc6, 0xd57b94a9, 0xb7755da1, 0xa80f11f0)
  {
    hide Rounds, K;
    Keys32();
    Advance(v, w, 32, 0x27b70a85, 0x93f5997f, 0x9cd9f5f6, 0x98e12507,
            Vars(0x73b33bf5, 0xea992a22, 0xa0060b30, 0x363482c9, 0xba591112, 0x0109ab3a, 0xade79437, 0x6112a3b7));
    Advance(v, w, 33, 0x2e1b2138, 0x3b68ba73, 0x59249dd3, 0xfe604df5,
            Vars(0x98e12507, 0x73b33bf5, 0xea992a22, 0xa0060b30, 0x9cd9f5f6, 0xba591112, 0x0109ab3a, 0xade79437));
    Advance(v, w, 34, 0x4d2c6dfc, 0xaff4ffc1, 0x085f3833, 0xa9a7738c,
            Vars(0xfe604df5, 0x98e12507, 0x73b33bf5, 0xea992a22, 0x59249dd3, 0x9cd9f5f6, 0xba591112, 0x0109ab3a));
    Advance(v, w, 35, 0x53380d13, 0xf10a5c62, 0xf4b002d6, 0x65a0cfe4,
            Vars(0xa9a7738c, 0xfe604df5, 0x98e12507, 0x73b33bf5, 0x085f3833, 0x59249dd3, 0x9cd9f5f6, 0xba591112));
    Advance(v, w, 36, 0x650a7354, 0x0a8b3996, 0x0772a26b, 0x41a65cb1,
            Vars(0x65a0cfe4, 0xa9a7738c, 0xfe604df5, 0x98e12507, 0xf4b002d6, 0x085f3833, 0x59249dd3, 0x9cd9f5f6));
    Advance(v, w, 37, 0x766a0abb, 0x72af830a, 0xa507a53d, 0x34df1604,
            Vars(0x41a65cb1, 0x65a0cfe4, 0xa9a7738c, 0xfe604df5, 0x0772a26b, 0xf4b002d6, 0x085f3833, 0x59249dd3));
    Advance(v, w, 38, 0x81c2c92e, 0x9409e33e, 0xf0781bc8, 0x6dc57a8a,
            Vars(0x34df1604, 0x41a65cb1, 0x65a0cfe4, 0xa9a7738c, 0xa507a53d, 0x0772a26b, 0xf4b002d6, 0x085f3833));
    Advance(v, w, 39, 0x92722c85, 0x24641522, 0x1efbc0a0, 0x79ea687a,
            Vars(0x6dc57a8a, 0x34df1604, 0x41a65cb1, 0x65a0cfe4, 0xf0781bc8, 0xa507a53d, 0x0772a26b, 0xf4b002d6));
    Advance(v, w, 40, 0xa2bfe8a1, 0x9f47bf94, 0x26352d63, 0xd6670766,
            Vars(0x79ea687a, 0x6dc57a8a, 0x34df1604, 0x41a65cb1, 0x1efbc0a0, 0xf0781bc8, 0xa507a53d, 0x0772a26b));
    Advance(v, w, 41, 0xa81a664b, 0xf0a64f5a, 0x838b2711, 0xdf46652f,
            Vars(0xd6670766, 0x79ea687a, 0x6dc57a8a, 0x34df1604, 0x26352d63, 0x1efbc0a0, 0xf0781bc8, 0xa507a53d));
    Advance(v, w, 42, 0xc24b8b70, 0x3e246a79, 0xdecd4715, 0x17aa0dfe,
            Vars(0xdf46652f, 0xd6670766, 0x79ea687a, 0x6dc57a8a, 0x838b2711, 0x26352d63, 0x1efbc0a0, 0xf0781bc8));
    Advance(v, w, 43, 0xc76c51a3, 0x27333ba3, 0xfda24c2e, 0x9d4baf93,
            Vars(0x17aa0dfe, 0xdf46652f, 0xd6670766, 0x79ea687a, 0xdecd4715, 0x838b2711, 0x26352d63, 0x1efbc0a0));
    Advance(v, w, 44, 0xd192e819, 0x0c4763f2, 0xa80f11f0, 0x26628815,
            Vars(0x9d4baf93, 0x17aa0dfe, 0xdf46652f, 0xd6670766, 0xfda24c2e, 0xdecd4715, 0x838b2711, 0x26352d63));
    Advance(v, w, 45, 0xd6990624, 0x840abf27, 0xb7755da1, 0x72ab4b91,
            Vars(0x26628815, 0x9d4baf93, 0x17aa0dfe, 0xdf46652f, 0xa80f11f0, 0xfda24c2e, 0xdecd4715, 0x838b2711));
    Advance(v, w, 46, 0xf40e3585, 0x7a290d5d, 0xd57b94a9, 0xa14c14b0,
            Vars(0x72ab4b91, 0x26628815, 0x9d4baf93, 0x17aa0dfe, 0xb7755da1, 0xa80f11f0, 0xfda24c2e, 0xdecd4715));
    Advance(v, w, 47, 0x106aa070, 0x065c43da, 0xfecf0bc6, 0x4172328d,
            Vars(0xa14c14b0, 0x72ab4b91, 0x26628815, 0x9d4baf93, 0xd57b94a9, 0xb7755da1, 0xa80f11f0, 0xfda24c2e));
  }

  lemma RoundsAbc48(v: Vars, w: seq<word>)
    requires |w| == 64 && Rounds(v, w, 48) == Vars(0x4172328d, 0xa14c14b0, 0x72ab4b91, 0x26628815, 0xfecf0bc6, 0xd57b94a9, 0xb7755da1, 0xa80f11f0)
    requires Words(w, 48, 0xfb3e89cb, 0xcc7617db, 0xb9e66c34, 0xa9993667, 0x84badedd, 0xc21462bc, 0x1487472c, 0xb20f7a99)
    requires Words(w, 56, 0xef57b9cd, 0xebe6b238, 0x9fe3095e, 0x78bc8d4b, 0xa43fcf15, 0x668b2ff8, 0xeeaba2cc, 0x12b1edeb)
    ensures Rounds(v, w, 64) == Vars(0x506e3058, 0xd39a2165, 0x04d24d6c, 0xb85e2ce9, 0x5ef50f24, 0xfb121210, 0x948d25b6, 0x961f4894)
  {
    hide Rounds, K;
    Keys48();
    Advance(v, w, 48, 0x19a4c116, 0xfb3e89cb, 0xbd714038, 0x05757ceb,
            Vars(0x4172328d, 0xa14c14b0, 0x72ab4b91, 0x26628815, 0xfecf0bc6, 0xd57b94a9, 0xb7755da1, 0xa80f11f0));
    Advance(v, w, 49, 0x1e376c08, 0xcc7617db, 0x6e5c390c, 0xf11bfaa8,
            Vars(0x05757ceb, 0x4172328d, 0xa14c14b0, 0x72ab4b91, 0xbd714038, 0xfecf0bc6, 0xd57b94a9, 0xb7755da1));
    Advance(v, w, 50, 0x2748774c, 0xb9e66c34, 0x52f1ccf7, 0x7a0508a1,
            Vars(0xf11bfaa8, 0x05757ceb, 0x4172328d, 0xa14c14b0, 0x6e5c390c, 0xbd714038, 0xfecf0bc6, 0xd57b94a9));
    Advance(v, w, 51, 0x34b0bcb5, 0xa9993667, 0x49231c1e, 0x886e7a22,
            Vars(0x7a0508a1, 0xf11bfaa8, 0x05757ceb, 0x4172328d, 0x52f1ccf7, 0x6e5c390c, 0xbd714038, 0xfecf0bc6));
    Advance(v, w, 52, 0x391c0cb3, 0x84badedd, 0x529e7d00, 0x101fd28f,
            Vars(0x886e7a22, 0x7a0508a1, 0xf11bfaa8, 0x05757ceb, 0x49231c1e, 0x52f1ccf7, 0x6e5c390c, 0xbd714038));
    Advance(v, w, 53, 0x4ed8aa4a, 0xc21462bc, 0x9f4787c3, 0xf5702fdb,
            Vars(0x101fd28f, 0x886e7a22, 0x7a0508a1, 0xf11bfaa8, 0x529e7d00, 0x49231c1e, 0x52f1ccf7, 0x6e5c390c));
    Advance(v, w, 54, 0x5b9cca4f, 0x1487472c, 0xe50e1b4f, 0x3ec45cdb,
            Vars(0xf5702fdb, 0x101fd28f, 0x886e7a22, 0x7a0508a1, 0x9f4787c3, 0x529e7d00, 0x49231c1e, 0x52f1ccf7));
    Advance(v, w, 55, 0x682e6ff3, 0xb20f7a99, 0x54cb266b, 0x38cc9913,
            Vars(0x3ec45cdb, 0xf5702fdb, 0x101fd28f, 0x886e7a22, 0xe50e1b4f, 0x9f4787c3, 0x529e7d00, 0x49231c1e));
    Advance(v, w, 56, 0x748f82ee, 0xef57b9cd, 0x9b5e906c, 0xfcd1887b,
            Vars(0x38cc9913, 0x3ec45cdb, 0xf5702fdb, 0x101fd28f, 0x54cb266b, 0xe50e1b4f, 0x9f4787c3, 0x529e7d00));
    Advance(v, w, 57, 0x78a5636f, 0xebe6b238, 0x7e44008e, 0xc062d46f,
            Vars(0xfcd1887b, 0x38cc9913, 0x3ec45cdb, 0xf5702fdb, 0x9b5e906c, 0x54cb266b, 0xe50e1b4f, 0x9f4787c3));
    Advance(v, w, 58, 0x84c87814, 0x9fe3095e, 0x6d83bfc6, 0xffb70472,
            Vars(0xc062d46f, 0xfcd1887b, 0x38cc9913, 0x3ec45cdb, 0x7e44008e, 0x9b5e906c, 0x54cb266b, 0xe50e1b4f));
    Advance(v, w, 59, 0x8cc70208, 0x78bc8d4b, 0xb21bad3d, 0xb6ae8fff,
            Vars(0xffb70472, 0xc062d46f, 0xfcd1887b, 0x38cc9913, 0x6d83bfc6, 0x7e44008e, 0x9b5e906c, 0x54cb266b));
    Advance(v, w, 60, 0x90befffa, 0xa43fcf15, 0x961f4894, 0xb85e2ce9,
            Vars(0xb6ae8fff, 0xffb70472, 0xc062d46f, 0xfcd1887b, 0xb21bad3d, 0x6d83bfc6, 0x7e44008e, 0x9b5e906c));
    Advance(v, w, 61, 0xa4506ceb, 0x668b2ff8, 0x948d25b6, 0x04d24d6c,
            Vars(0xb85e2ce9, 0xb6ae8fff, 0xffb70472, 0xc062d46f, 0x961f4894, 0xb21bad3d, 0x6d83bfc6, 0x7e44008e));
    Advance(v, w, 62, 0xbef9a3f7, 0xeeaba2cc, 0xfb121210, 0xd39a2165,
            Vars(0x04d24d6c, 0xb85e2ce9, 0xb6ae8fff, 0xffb70472, 0x948d25b6, 0x961f4894, 0xb21bad3d, 0x6d83bfc6));
    Advance(v, w, 63, 0xc67178f2, 0x12b1edeb, 0x5ef50f24, 0x506e3058,
            Vars(0xd39a2165, 0x04d24d6c, 0xb85e2ce9, 0xb6ae8fff, 0xfb121210, 0x948d25b6, 0x961f4894, 0xb21bad3d));
  }

  const PADDED: seq<byte> := ABC + [0x80] + Zeros(52) + BigEndian(24, 8)

  lemma LengthOfAbc()
    ensures BigEndian(24, 8) == [0, 0, 0, 0, 0, 0, 0, 24]
  {
    assert BigEndian(0, 1) == [0];
    assert BigEndian(0, 2) == [0, 0];
    assert BigEndian(0, 3) == [0, 0, 0];
    assert BigEndian(0, 4) == [0, 0, 0, 0];
    assert BigEndian(0, 5) == [0, 0, 0, 0, 0];
    assert BigEndian(0, 6) == [0, 0, 0, 0, 0, 0];
    assert BigEndian(0, 7) == [0, 0, 0, 0, 0, 0, 0];
  }

  lemma BlockOfAbc()
    ensures |PADDED| == BLOCK && Pad(ABC) == PADDED
    ensures PADDED[0] == 0x61 && PADDED[1] == 0x62 && PADDED[2] == 0x63 && PADDED[3] == 0x80 && PADDED[63] == 24
    ensures forall i :: 4 <= i < 63 ==> PADDED[i] == 0
  {
    LengthOfAbc();
    assert ZeroBytes(3) == 52;
  }

  lemma FirstAbc(w: seq<word>)
    requires |PADDED| == BLOCK && w == Schedule(PADDED, 64)
    ensures Words(w, 0, 0x61626380, 0x00000000, 0x00000000, 0x00000000, 0x00000000, 0x00000000, 0x00000000, 0x00000000)
    ensures Words(w, 8, 0x00000000, 0x00000000, 0x00000000, 0x00000000, 0x00000000, 0x00000000, 0x00000000, 0x00000018)
  {
    hide Schedule, BigEndian, Zeros, WordOf;
    BlockOfAbc();
    SomeWords();
    forall i | 0 <= i < 16 ensures w[i] == if i == 0 then 0x61626380 else if i == 15 then 24 else 0 { ScheduleAt(PADDED, i); }
  }

  lemma SomeWords()
    ensures WordOf(0x61, 0x62, 0x63, 0x80) == 0x61626380 && WordOf(0, 0, 0, 0) == 0 && WordOf(0, 0, 0, 24) == 24
  {
  }


  lemma StartAbc(v: Vars, w: seq<word>)
    requires |w| == 64 && v == VarsOf(IV)
    ensures Rounds(v, w, 0) == Vars(0x6a09e667, 0xbb67ae85, 0x3c6ef372, 0xa54ff53a, 0x510e527f, 0x9b05688c, 0x1f83d9ab, 0x5be0cd19)
  {
  }

  lemma SumAbc()
    ensures AddAll(IV, Listed(Vars(0x506e3058, 0xd39a2165, 0x04d24d6c, 0xb85e2ce9, 0x5ef50f24, 0xfb121210, 0x948d25b6, 0x961f4894)))
            == [0xba7816bf, 0x8f01cfea, 0x414140de, 0x5dae2223, 0xb00361a3, 0x96177a9c, 0xb410ff61, 0xf20015ad]
  {
  }

  lemma CompressAbc()
    ensures |PADDED| == BLOCK
    ensures Compress(IV, PADDED) ==
            [0xba7816bf, 0x8f01cfea, 0x414140de, 0x5dae2223, 0xb00361a3, 0x96177a9c, 0xb410ff61, 0xf20015ad]
  {
    hide Schedule, Rounds, Words;
    BlockOfAbc();
    var w, v := Schedule(PADDED, 64), VarsOf(IV);
    StartAbc(v, w);
    FirstAbc(w);
    WordsAbc16(w); WordsAbc24(w); WordsAbc32(w); WordsAbc40(w); WordsAbc48(w); WordsAbc56(w);
    RoundsAbc0(v, w);
    RoundsAbc16(v, w);
    RoundsAbc32(v, w);
    RoundsAbc48(v, w);
    SumAbc();
  }

  lemma HashOfAbc()
    ensures Hash(ABC) == [0xba7816bf, 0x8f01cfea, 0x414140de, 0x5dae2223, 0xb00361a3, 0x96177a9c, 0xb410ff61, 0xf20015ad]
  {
    hide Compress, BigEndian, Zeros;
    BlockOfAbc();
    CompressAbc();
    assert PADDED[0..BLOCK] == PADDED;
    assert Chain(PADDED, 1) == Compress(Chain(PADDED, 0), PADDED[0..BLOCK]);
  }

  lemma HighAbc()
    ensures HexWord(0xba7816bf, 8) == "ba7816bf"
    ensures HexWord(0x8f01cfea, 8) == "8f01cfea"
    ensures HexWord(0x414140de, 8) == "414140de"
    ensures HexWord(0x5dae2223, 8) == "5dae2223"
  {
    EightDigits(0xba7816bf, 'b', 'a', '7', '8', '1', '6', 'b', 'f');
    EightDigits(0x8f01cfea, '8', 'f', '0', '1', 'c', 'f', 'e', 'a');
    EightDigits(0x414140de, '4', '1', '4', '1', '4', '0', 'd', 'e');
    EightDigits(0x5dae2223, '5', 'd', 'a', 'e', '2', '2', '2', '3');
  }

  lemma LowAbc()
    ensures HexWord(0xb00361a3, 8) == "b00361a3"
    ensures HexWord(0x96177a9c, 8) == "96177a9c"
    ensures HexWord(0xb410ff61, 8) == "b410ff61"
    ensures HexWord(0xf20015ad, 8) == "f20015ad"
  {
    EightDigits(0xb00361a3, 'b', '0', '0', '3', '6', '1', 'a', '3');
    EightDigits(0x96177a9c, '9', '6', '1', '7', '7', 'a', '9', 'c');
    EightDigits(0xb410ff61, 'b', '4', '1', '0', 'f', 'f', '6', '1');
    EightDigits(0xf20015ad, 'f', '2', '0', '0', '1', '5', 'a', 'd');
  }

  /** The digest of "abc" is the published one. */
  lemma DigestOfAbc()
    ensures Digest(ABC) == "ba7816bf8f01cfea414140de5dae2223b00361a396177a9cb410ff61f20015ad"
  {
    hide Hash, HexWord;
    HashOfAbc();
    HighAbc();
    LowAbc();
    var d := Hash(ABC);
    assert HexOf(d, 1) == "ba7816bf";
    assert HexOf(d, 2) == "ba7816bf8f01cfea";
    assert HexOf(d, 3) == "ba7816bf8f01cfea414140de";
    assert HexOf(d, 4) == "ba7816bf8f01cfea414140de5dae2223";
    assert HexOf(d, 5) == "ba7816bf8f01cfea414140de5dae2223b00361a3";
    assert HexOf(d, 6) == "ba7816bf8f01cfea414140de5dae2223b00361a396177a9c";
    assert HexOf(d, 7) == "ba7816bf8f01cfea414140de5dae2223b00361a396177a9cb410ff61";
    assert HexOf(d, 8) == "ba7816bf8f01cfea414140de5dae2223b00361a396177a9cb410ff61f20015ad";
  }
}
