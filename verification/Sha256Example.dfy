/**
 The first example of SHA-256, the digest of the three bytes "abc", worked out round by round. The
 values on the way are given, and every step from one to the next is proved.
 */
module Sha256Example {
  import opened Compression
  import opened HashFold
  import opened Sha256Constants
  import opened Sha256Words

  // The message schedule

  const WORDS: Words := [0x61626380, 0, 0, 0, 0, 0, 0, 0, 0, 0, 0, 0, 0, 0, 0, 0x18]

  const SCHEDULE: seq<bv32> := WORDS +
    [0x61626380, 0x000f0000, 0x7da86405, 0x600003c6, 0x3e9d7b78, 0x0183fc00, 0x12dcbfdb, 0xe2e2c38e] +
    [0xc8215c1a, 0xb73679a2, 0xe5bc3909, 0x32663c5b, 0x9d209d67, 0xec8726cb, 0x702138a4, 0xd3b7973b] +
    [0x93f5997f, 0x3b68ba73, 0xaff4ffc1, 0xf10a5c62, 0x0a8b3996, 0x72af830a, 0x9409e33e, 0x24641522] +
    [0x9f47bf94, 0xf0a64f5a, 0x3e246a79, 0x27333ba3, 0x0c4763f2, 0x840abf27, 0x7a290d5d, 0x065c43da] +
    [0xfb3e89cb, 0xcc7617db, 0xb9e66c34, 0xa9993667, 0x84badedd, 0xc21462bc, 0x1487472c, 0xb20f7a99] +
    [0xef57b9cd, 0xebe6b238, 0x9fe3095e, 0x78bc8d4b, 0xa43fcf15, 0x668b2ff8, 0xeeaba2cc, 0x12b1edeb]

  function Next(w2: bv32, w7: bv32, w15: bv32, w16: bv32): bv32 {
    Add(Add(Add(SmallSigma1(w2), w7), SmallSigma0(w15)), w16)
  }

  lemma Words16()
    ensures Next(0x00000000, 0x00000000, 0x00000000, 0x61626380) == 0x61626380
    ensures Next(0x00000018, 0x00000000, 0x00000000, 0x00000000) == 0x000f0000
    ensures Next(0x61626380, 0x00000000, 0x00000000, 0x00000000) == 0x7da86405
    ensures Next(0x000f0000, 0x00000000, 0x00000000, 0x00000000) == 0x600003c6
    ensures Next(0x7da86405, 0x00000000, 0x00000000, 0x00000000) == 0x3e9d7b78
    ensures Next(0x600003c6, 0x00000000, 0x00000000, 0x00000000) == 0x0183fc00
    ensures Next(0x3e9d7b78, 0x00000018, 0x00000000, 0x00000000) == 0x12dcbfdb
    ensures Next(0x0183fc00, 0x61626380, 0x00000000, 0x00000000) == 0xe2e2c38e
  {
  }

  lemma Words24()
    ensures Next(0x12dcbfdb, 0x000f0000, 0x00000000, 0x00000000) == 0xc8215c1a
    ensures Next(0xe2e2c38e, 0x7da86405, 0x00000000, 0x00000000) == 0xb73679a2
    ensures Next(0xc8215c1a, 0x600003c6, 0x00000000, 0x00000000) == 0xe5bc3909
    ensures Next(0xb73679a2, 0x3e9d7b78, 0x00000000, 0x00000000) == 0x32663c5b
    ensures Next(0xe5bc3909, 0x0183fc00, 0x00000000, 0x00000000) == 0x9d209d67
    ensures Next(0x32663c5b, 0x12dcbfdb, 0x00000000, 0x00000000) == 0xec8726cb
    ensures Next(0x9d209d67, 0xe2e2c38e, 0x00000018, 0x00000000) == 0x702138a4
    ensures Next(0xec8726cb, 0xc8215c1a, 0x61626380, 0x00000018) == 0xd3b7973b
  {
  }

  lemma Words32()
    ensures Next(0x702138a4, 0xb73679a2, 0x000f0000, 0x61626380) == 0x93f5997f
    ensures Next(0xd3b7973b, 0xe5bc3909, 0x7da86405, 0x000f0000) == 0x3b68ba73
    ensures Next(0x93f5997f, 0x32663c5b, 0x600003c6, 0x7da86405) == 0xaff4ffc1
    ensures Next(0x3b68ba73, 0x9d209d67, 0x3e9d7b78, 0x600003c6) == 0xf10a5c62
    ensures Next(0xaff4ffc1, 0xec8726cb, 0x0183fc00, 0x3e9d7b78) == 0x0a8b3996
    ensures Next(0xf10a5c62, 0x702138a4, 0x12dcbfdb, 0x0183fc00) == 0x72af830a
    ensures Next(0x0a8b3996, 0xd3b7973b, 0xe2e2c38e, 0x12dcbfdb) == 0x9409e33e
    ensures Next(0x72af830a, 0x93f5997f, 0xc8215c1a, 0xe2e2c38e) == 0x24641522
  {
  }

  lemma Words40()
    ensures Next(0x9409e33e, 0x3b68ba73, 0xb73679a2, 0xc8215c1a) == 0x9f47bf94
    ensures Next(0x24641522, 0xaff4ffc1, 0xe5bc3909, 0xb73679a2) == 0xf0a64f5a
    ensures Next(0x9f47bf94, 0xf10a5c62, 0x32663c5b, 0xe5bc3909) == 0x3e246a79
    ensures Next(0xf0a64f5a, 0x0a8b3996, 0x9d209d67, 0x32663c5b) == 0x27333ba3
    ensures Next(0x3e246a79, 0x72af830a, 0xec8726cb, 0x9d209d67) == 0x0c4763f2
    ensures Next(0x27333ba3, 0x9409e33e, 0x702138a4, 0xec8726cb) == 0x840abf27
    ensures Next(0x0c4763f2, 0x24641522, 0xd3b7973b, 0x702138a4) == 0x7a290d5d
    ensures Next(0x840abf27, 0x9f47bf94, 0x93f5997f, 0xd3b7973b) == 0x065c43da
  {
  }

  lemma Words48()
    ensures Next(0x7a290d5d, 0xf0a64f5a, 0x3b68ba73, 0x93f5997f) == 0xfb3e89cb
    ensures Next(0x065c43da, 0x3e246a79, 0xaff4ffc1, 0x3b68ba73) == 0xcc7617db
    ensures Next(0xfb3e89cb, 0x27333ba3, 0xf10a5c62, 0xaff4ffc1) == 0xb9e66c34
    ensures Next(0xcc7617db, 0x0c4763f2, 0x0a8b3996, 0xf10a5c62) == 0xa9993667
    ensures Next(0xb9e66c34, 0x840abf27, 0x72af830a, 0x0a8b3996) == 0x84badedd
    ensures Next(0xa9993667, 0x7a290d5d, 0x9409e33e, 0x72af830a) == 0xc21462bc
    ensures Next(0x84badedd, 0x065c43da, 0x24641522, 0x9409e33e) == 0x1487472c
    ensures Next(0xc21462bc, 0xfb3e89cb, 0x9f47bf94, 0x24641522) == 0xb20f7a99
  {
  }

  lemma Words56()
    ensures Next(0x1487472c, 0xcc7617db, 0xf0a64f5a, 0x9f47bf94) == 0xef57b9cd
    ensures Next(0xb20f7a99, 0xb9e66c34, 0x3e246a79, 0xf0a64f5a) == 0xebe6b238
    ensures Next(0xef57b9cd, 0xa9993667, 0x27333ba3, 0x3e246a79) == 0x9fe3095e
    ensures Next(0xebe6b238, 0x84badedd, 0x0c4763f2, 0x27333ba3) == 0x78bc8d4b
    ensures Next(0x9fe3095e, 0xc21462bc, 0x840abf27, 0x0c4763f2) == 0xa43fcf15
    ensures Next(0x78bc8d4b, 0x1487472c, 0x7a290d5d, 0x840abf27) == 0x668b2ff8
    ensures Next(0xa43fcf15, 0xb20f7a99, 0x065c43da, 0x7a290d5d) == 0xeeaba2cc
    ensures Next(0x668b2ff8, 0xef57b9cd, 0xfb3e89cb, 0x065c43da) == 0x12b1edeb
  {
  }

  lemma NextIs(w2: bv32, w7: bv32, w15: bv32, w16: bv32)
    ensures NextWord(FIPS, w2, w7, w15, w16) == Next(w2, w7, w15, w16)
  {
    hide SmallSigma0, SmallSigma1, Add;
  }

  lemma AtSchedule(t: nat, w: bv32, w2: bv32, w7: bv32, w15: bv32, w16: bv32)
    requires 16 <= t < |SCHEDULE| && SCHEDULE[t] == w && SCHEDULE[t - 2] == w2 && SCHEDULE[t - 7] == w7
    requires SCHEDULE[t - 15] == w15 && SCHEDULE[t - 16] == w16 && Next(w2, w7, w15, w16) == w
    ensures ScheduledHere(t)
  {
    hide *;
    NextIs(w2, w7, w15, w16);
    Here(t);
  }

  predicate ScheduledHere(t: nat) {
    16 <= t < |SCHEDULE|
    && SCHEDULE[t] == NextWord(FIPS, SCHEDULE[t - 2], SCHEDULE[t - 7], SCHEDULE[t - 15], SCHEDULE[t - 16])
  }

  lemma Here(t: nat)
    requires 16 <= t < |SCHEDULE|
    requires SCHEDULE[t] == NextWord(FIPS, SCHEDULE[t - 2], SCHEDULE[t - 7], SCHEDULE[t - 15], SCHEDULE[t - 16])
    ensures ScheduledHere(t)
  {
    hide NextWord;
  }

  lemma Loaded0()
    ensures |SCHEDULE| == 64
    ensures SCHEDULE[0] == 0x61626380 && SCHEDULE[1] == 0x00000000
    ensures SCHEDULE[2] == 0x00000000 && SCHEDULE[3] == 0x00000000
    ensures SCHEDULE[4] == 0x00000000 && SCHEDULE[5] == 0x00000000
    ensures SCHEDULE[6] == 0x00000000 && SCHEDULE[7] == 0x00000000
  {
  }

  lemma Loaded8()
    ensures |SCHEDULE| == 64
    ensures SCHEDULE[8] == 0x00000000 && SCHEDULE[9] == 0x00000000
    ensures SCHEDULE[10] == 0x00000000 && SCHEDULE[11] == 0x00000000
    ensures SCHEDULE[12] == 0x00000000 && SCHEDULE[13] == 0x00000000
    ensures SCHEDULE[14] == 0x00000000 && SCHEDULE[15] == 0x00000018
  {
  }

  lemma Loaded16()
    ensures |SCHEDULE| == 64
    ensures SCHEDULE[16] == 0x61626380 && SCHEDULE[17] == 0x000f0000
    ensures SCHEDULE[18] == 0x7da86405 && SCHEDULE[19] == 0x600003c6
    ensures SCHEDULE[20] == 0x3e9d7b78 && SCHEDULE[21] == 0x0183fc00
    ensures SCHEDULE[22] == 0x12dcbfdb && SCHEDULE[23] == 0xe2e2c38e
  {
  }

  lemma Loaded24()
    ensures |SCHEDULE| == 64
    ensures SCHEDULE[24] == 0xc8215c1a && SCHEDULE[25] == 0xb73679a2
    ensures SCHEDULE[26] == 0xe5bc3909 && SCHEDULE[27] == 0x32663c5b
    ensures SCHEDULE[28] == 0x9d209d67 && SCHEDULE[29] == 0xec8726cb
    ensures SCHEDULE[30] == 0x702138a4 && SCHEDULE[31] == 0xd3b7973b
  {
  }

  lemma Loaded32()
    ensures |SCHEDULE| == 64
    ensures SCHEDULE[32] == 0x93f5997f && SCHEDULE[33] == 0x3b68ba73
    ensures SCHEDULE[34] == 0xaff4ffc1 && SCHEDULE[35] == 0xf10a5c62
    ensures SCHEDULE[36] == 0x0a8b3996 && SCHEDULE[37] == 0x72af830a
    ensures SCHEDULE[38] == 0x9409e33e && SCHEDULE[39] == 0x24641522
  {
  }

  lemma Loaded40()
    ensures |SCHEDULE| == 64
    ensures SCHEDULE[40] == 0x9f47bf94 && SCHEDULE[41] == 0xf0a64f5a
    ensures SCHEDULE[42] == 0x3e246a79 && SCHEDULE[43] == 0x27333ba3
    ensures SCHEDULE[44] == 0x0c4763f2 && SCHEDULE[45] == 0x840abf27
    ensures SCHEDULE[46] == 0x7a290d5d && SCHEDULE[47] == 0x065c43da
  {
  }

  lemma Loaded48()
    ensures |SCHEDULE| == 64
    ensures SCHEDULE[48] == 0xfb3e89cb && SCHEDULE[49] == 0xcc7617db
    ensures SCHEDULE[50] == 0xb9e66c34 && SCHEDULE[51] == 0xa9993667
    ensures SCHEDULE[52] == 0x84badedd && SCHEDULE[53] == 0xc21462bc
    ensures SCHEDULE[54] == 0x1487472c && SCHEDULE[55] == 0xb20f7a99
  {
  }

  lemma Loaded56()
    ensures |SCHEDULE| == 64
    ensures SCHEDULE[56] == 0xef57b9cd && SCHEDULE[57] == 0xebe6b238
    ensures SCHEDULE[58] == 0x9fe3095e && SCHEDULE[59] == 0x78bc8d4b
    ensures SCHEDULE[60] == 0xa43fcf15 && SCHEDULE[61] == 0x668b2ff8
    ensures SCHEDULE[62] == 0xeeaba2cc && SCHEDULE[63] == 0x12b1edeb
  {
  }

  lemma ScheduledFrom16()
    ensures forall t | 16 <= t < 24 :: ScheduledHere(t)
  {
    hide *;
    Loaded0(); Loaded8(); Loaded16(); Words16();
    AtSchedule(16, 0x61626380, 0x00000000, 0x00000000, 0x00000000, 0x61626380);
    AtSchedule(17, 0x000f0000, 0x00000018, 0x00000000, 0x00000000, 0x00000000);
    AtSchedule(18, 0x7da86405, 0x61626380, 0x00000000, 0x00000000, 0x00000000);
    AtSchedule(19, 0x600003c6, 0x000f0000, 0x00000000, 0x00000000, 0x00000000);
    AtSchedule(20, 0x3e9d7b78, 0x7da86405, 0x00000000, 0x00000000, 0x00000000);
    AtSchedule(21, 0x0183fc00, 0x600003c6, 0x00000000, 0x00000000, 0x00000000);
    AtSchedule(22, 0x12dcbfdb, 0x3e9d7b78, 0x00000018, 0x00000000, 0x00000000);
    AtSchedule(23, 0xe2e2c38e, 0x0183fc00, 0x61626380, 0x00000000, 0x00000000);
  }

  lemma ScheduledFrom24()
    ensures forall t | 24 <= t < 32 :: ScheduledHere(t)
  {
    hide *;
    Loaded8(); Loaded16(); Loaded24(); Words24();
    AtSchedule(24, 0xc8215c1a, 0x12dcbfdb, 0x000f0000, 0x00000000, 0x00000000);
    AtSchedule(25, 0xb73679a2, 0xe2e2c38e, 0x7da86405, 0x00000000, 0x00000000);
    AtSchedule(26, 0xe5bc3909, 0xc8215c1a, 0x600003c6, 0x00000000, 0x00000000);
    AtSchedule(27, 0x32663c5b, 0xb73679a2, 0x3e9d7b78, 0x00000000, 0x00000000);
    AtSchedule(28, 0x9d209d67, 0xe5bc3909, 0x0183fc00, 0x00000000, 0x00000000);
    AtSchedule(29, 0xec8726cb, 0x32663c5b, 0x12dcbfdb, 0x00000000, 0x00000000);
    AtSchedule(30, 0x702138a4, 0x9d209d67, 0xe2e2c38e, 0x00000018, 0x00000000);
    AtSchedule(31, 0xd3b7973b, 0xec8726cb, 0xc8215c1a, 0x61626380, 0x00000018);
  }

  lemma ScheduledFrom32()
    ensures forall t | 32 <= t < 40 :: ScheduledHere(t)
  {
    hide *;
    Loaded16(); Loaded24(); Loaded32(); Words32();
    AtSchedule(32, 0x93f5997f, 0x702138a4, 0xb73679a2, 0x000f0000, 0x61626380);
    AtSchedule(33, 0x3b68ba73, 0xd3b7973b, 0xe5bc3909, 0x7da86405, 0x000f0000);
    AtSchedule(34, 0xaff4ffc1, 0x93f5997f, 0x32663c5b, 0x600003c6, 0x7da86405);
    AtSchedule(35, 0xf10a5c62, 0x3b68ba73, 0x9d209d67, 0x3e9d7b78, 0x600003c6);
    AtSchedule(36, 0x0a8b3996, 0xaff4ffc1, 0xec8726cb, 0x0183fc00, 0x3e9d7b78);
    AtSchedule(37, 0x72af830a, 0xf10a5c62, 0x702138a4, 0x12dcbfdb, 0x0183fc00);
    AtSchedule(38, 0x9409e33e, 0x0a8b3996, 0xd3b7973b, 0xe2e2c38e, 0x12dcbfdb);
    AtSchedule(39, 0x24641522, 0x72af830a, 0x93f5997f, 0xc8215c1a, 0xe2e2c38e);
  }

  lemma ScheduledFrom40()
    ensures forall t | 40 <= t < 48 :: ScheduledHere(t)
  {
    hide *;
    Loaded24(); Loaded32(); Loaded40(); Words40();
    AtSchedule(40, 0x9f47bf94, 0x9409e33e, 0x3b68ba73, 0xb73679a2, 0xc8215c1a);
    AtSchedule(41, 0xf0a64f5a, 0x24641522, 0xaff4ffc1, 0xe5bc3909, 0xb73679a2);
    AtSchedule(42, 0x3e246a79, 0x9f47bf94, 0xf10a5c62, 0x32663c5b, 0xe5bc3909);
    AtSchedule(43, 0x27333ba3, 0xf0a64f5a, 0x0a8b3996, 0x9d209d67, 0x32663c5b);
    AtSchedule(44, 0x0c4763f2, 0x3e246a79, 0x72af830a, 0xec8726cb, 0x9d209d67);
    AtSchedule(45, 0x840abf27, 0x27333ba3, 0x9409e33e, 0x702138a4, 0xec8726cb);
    AtSchedule(46, 0x7a290d5d, 0x0c4763f2, 0x24641522, 0xd3b7973b, 0x702138a4);
    AtSchedule(47, 0x065c43da, 0x840abf27, 0x9f47bf94, 0x93f5997f, 0xd3b7973b);
  }

  lemma ScheduledFrom48()
    ensures forall t | 48 <= t < 56 :: ScheduledHere(t)
  {
    hide *;
    Loaded32(); Loaded40(); Loaded48(); Words48();
    AtSchedule(48, 0xfb3e89cb, 0x7a290d5d, 0xf0a64f5a, 0x3b68ba73, 0x93f5997f);
    AtSchedule(49, 0xcc7617db, 0x065c43da, 0x3e246a79, 0xaff4ffc1, 0x3b68ba73);
    AtSchedule(50, 0xb9e66c34, 0xfb3e89cb, 0x27333ba3, 0xf10a5c62, 0xaff4ffc1);
    AtSchedule(51, 0xa9993667, 0xcc7617db, 0x0c4763f2, 0x0a8b3996, 0xf10a5c62);
    AtSchedule(52, 0x84badedd, 0xb9e66c34, 0x840abf27, 0x72af830a, 0x0a8b3996);
    AtSchedule(53, 0xc21462bc, 0xa9993667, 0x7a290d5d, 0x9409e33e, 0x72af830a);
    AtSchedule(54, 0x1487472c, 0x84badedd, 0x065c43da, 0x24641522, 0x9409e33e);
    AtSchedule(55, 0xb20f7a99, 0xc21462bc, 0xfb3e89cb, 0x9f47bf94, 0x24641522);
  }

  lemma ScheduledFrom56()
    ensures forall t | 56 <= t < 64 :: ScheduledHere(t)
  {
    hide *;
    Loaded40(); Loaded48(); Loaded56(); Words56();
    AtSchedule(56, 0xef57b9cd, 0x1487472c, 0xcc7617db, 0xf0a64f5a, 0x9f47bf94);
    AtSchedule(57, 0xebe6b238, 0xb20f7a99, 0xb9e66c34, 0x3e246a79, 0xf0a64f5a);
    AtSchedule(58, 0x9fe3095e, 0xef57b9cd, 0xa9993667, 0x27333ba3, 0x3e246a79);
    AtSchedule(59, 0x78bc8d4b, 0xebe6b238, 0x84badedd, 0x0c4763f2, 0x27333ba3);
    AtSchedule(60, 0xa43fcf15, 0x9fe3095e, 0xc21462bc, 0x840abf27, 0x0c4763f2);
    AtSchedule(61, 0x668b2ff8, 0x78bc8d4b, 0x1487472c, 0x7a290d5d, 0x840abf27);
    AtSchedule(62, 0xeeaba2cc, 0xa43fcf15, 0xb20f7a99, 0x065c43da, 0x7a290d5d);
    AtSchedule(63, 0x12b1edeb, 0x668b2ff8, 0xef57b9cd, 0xfb3e89cb, 0x065c43da);
  }

  lemma ScheduleIs()
    ensures |SCHEDULE| == 64 && Schedule(FIPS, WORDS) == SCHEDULE
  {
    hide *;
    Loaded0();
    WordsFirst();
    ScheduledFrom16(); ScheduledFrom24(); ScheduledFrom32(); ScheduledFrom40(); ScheduledFrom48(); ScheduledFrom56();
    AllScheduled();
    forall t: nat | t < 64 ensures SCHEDULE[t] == ScheduleWord(FIPS, WORDS, t) {
      OnlySchedule(FIPS, WORDS, SCHEDULE, t);
    }
    ScheduleOf();
  }

  lemma WordsFirst()
    ensures |SCHEDULE| == 64 && |WORDS| == 16 && SCHEDULE[..16] == WORDS
  {
  }

  lemma AllScheduled()
    requires |SCHEDULE| == 64 && forall t | 16 <= t < 64 :: ScheduledHere(t)
    ensures Scheduled(FIPS, SCHEDULE)
  {
    hide NextWord, SCHEDULE;
    forall t | 16 <= t < 64
      ensures SCHEDULE[t] == NextWord(FIPS, SCHEDULE[t - 2], SCHEDULE[t - 7], SCHEDULE[t - 15], SCHEDULE[t - 16])
    {
      assert ScheduledHere(t);
    }
  }

  lemma ScheduleOf()
    requires |WORDS| == 16
    ensures forall t | 0 <= t < 64 :: Schedule(FIPS, WORDS)[t] == ScheduleWord(FIPS, WORDS, t)
  {
    hide ScheduleWord;
  }

  // The rounds

  /** One round, of which only two registers are new. */
  predicate Step(r: Regs<bv32>, k: bv32, w: bv32, a: bv32, e: bv32) {
    var temp1 := Add(Add(Add(Add(r.h, BigSigma1(r.e)), Ch(r.e, r.f, r.g)), k), w);
    a == Add(temp1, Add(BigSigma0(r.a), Maj(r.a, r.b, r.c))) && e == Add(r.d, temp1)
  }

  lemma StepIs(r: Regs<bv32>, k: bv32, w: bv32, a: bv32, e: bv32)
    requires Step(r, k, w, a, e)
    ensures Round(FIPS, r, k, w) == Regs(a, r.a, r.b, r.c, e, r.e, r.f, r.g)
  {
    hide BigSigma0, BigSigma1, Ch, Maj, Add;
  }

  lemma OneRound(t: nat, r: Regs<bv32>, k: bv32, w: bv32, a: bv32, e: bv32) returns (r': Regs<bv32>)
    requires t < 64 && Rounds(FIPS, K, H0, SCHEDULE, t) == r && K[t] == k && SCHEDULE[t] == w && Step(r, k, w, a, e)
    ensures r' == Regs(a, r.a, r.b, r.c, e, r.e, r.f, r.g) == Rounds(FIPS, K, H0, SCHEDULE, t + 1)
  {
    StepIs(r, k, w, a, e);
    hide *;
    RoundFollows(FIPS, K, H0, SCHEDULE, t, r, k, w);
    r' := Regs(a, r.a, r.b, r.c, e, r.e, r.f, r.g);
  }

  lemma Steps0()
    ensures Step(Regs(0x6a09e667, 0xbb67ae85, 0x3c6ef372, 0xa54ff53a, 0x510e527f, 0x9b05688c, 0x1f83d9ab, 0x5be0cd19),
                 0x428a2f98, 0x61626380, 0x5d6aebcd, 0xfa2a4622)
    ensures Step(Regs(0x5d6aebcd, 0x6a09e667, 0xbb67ae85, 0x3c6ef372, 0xfa2a4622, 0x510e527f, 0x9b05688c, 0x1f83d9ab),
                 0x71374491, 0x00000000, 0x5a6ad9ad, 0x78ce7989)
    ensures Step(Regs(0x5a6ad9ad, 0x5d6aebcd, 0x6a09e667, 0xbb67ae85, 0x78ce7989, 0xfa2a4622, 0x510e527f, 0x9b05688c),
                 0xb5c0fbcf, 0x00000000, 0xc8c347a7, 0xf92939eb)
    ensures Step(Regs(0xc8c347a7, 0x5a6ad9ad, 0x5d6aebcd, 0x6a09e667, 0xf92939eb, 0x78ce7989, 0xfa2a4622, 0x510e527f),
                 0xe9b5dba5, 0x00000000, 0xd550f666, 0x24e00850)
  {
  }

  lemma Steps4()
    ensures Step(Regs(0xd550f666, 0xc8c347a7, 0x5a6ad9ad, 0x5d6aebcd, 0x24e00850, 0xf92939eb, 0x78ce7989, 0xfa2a4622),
                 0x3956c25b, 0x00000000, 0x04409a6a, 0x43ada245)
    ensures Step(Regs(0x04409a6a, 0xd550f666, 0xc8c347a7, 0x5a6ad9ad, 0x43ada245, 0x24e00850, 0xf92939eb, 0x78ce7989),
                 0x59f111f1, 0x00000000, 0x2b4209f5, 0x714260ad)
    ensures Step(Regs(0x2b4209f5, 0x04409a6a, 0xd550f666, 0xc8c347a7, 0x714260ad, 0x43ada245, 0x24e00850, 0xf92939eb),
                 0x923f82a4, 0x00000000, 0xe5030380, 0x9b27a401)
    ensures Step(Regs(0xe5030380, 0x2b4209f5, 0x04409a6a, 0xd550f666, 0x9b27a401, 0x714260ad, 0x43ada245, 0x24e00850),
                 0xab1c5ed5, 0x00000000, 0x85a07b5f, 0x0c657a79)
  {
  }

  lemma RoundsFrom0()
    requires |SCHEDULE| == 64 && Rounds(FIPS, K, H0, SCHEDULE, 0)
          == Regs(0x6a09e667, 0xbb67ae85, 0x3c6ef372, 0xa54ff53a, 0x510e527f, 0x9b05688c, 0x1f83d9ab, 0x5be0cd19)
    ensures Rounds(FIPS, K, H0, SCHEDULE, 8)
         == Regs(0x85a07b5f, 0xe5030380, 0x2b4209f5, 0x04409a6a, 0x0c657a79, 0x9b27a401, 0x714260ad, 0x43ada245)
  {
    hide *;
    ConstantsFrom0();
    Loaded0();
    Steps0();
    Steps4();
    var r := Regs(0x6a09e667, 0xbb67ae85, 0x3c6ef372, 0xa54ff53a, 0x510e527f, 0x9b05688c, 0x1f83d9ab, 0x5be0cd19);
    r := OneRound(0, r, 0x428a2f98, 0x61626380, 0x5d6aebcd, 0xfa2a4622);
    r := OneRound(1, r, 0x71374491, 0x00000000, 0x5a6ad9ad, 0x78ce7989);
    r := OneRound(2, r, 0xb5c0fbcf, 0x00000000, 0xc8c347a7, 0xf92939eb);
    r := OneRound(3, r, 0xe9b5dba5, 0x00000000, 0xd550f666, 0x24e00850);
    r := OneRound(4, r, 0x3956c25b, 0x00000000, 0x04409a6a, 0x43ada245);
    r := OneRound(5, r, 0x59f111f1, 0x00000000, 0x2b4209f5, 0x714260ad);
    r := OneRound(6, r, 0x923f82a4, 0x00000000, 0xe5030380, 0x9b27a401);
    r := OneRound(7, r, 0xab1c5ed5, 0x00000000, 0x85a07b5f, 0x0c657a79);
  }

  lemma Steps8()
    ensures Step(Regs(0x85a07b5f, 0xe5030380, 0x2b4209f5, 0x04409a6a, 0x0c657a79, 0x9b27a401, 0x714260ad, 0x43ada245),
                 0xd807aa98, 0x00000000, 0x8e04ecb9, 0x32ca2d8c)
    ensures Step(Regs(0x8e04ecb9, 0x85a07b5f, 0xe5030380, 0x2b4209f5, 0x32ca2d8c, 0x0c657a79, 0x9b27a401, 0x714260ad),
                 0x12835b01, 0x00000000, 0x8c87346b, 0x1cc92596)
    ensures Step(Regs(0x8c87346b, 0x8e04ecb9, 0x85a07b5f, 0xe5030380, 0x1cc92596, 0x32ca2d8c, 0x0c657a79, 0x9b27a401),
                 0x243185be, 0x00000000, 0x4798a3f4, 0x436b23e8)
    ensures Step(Regs(0x4798a3f4, 0x8c87346b, 0x8e04ecb9, 0x85a07b5f, 0x436b23e8, 0x1cc92596, 0x32ca2d8c, 0x0c657a79),
                 0x550c7dc3, 0x00000000, 0xf71fc5a9, 0x816fd6e9)
  {
  }

  lemma Steps12()
    ensures Step(Regs(0xf71fc5a9, 0x4798a3f4, 0x8c87346b, 0x8e04ecb9, 0x816fd6e9, 0x436b23e8, 0x1cc92596, 0x32ca2d8c),
                 0x72be5d74, 0x00000000, 0x87912990, 0x1e578218)
    ensures Step(Regs(0x87912990, 0xf71fc5a9, 0x4798a3f4, 0x8c87346b, 0x1e578218, 0x816fd6e9, 0x436b23e8, 0x1cc92596),
                 0x80deb1fe, 0x00000000, 0xd932eb16, 0x745a48de)
    ensures Step(Regs(0xd932eb16, 0x87912990, 0xf71fc5a9, 0x4798a3f4, 0x745a48de, 0x1e578218, 0x816fd6e9, 0x436b23e8),
                 0x9bdc06a7, 0x00000000, 0xc0645fde, 0x0b92f20c)
    ensures Step(Regs(0xc0645fde, 0xd932eb16, 0x87912990, 0xf71fc5a9, 0x0b92f20c, 0x745a48de, 0x1e578218, 0x816fd6e9),
                 0xc19bf174, 0x00000018, 0xb0fa238e, 0x07590dcd)
  {
  }

  lemma RoundsFrom8()
    requires |SCHEDULE| == 64 && Rounds(FIPS, K, H0, SCHEDULE, 8)
          == Regs(0x85a07b5f, 0xe5030380, 0x2b4209f5, 0x04409a6a, 0x0c657a79, 0x9b27a401, 0x714260ad, 0x43ada245)
    ensures Rounds(FIPS, K, H0, SCHEDULE, 16)
         == Regs(0xb0fa238e, 0xc0645fde, 0xd932eb16, 0x87912990, 0x07590dcd, 0x0b92f20c, 0x745a48de, 0x1e578218)
  {
    hide *;
    ConstantsFrom8();
    Loaded8();
    Steps8();
    Steps12();
    var r := Regs(0x85a07b5f, 0xe5030380, 0x2b4209f5, 0x04409a6a, 0x0c657a79, 0x9b27a401, 0x714260ad, 0x43ada245);
    r := OneRound(8, r, 0xd807aa98, 0x00000000, 0x8e04ecb9, 0x32ca2d8c);
    r := OneRound(9, r, 0x12835b01, 0x00000000, 0x8c87346b, 0x1cc92596);
    r := OneRound(10, r, 0x243185be, 0x00000000, 0x4798a3f4, 0x436b23e8);
    r := OneRound(11, r, 0x550c7dc3, 0x00000000, 0xf71fc5a9, 0x816fd6e9);
    r := OneRound(12, r, 0x72be5d74, 0x00000000, 0x87912990, 0x1e578218);
    r := OneRound(13, r, 0x80deb1fe, 0x00000000, 0xd932eb16, 0x745a48de);
    r := OneRound(14, r, 0x9bdc06a7, 0x00000000, 0xc0645fde, 0x0b92f20c);
    r := OneRound(15, r, 0xc19bf174, 0x00000018, 0xb0fa238e, 0x07590dcd);
  }

  lemma Steps16()
    ensures Step(Regs(0xb0fa238e, 0xc0645fde, 0xd932eb16, 0x87912990, 0x07590dcd, 0x0b92f20c, 0x745a48de, 0x1e578218),
                 0xe49b69c1, 0x61626380, 0x21da9a9b, 0x8034229c)
    ensures Step(Regs(0x21da9a9b, 0xb0fa238e, 0xc0645fde, 0xd932eb16, 0x8034229c, 0x07590dcd, 0x0b92f20c, 0x745a48de),
                 0xefbe4786, 0x000f0000, 0xc2fbd9d1, 0x846ee454)
    ensures Step(Regs(0xc2fbd9d1, 0x21da9a9b, 0xb0fa238e, 0xc0645fde, 0x846ee454, 0x8034229c, 0x07590dcd, 0x0b92f20c),
                 0x0fc19dc6, 0x7da86405, 0xfe777bbf, 0xcc899961)
    ensures Step(Regs(0xfe777bbf, 0xc2fbd9d1, 0x21da9a9b, 0xb0fa238e, 0xcc899961, 0x846ee454, 0x8034229c, 0x07590dcd),
                 0x240ca1cc, 0x600003c6, 0xe1f20c33, 0xb0638179)
  {
  }

  lemma Steps20()
    ensures Step(Regs(0xe1f20c33, 0xfe777bbf, 0xc2fbd9d1, 0x21da9a9b, 0xb0638179, 0xcc899961, 0x846ee454, 0x8034229c),
                 0x2de92c6f, 0x3e9d7b78, 0x9dc68b63, 0x8ada8930)
    ensures Step(Regs(0x9dc68b63, 0xe1f20c33, 0xfe777bbf, 0xc2fbd9d1, 0x8ada8930, 0xb0638179, 0xcc899961, 0x846ee454),
                 0x4a7484aa, 0x0183fc00, 0xc2606d6d, 0xe1257970)
    ensures Step(Regs(0xc2606d6d, 0x9dc68b63, 0xe1f20c33, 0xfe777bbf, 0xe1257970, 0x8ada8930, 0xb0638179, 0xcc899961),
                 0x5cb0a9dc, 0x12dcbfdb, 0xa7a3623f, 0x49f5114a)
    ensures Step(Regs(0xa7a3623f, 0xc2606d6d, 0x9dc68b63, 0xe1f20c33, 0x49f5114a, 0xe1257970, 0x8ada8930, 0xb0638179),
                 0x76f988da, 0xe2e2c38e, 0xc5d53d8d, 0xaa47c347)
  {
  }

  lemma RoundsFrom16()
    requires |SCHEDULE| == 64 && Rounds(FIPS, K, H0, SCHEDULE, 16)
          == Regs(0xb0fa238e, 0xc0645fde, 0xd932eb16, 0x87912990, 0x07590dcd, 0x0b92f20c, 0x745a48de, 0x1e578218)
    ensures Rounds(FIPS, K, H0, SCHEDULE, 24)
         == Regs(0xc5d53d8d, 0xa7a3623f, 0xc2606d6d, 0x9dc68b63, 0xaa47c347, 0x49f5114a, 0xe1257970, 0x8ada8930)
  {
    hide *;
    ConstantsFrom16();
    Loaded16();
    Steps16();
    Steps20();
    var r := Regs(0xb0fa238e, 0xc0645fde, 0xd932eb16, 0x87912990, 0x07590dcd, 0x0b92f20c, 0x745a48de, 0x1e578218);
    r := OneRound(16, r, 0xe49b69c1, 0x61626380, 0x21da9a9b, 0x8034229c);
    r := OneRound(17, r, 0xefbe4786, 0x000f0000, 0xc2fbd9d1, 0x846ee454);
    r := OneRound(18, r, 0x0fc19dc6, 0x7da86405, 0xfe777bbf, 0xcc899961);
    r := OneRound(19, r, 0x240ca1cc, 0x600003c6, 0xe1f20c33, 0xb0638179);
    r := OneRound(20, r, 0x2de92c6f, 0x3e9d7b78, 0x9dc68b63, 0x8ada8930);
    r := OneRound(21, r, 0x4a7484aa, 0x0183fc00, 0xc2606d6d, 0xe1257970);
    r := OneRound(22, r, 0x5cb0a9dc, 0x12dcbfdb, 0xa7a3623f, 0x49f5114a);
    r := OneRound(23, r, 0x76f988da, 0xe2e2c38e, 0xc5d53d8d, 0xaa47c347);
  }

  lemma Steps24()
    ensures Step(Regs(0xc5d53d8d, 0xa7a3623f, 0xc2606d6d, 0x9dc68b63, 0xaa47c347, 0x49f5114a, 0xe1257970, 0x8ada8930),
                 0x983e5152, 0xc8215c1a, 0x1c2c2838, 0x2823ef91)
    ensures Step(Regs(0x1c2c2838, 0xc5d53d8d, 0xa7a3623f, 0xc2606d6d, 0x2823ef91, 0xaa47c347, 0x49f5114a, 0xe1257970),
                 0xa831c66d, 0xb73679a2, 0xcde8037d, 0x14383d8e)
    ensures Step(Regs(0xcde8037d, 0x1c2c2838, 0xc5d53d8d, 0xa7a3623f, 0x14383d8e, 0x2823ef91, 0xaa47c347, 0x49f5114a),
                 0xb00327c8, 0xe5bc3909, 0xb62ec4bc, 0xc74c6516)
    ensures Step(Regs(0xb62ec4bc, 0xcde8037d, 0x1c2c2838, 0xc5d53d8d, 0xc74c6516, 0x14383d8e, 0x2823ef91, 0xaa47c347),
                 0xbf597fc7, 0x32663c5b, 0x77d37528, 0xedffbff8)
  {
  }

  lemma Steps28()
    ensures Step(Regs(0x77d37528, 0xb62ec4bc, 0xcde8037d, 0x1c2c2838, 0xedffbff8, 0xc74c6516, 0x14383d8e, 0x2823ef91),
                 0xc6e00bf3, 0x9d209d67, 0x363482c9, 0x6112a3b7)
    ensures Step(Regs(0x363482c9, 0x77d37528, 0xb62ec4bc, 0xcde8037d, 0x6112a3b7, 0xedffbff8, 0xc74c6516, 0x14383d8e),
                 0xd5a79147, 0xec8726cb, 0xa0060b30, 0xade79437)
    ensures Step(Regs(0xa0060b30, 0x363482c9, 0x77d37528, 0xb62ec4bc, 0xade79437, 0x6112a3b7, 0xedffbff8, 0xc74c6516),
                 0x06ca6351, 0x702138a4, 0xea992a22, 0x0109ab3a)
    ensures Step(Regs(0xea992a22, 0xa0060b30, 0x363482c9, 0x77d37528, 0x0109ab3a, 0xade79437, 0x6112a3b7, 0xedffbff8),
                 0x14292967, 0xd3b7973b, 0x73b33bf5, 0xba591112)
  {
  }

  lemma RoundsFrom24()
    requires |SCHEDULE| == 64 && Rounds(FIPS, K, H0, SCHEDULE, 24)
          == Regs(0xc5d53d8d, 0xa7a3623f, 0xc2606d6d, 0x9dc68b63, 0xaa47c347, 0x49f5114a, 0xe1257970, 0x8ada8930)
    ensures Rounds(FIPS, K, H0, SCHEDULE, 32)
         == Regs(0x73b33bf5, 0xea992a22, 0xa0060b30, 0x363482c9, 0xba591112, 0x0109ab3a, 0xade79437, 0x6112a3b7)
  {
    hide *;
    ConstantsFrom24();
    Loaded24();
    Steps24();
    Steps28();
    var r := Regs(0xc5d53d8d, 0xa7a3623f, 0xc2606d6d, 0x9dc68b63, 0xaa47c347, 0x49f5114a, 0xe1257970, 0x8ada8930);
    r := OneRound(24, r, 0x983e5152, 0xc8215c1a, 0x1c2c2838, 0x2823ef91);
    r := OneRound(25, r, 0xa831c66d, 0xb73679a2, 0xcde8037d, 0x14383d8e);
    r := OneRound(26, r, 0xb00327c8, 0xe5bc3909, 0xb62ec4bc, 0xc74c6516);
    r := OneRound(27, r, 0xbf597fc7, 0x32663c5b, 0x77d37528, 0xedffbff8);
    r := OneRound(28, r, 0xc6e00bf3, 0x9d209d67, 0x363482c9, 0x6112a3b7);
    r := OneRound(29, r, 0xd5a79147, 0xec8726cb, 0xa0060b30, 0xade79437);
    r := OneRound(30, r, 0x06ca6351, 0x702138a4, 0xea992a22, 0x0109ab3a);
    r := OneRound(31, r, 0x14292967, 0xd3b7973b, 0x73b33bf5, 0xba591112);
  }

  lemma Steps32()
    ensures Step(Regs(0x73b33bf5, 0xea992a22, 0xa0060b30, 0x363482c9, 0xba591112, 0x0109ab3a, 0xade79437, 0x6112a3b7),
                 0x27b70a85, 0x93f5997f, 0x98e12507, 0x9cd9f5f6)
    ensures Step(Regs(0x98e12507, 0x73b33bf5, 0xea992a22, 0xa0060b30, 0x9cd9f5f6, 0xba591112, 0x0109ab3a, 0xade79437),
                 0x2e1b2138, 0x3b68ba73, 0xfe604df5, 0x59249dd3)
    ensures Step(Regs(0xfe604df5, 0x98e12507, 0x73b33bf5, 0xea992a22, 0x59249dd3, 0x9cd9f5f6, 0xba591112, 0x0109ab3a),
                 0x4d2c6dfc, 0xaff4ffc1, 0xa9a7738c, 0x085f3833)
    ensures Step(Regs(0xa9a7738c, 0xfe604df5, 0x98e12507, 0x73b33bf5, 0x085f3833, 0x59249dd3, 0x9cd9f5f6, 0xba591112),
                 0x53380d13, 0xf10a5c62, 0x65a0cfe4, 0xf4b002d6)
  {
  }

  lemma Steps36()
    ensures Step(Regs(0x65a0cfe4, 0xa9a7738c, 0xfe604df5, 0x98e12507, 0xf4b002d6, 0x085f3833, 0x59249dd3, 0x9cd9f5f6),
                 0x650a7354, 0x0a8b3996, 0x41a65cb1, 0x0772a26b)
    ensures Step(Regs(0x41a65cb1, 0x65a0cfe4, 0xa9a7738c, 0xfe604df5, 0x0772a26b, 0xf4b002d6, 0x085f3833, 0x59249dd3),
                 0x766a0abb, 0x72af830a, 0x34df1604, 0xa507a53d)
    ensures Step(Regs(0x34df1604, 0x41a65cb1, 0x65a0cfe4, 0xa9a7738c, 0xa507a53d, 0x0772a26b, 0xf4b002d6, 0x085f3833),
                 0x81c2c92e, 0x9409e33e, 0x6dc57a8a, 0xf0781bc8)
    ensures Step(Regs(0x6dc57a8a, 0x34df1604, 0x41a65cb1, 0x65a0cfe4, 0xf0781bc8, 0xa507a53d, 0x0772a26b, 0xf4b002d6),
                 0x92722c85, 0x24641522, 0x79ea687a, 0x1efbc0a0)
  {
  }

  lemma RoundsFrom32()
    requires |SCHEDULE| == 64 && Rounds(FIPS, K, H0, SCHEDULE, 32)
          == Regs(0x73b33bf5, 0xea992a22, 0xa0060b30, 0x363482c9, 0xba591112, 0x0109ab3a, 0xade79437, 0x6112a3b7)
    ensures Rounds(FIPS, K, H0, SCHEDULE, 40)
         == Regs(0x79ea687a, 0x6dc57a8a, 0x34df1604, 0x41a65cb1, 0x1efbc0a0, 0xf0781bc8, 0xa507a53d, 0x0772a26b)
  {
    hide *;
    ConstantsFrom32();
    Loaded32();
    Steps32();
    Steps36();
    var r := Regs(0x73b33bf5, 0xea992a22, 0xa0060b30, 0x363482c9, 0xba591112, 0x0109ab3a, 0xade79437, 0x6112a3b7);
    r := OneRound(32, r, 0x27b70a85, 0x93f5997f, 0x98e12507, 0x9cd9f5f6);
    r := OneRound(33, r, 0x2e1b2138, 0x3b68ba73, 0xfe604df5, 0x59249dd3);
    r := OneRound(34, r, 0x4d2c6dfc, 0xaff4ffc1, 0xa9a7738c, 0x085f3833);
    r := OneRound(35, r, 0x53380d13, 0xf10a5c62, 0x65a0cfe4, 0xf4b002d6);
    r := OneRound(36, r, 0x650a7354, 0x0a8b3996, 0x41a65cb1, 0x0772a26b);
    r := OneRound(37, r, 0x766a0abb, 0x72af830a, 0x34df1604, 0xa507a53d);
    r := OneRound(38, r, 0x81c2c92e, 0x9409e33e, 0x6dc57a8a, 0xf0781bc8);
    r := OneRound(39, r, 0x92722c85, 0x24641522, 0x79ea687a, 0x1efbc0a0);
  }

  lemma Steps40()
    ensures Step(Regs(0x79ea687a, 0x6dc57a8a, 0x34df1604, 0x41a65cb1, 0x1efbc0a0, 0xf0781bc8, 0xa507a53d, 0x0772a26b),
                 0xa2bfe8a1, 0x9f47bf94, 0xd6670766, 0x26352d63)
    ensures Step(Regs(0xd6670766, 0x79ea687a, 0x6dc57a8a, 0x34df1604, 0x26352d63, 0x1efbc0a0, 0xf0781bc8, 0xa507a53d),
                 0xa81a664b, 0xf0a64f5a, 0xdf46652f, 0x838b2711)
    ensures Step(Regs(0xdf46652f, 0xd6670766, 0x79ea687a, 0x6dc57a8a, 0x838b2711, 0x26352d63, 0x1efbc0a0, 0xf0781bc8),
                 0xc24b8b70, 0x3e246a79, 0x17aa0dfe, 0xdecd4715)
    ensures Step(Regs(0x17aa0dfe, 0xdf46652f, 0xd6670766, 0x79ea687a, 0xdecd4715, 0x838b2711, 0x26352d63, 0x1efbc0a0),
                 0xc76c51a3, 0x27333ba3, 0x9d4baf93, 0xfda24c2e)
  {
  }

  lemma Steps44()
    ensures Step(Regs(0x9d4baf93, 0x17aa0dfe, 0xdf46652f, 0xd6670766, 0xfda24c2e, 0xdecd4715, 0x838b2711, 0x26352d63),
                 0xd192e819, 0x0c4763f2, 0x26628815, 0xa80f11f0)
    ensures Step(Regs(0x26628815, 0x9d4baf93, 0x17aa0dfe, 0xdf46652f, 0xa80f11f0, 0xfda24c2e, 0xdecd4715, 0x838b2711),
                 0xd6990624, 0x840abf27, 0x72ab4b91, 0xb7755da1)
    ensures Step(Regs(0x72ab4b91, 0x26628815, 0x9d4baf93, 0x17aa0dfe, 0xb7755da1, 0xa80f11f0, 0xfda24c2e, 0xdecd4715),
                 0xf40e3585, 0x7a290d5d, 0xa14c14b0, 0xd57b94a9)
    ensures Step(Regs(0xa14c14b0, 0x72ab4b91, 0x26628815, 0x9d4baf93, 0xd57b94a9, 0xb7755da1, 0xa80f11f0, 0xfda24c2e),
                 0x106aa070, 0x065c43da, 0x4172328d, 0xfecf0bc6)
  {
  }

  lemma RoundsFrom40()
    requires |SCHEDULE| == 64 && Rounds(FIPS, K, H0, SCHEDULE, 40)
          == Regs(0x79ea687a, 0x6dc57a8a, 0x34df1604, 0x41a65cb1, 0x1efbc0a0, 0xf0781bc8, 0xa507a53d, 0x0772a26b)
    ensures Rounds(FIPS, K, H0, SCHEDULE, 48)
         == Regs(0x4172328d, 0xa14c14b0, 0x72ab4b91, 0x26628815, 0xfecf0bc6, 0xd57b94a9, 0xb7755da1, 0xa80f11f0)
  {
    hide *;
    ConstantsFrom40();
    Loaded40();
    Steps40();
    Steps44();
    var r := Regs(0x79ea687a, 0x6dc57a8a, 0x34df1604, 0x41a65cb1, 0x1efbc0a0, 0xf0781bc8, 0xa507a53d, 0x0772a26b);
    r := OneRound(40, r, 0xa2bfe8a1, 0x9f47bf94, 0xd6670766, 0x26352d63);
    r := OneRound(41, r, 0xa81a664b, 0xf0a64f5a, 0xdf46652f, 0x838b2711);
    r := OneRound(42, r, 0xc24b8b70, 0x3e246a79, 0x17aa0dfe, 0xdecd4715);
    r := OneRound(43, r, 0xc76c51a3, 0x27333ba3, 0x9d4baf93, 0xfda24c2e);
    r := OneRound(44, r, 0xd192e819, 0x0c4763f2, 0x26628815, 0xa80f11f0);
    r := OneRound(45, r, 0xd6990624, 0x840abf27, 0x72ab4b91, 0xb7755da1);
    r := OneRound(46, r, 0xf40e3585, 0x7a290d5d, 0xa14c14b0, 0xd57b94a9);
    r := OneRound(47, r, 0x106aa070, 0x065c43da, 0x4172328d, 0xfecf0bc6);
  }

  lemma Steps48()
    ensures Step(Regs(0x4172328d, 0xa14c14b0, 0x72ab4b91, 0x26628815, 0xfecf0bc6, 0xd57b94a9, 0xb7755da1, 0xa80f11f0),
                 0x19a4c116, 0xfb3e89cb, 0x05757ceb, 0xbd714038)
    ensures Step(Regs(0x05757ceb, 0x4172328d, 0xa14c14b0, 0x72ab4b91, 0xbd714038, 0xfecf0bc6, 0xd57b94a9, 0xb7755da1),
                 0x1e376c08, 0xcc7617db, 0xf11bfaa8, 0x6e5c390c)
    ensures Step(Regs(0xf11bfaa8, 0x05757ceb, 0x4172328d, 0xa14c14b0, 0x6e5c390c, 0xbd714038, 0xfecf0bc6, 0xd57b94a9),
                 0x2748774c, 0xb9e66c34, 0x7a0508a1, 0x52f1ccf7)
    ensures Step(Regs(0x7a0508a1, 0xf11bfaa8, 0x05757ceb, 0x4172328d, 0x52f1ccf7, 0x6e5c390c, 0xbd714038, 0xfecf0bc6),
                 0x34b0bcb5, 0xa9993667, 0x886e7a22, 0x49231c1e)
  {
  }

  lemma Steps52()
    ensures Step(Regs(0x886e7a22, 0x7a0508a1, 0xf11bfaa8, 0x05757ceb, 0x49231c1e, 0x52f1ccf7, 0x6e5c390c, 0xbd714038),
                 0x391c0cb3, 0x84badedd, 0x101fd28f, 0x529e7d00)
    ensures Step(Regs(0x101fd28f, 0x886e7a22, 0x7a0508a1, 0xf11bfaa8, 0x529e7d00, 0x49231c1e, 0x52f1ccf7, 0x6e5c390c),
                 0x4ed8aa4a, 0xc21462bc, 0xf5702fdb, 0x9f4787c3)
    ensures Step(Regs(0xf5702fdb, 0x101fd28f, 0x886e7a22, 0x7a0508a1, 0x9f4787c3, 0x529e7d00, 0x49231c1e, 0x52f1ccf7),
                 0x5b9cca4f, 0x1487472c, 0x3ec45cdb, 0xe50e1b4f)
    ensures Step(Regs(0x3ec45cdb, 0xf5702fdb, 0x101fd28f, 0x886e7a22, 0xe50e1b4f, 0x9f4787c3, 0x529e7d00, 0x49231c1e),
                 0x682e6ff3, 0xb20f7a99, 0x38cc9913, 0x54cb266b)
  {
  }

  lemma RoundsFrom48()
    requires |SCHEDULE| == 64 && Rounds(FIPS, K, H0, SCHEDULE, 48)
          == Regs(0x4172328d, 0xa14c14b0, 0x72ab4b91, 0x26628815, 0xfecf0bc6, 0xd57b94a9, 0xb7755da1, 0xa80f11f0)
    ensures Rounds(FIPS, K, H0, SCHEDULE, 56)
         == Regs(0x38cc9913, 0x3ec45cdb, 0xf5702fdb, 0x101fd28f, 0x54cb266b, 0xe50e1b4f, 0x9f4787c3, 0x529e7d00)
  {
    hide *;
    ConstantsFrom48();
    Loaded48();
    Steps48();
    Steps52();
    var r := Regs(0x4172328d, 0xa14c14b0, 0x72ab4b91, 0x26628815, 0xfecf0bc6, 0xd57b94a9, 0xb7755da1, 0xa80f11f0);
    r := OneRound(48, r, 0x19a4c116, 0xfb3e89cb, 0x05757ceb, 0xbd714038);
    r := OneRound(49, r, 0x1e376c08, 0xcc7617db, 0xf11bfaa8, 0x6e5c390c);
    r := OneRound(50, r, 0x2748774c, 0xb9e66c34, 0x7a0508a1, 0x52f1ccf7);
    r := OneRound(51, r, 0x34b0bcb5, 0xa9993667, 0x886e7a22, 0x49231c1e);
    r := OneRound(52, r, 0x391c0cb3, 0x84badedd, 0x101fd28f, 0x529e7d00);
    r := OneRound(53, r, 0x4ed8aa4a, 0xc21462bc, 0xf5702fdb, 0x9f4787c3);
    r := OneRound(54, r, 0x5b9cca4f, 0x1487472c, 0x3ec45cdb, 0xe50e1b4f);
    r := OneRound(55, r, 0x682e6ff3, 0xb20f7a99, 0x38cc9913, 0x54cb266b);
  }

  lemma Steps56()
    ensures Step(Regs(0x38cc9913, 0x3ec45cdb, 0xf5702fdb, 0x101fd28f, 0x54cb266b, 0xe50e1b4f, 0x9f4787c3, 0x529e7d00),
                 0x748f82ee, 0xef57b9cd, 0xfcd1887b, 0x9b5e906c)
    ensures Step(Regs(0xfcd1887b, 0x38cc9913, 0x3ec45cdb, 0xf5702fdb, 0x9b5e906c, 0x54cb266b, 0xe50e1b4f, 0x9f4787c3),
                 0x78a5636f, 0xebe6b238, 0xc062d46f, 0x7e44008e)
    ensures Step(Regs(0xc062d46f, 0xfcd1887b, 0x38cc9913, 0x3ec45cdb, 0x7e44008e, 0x9b5e906c, 0x54cb266b, 0xe50e1b4f),
                 0x84c87814, 0x9fe3095e, 0xffb70472, 0x6d83bfc6)
    ensures Step(Regs(0xffb70472, 0xc062d46f, 0xfcd1887b, 0x38cc9913, 0x6d83bfc6, 0x7e44008e, 0x9b5e906c, 0x54cb266b),
                 0x8cc70208, 0x78bc8d4b, 0xb6ae8fff, 0xb21bad3d)
  {
  }

  lemma Steps60()
    ensures Step(Regs(0xb6ae8fff, 0xffb70472, 0xc062d46f, 0xfcd1887b, 0xb21bad3d, 0x6d83bfc6, 0x7e44008e, 0x9b5e906c),
                 0x90befffa, 0xa43fcf15, 0xb85e2ce9, 0x961f4894)
    ensures Step(Regs(0xb85e2ce9, 0xb6ae8fff, 0xffb70472, 0xc062d46f, 0x961f4894, 0xb21bad3d, 0x6d83bfc6, 0x7e44008e),
                 0xa4506ceb, 0x668b2ff8, 0x04d24d6c, 0x948d25b6)
    ensures Step(Regs(0x04d24d6c, 0xb85e2ce9, 0xb6ae8fff, 0xffb70472, 0x948d25b6, 0x961f4894, 0xb21bad3d, 0x6d83bfc6),
                 0xbef9a3f7, 0xeeaba2cc, 0xd39a2165, 0xfb121210)
    ensures Step(Regs(0xd39a2165, 0x04d24d6c, 0xb85e2ce9, 0xb6ae8fff, 0xfb121210, 0x948d25b6, 0x961f4894, 0xb21bad3d),
                 0xc67178f2, 0x12b1edeb, 0x506e3058, 0x5ef50f24)
  {
  }

  lemma RoundsFrom56()
    requires |SCHEDULE| == 64 && Rounds(FIPS, K, H0, SCHEDULE, 56)
          == Regs(0x38cc9913, 0x3ec45cdb, 0xf5702fdb, 0x101fd28f, 0x54cb266b, 0xe50e1b4f, 0x9f4787c3, 0x529e7d00)
    ensures Rounds(FIPS, K, H0, SCHEDULE, 64)
         == Regs(0x506e3058, 0xd39a2165, 0x04d24d6c, 0xb85e2ce9, 0x5ef50f24, 0xfb121210, 0x948d25b6, 0x961f4894)
  {
    hide *;
    ConstantsFrom56();
    Loaded56();
    Steps56();
    Steps60();
    var r := Regs(0x38cc9913, 0x3ec45cdb, 0xf5702fdb, 0x101fd28f, 0x54cb266b, 0xe50e1b4f, 0x9f4787c3, 0x529e7d00);
    r := OneRound(56, r, 0x748f82ee, 0xef57b9cd, 0xfcd1887b, 0x9b5e906c);
    r := OneRound(57, r, 0x78a5636f, 0xebe6b238, 0xc062d46f, 0x7e44008e);
    r := OneRound(58, r, 0x84c87814, 0x9fe3095e, 0xffb70472, 0x6d83bfc6);
    r := OneRound(59, r, 0x8cc70208, 0x78bc8d4b, 0xb6ae8fff, 0xb21bad3d);
    r := OneRound(60, r, 0x90befffa, 0xa43fcf15, 0xb85e2ce9, 0x961f4894);
    r := OneRound(61, r, 0xa4506ceb, 0x668b2ff8, 0x04d24d6c, 0x948d25b6);
    r := OneRound(62, r, 0xbef9a3f7, 0xeeaba2cc, 0xd39a2165, 0xfb121210);
    r := OneRound(63, r, 0xc67178f2, 0x12b1edeb, 0x506e3058, 0x5ef50f24);
  }

  lemma AllRounds()
    requires |SCHEDULE| == 64
    ensures Rounds(FIPS, K, H0, SCHEDULE, 64)
         == Regs(0x506e3058, 0xd39a2165, 0x04d24d6c, 0xb85e2ce9, 0x5ef50f24, 0xfb121210, 0x948d25b6, 0x961f4894)
  {
    NoRounds();
    hide *;
    RoundsFrom0(); RoundsFrom8(); RoundsFrom16(); RoundsFrom24();
    RoundsFrom32(); RoundsFrom40(); RoundsFrom48(); RoundsFrom56();
  }

  lemma NoRounds()
    requires |SCHEDULE| == 64
    ensures Rounds(FIPS, K, H0, SCHEDULE, 0)
         == Regs(0x6a09e667, 0xbb67ae85, 0x3c6ef372, 0xa54ff53a, 0x510e527f, 0x9b05688c, 0x1f83d9ab, 0x5be0cd19)
  {
    InitialHash();
    FirstRounds(FIPS, K, H0, SCHEDULE);
    hide Rounds, SquareRoot;
  }

  // The digest

  const MESSAGE: seq<bv8> := [0x61, 0x62, 0x63]

  lemma Sums()
    ensures Add(0x6a09e667, 0x506e3058) == 0xba7816bf
    ensures Add(0xbb67ae85, 0xd39a2165) == 0x8f01cfea
    ensures Add(0x3c6ef372, 0x04d24d6c) == 0x414140de
    ensures Add(0xa54ff53a, 0xb85e2ce9) == 0x5dae2223
    ensures Add(0x510e527f, 0x5ef50f24) == 0xb00361a3
    ensures Add(0x9b05688c, 0xfb121210) == 0x96177a9c
    ensures Add(0x1f83d9ab, 0x948d25b6) == 0xb410ff61
    ensures Add(0x5be0cd19, 0x961f4894) == 0xf20015ad
  {
  }

  lemma Compressed()
    ensures Compress(FIPS, K, H0, WORDS) == [
      0xba7816bf, 0x8f01cfea, 0x414140de, 0x5dae2223, 0xb00361a3, 0x96177a9c, 0xb410ff61, 0xf20015ad]
  {
    ScheduleIs();
    AllRounds();
    var r := Regs(0x506e3058, 0xd39a2165, 0x04d24d6c, 0xb85e2ce9, 0x5ef50f24, 0xfb121210, 0x948d25b6, 0x961f4894);
    Sums();
    InitialHash();
    CompressOf(FIPS, K, H0, WORDS, r);
    AddedRegs(r);
    hide *;
  }

  lemma AddedRegs(r: Regs<bv32>)
    ensures AddRegs(FIPS, H0, r) == [Add(H0[0], r.a), Add(H0[1], r.b), Add(H0[2], r.c), Add(H0[3], r.d),
                                     Add(H0[4], r.e), Add(H0[5], r.f), Add(H0[6], r.g), Add(H0[7], r.h)]
  {
    hide Add;
  }

  /** The padded message is one block of these words. */
  lemma Block()
    ensures |MESSAGE + Padding(3)| == 64 && WordsOf(MESSAGE + Padding(3)) == WORDS
  {
    PaddingOfThree();
    hide Padding;
    var b: Chunk := MESSAGE + Padding(3);
    assert b == [0x61, 0x62, 0x63, 0x80] + Zeros(52) + [0, 0, 0, 0, 0, 0, 0, 0x18];
    assert b[0] == 0x61 && b[1] == 0x62 && b[2] == 0x63 && b[3] == 0x80 && b[63] == 0x18;
    assert forall i | 4 <= i < 63 :: b[i] == 0;
    BlockWords(b);
  }

  lemma BlockWords(b: Chunk)
    requires b[0] == 0x61 && b[1] == 0x62 && b[2] == 0x63 && b[3] == 0x80 && b[63] == 0x18
    requires forall i | 4 <= i < 63 :: b[i] == 0
    ensures WordsOf(b) == WORDS
  {
    assert GetUint32(0x61, 0x62, 0x63, 0x80) == 0x61626380 && GetUint32(0, 0, 0, 0x18) == 0x18;
    assert GetUint32(0, 0, 0, 0) == 0;
    hide GetUint32;
    forall t | 0 <= t < 16 ensures WordsOf(b)[t] == WORDS[t] {
      assert t == 0 ==> WordsOf(b)[t] == GetUint32(0x61, 0x62, 0x63, 0x80);
      assert 0 < t < 15 ==> WordsOf(b)[t] == GetUint32(0, 0, 0, 0);
      assert t == 15 ==> WordsOf(b)[t] == GetUint32(0, 0, 0, 0x18);
    }
  }

  lemma PaddingOfThree()
    ensures Padding(3) == [0x80] + Zeros(52) + [0, 0, 0, 0, 0, 0, 0, 0x18]
  {
    EightBytes(24);
    PutSmall();
    assert ZeroCount(3) == 52;
    hide BigEndian, PutUint32, ZeroCount, Zeros;
  }

  lemma PutSmall()
    ensures PutUint32(0) == [0, 0, 0, 0] && PutUint32(24) == [0, 0, 0, 0x18]
  {
  }

  lemma DigitBytes()
    ensures ToByte(0xba) == 0xba && ToByte(0x78) == 0x78 && ToByte(0x16) == 0x16 && ToByte(0xbf) == 0xbf
    ensures ToByte(0x8f) == 0x8f && ToByte(0x01) == 0x01 && ToByte(0xcf) == 0xcf && ToByte(0xea) == 0xea
    ensures ToByte(0x41) == 0x41 && ToByte(0x41) == 0x41 && ToByte(0x40) == 0x40 && ToByte(0xde) == 0xde
    ensures ToByte(0x5d) == 0x5d && ToByte(0xae) == 0xae && ToByte(0x22) == 0x22 && ToByte(0x23) == 0x23
    ensures ToByte(0xb0) == 0xb0 && ToByte(0x03) == 0x03 && ToByte(0x61) == 0x61 && ToByte(0xa3) == 0xa3
    ensures ToByte(0x96) == 0x96 && ToByte(0x17) == 0x17 && ToByte(0x7a) == 0x7a && ToByte(0x9c) == 0x9c
    ensures ToByte(0xb4) == 0xb4 && ToByte(0x10) == 0x10 && ToByte(0xff) == 0xff && ToByte(0x61) == 0x61
    ensures ToByte(0xf2) == 0xf2 && ToByte(0x00) == 0x00 && ToByte(0x15) == 0x15 && ToByte(0xad) == 0xad
  {
  }

  lemma Digits()
    ensures PutUint32(0xba7816bf) == [0xba, 0x78, 0x16, 0xbf]
    ensures PutUint32(0x8f01cfea) == [0x8f, 0x01, 0xcf, 0xea]
    ensures PutUint32(0x414140de) == [0x41, 0x41, 0x40, 0xde]
    ensures PutUint32(0x5dae2223) == [0x5d, 0xae, 0x22, 0x23]
    ensures PutUint32(0xb00361a3) == [0xb0, 0x03, 0x61, 0xa3]
    ensures PutUint32(0x96177a9c) == [0x96, 0x17, 0x7a, 0x9c]
    ensures PutUint32(0xb410ff61) == [0xb4, 0x10, 0xff, 0x61]
    ensures PutUint32(0xf20015ad) == [0xf2, 0x00, 0x15, 0xad]
  {
    hide *;
    DigitBytes();
    DigitsOf(0xba7816bf, 0xba, 0x78, 0x16, 0xbf);
    DigitsOf(0x8f01cfea, 0x8f, 0x01, 0xcf, 0xea);
    DigitsOf(0x414140de, 0x41, 0x41, 0x40, 0xde);
    DigitsOf(0x5dae2223, 0x5d, 0xae, 0x22, 0x23);
    DigitsOf(0xb00361a3, 0xb0, 0x03, 0x61, 0xa3);
    DigitsOf(0x96177a9c, 0x96, 0x17, 0x7a, 0x9c);
    DigitsOf(0xb410ff61, 0xb4, 0x10, 0xff, 0x61);
    DigitsOf(0xf20015ad, 0xf2, 0x00, 0x15, 0xad);
  }

  lemma Naturals()
    ensures (0xba7816bf as bv32) as nat == 0xba7816bf
    ensures (0x8f01cfea as bv32) as nat == 0x8f01cfea
    ensures (0x414140de as bv32) as nat == 0x414140de
    ensures (0x5dae2223 as bv32) as nat == 0x5dae2223
    ensures (0xb00361a3 as bv32) as nat == 0xb00361a3
    ensures (0x96177a9c as bv32) as nat == 0x96177a9c
    ensures (0xb410ff61 as bv32) as nat == 0xb410ff61
    ensures (0xf20015ad as bv32) as nat == 0xf20015ad
  {
  }

  lemma PutWord(w: bv32, n: nat)
    requires n < 0x1_0000_0000 && w as nat == n
    ensures BigEndian(w as nat, 4) == PutUint32(n)
  {
    hide PutUint32;
    BigEndianSplits(n, 0, 0, n);
    NoBytes(0);
    hide BigEndian;
  }

  lemma DigestBytes(s: State)
    requires s == [
      0xba7816bf, 0x8f01cfea, 0x414140de, 0x5dae2223, 0xb00361a3, 0x96177a9c, 0xb410ff61, 0xf20015ad]
    ensures Bytes(s) == [
      0xba, 0x78, 0x16, 0xbf, 0x8f, 0x01, 0xcf, 0xea,
      0x41, 0x41, 0x40, 0xde, 0x5d, 0xae, 0x22, 0x23,
      0xb0, 0x03, 0x61, 0xa3, 0x96, 0x17, 0x7a, 0x9c,
      0xb4, 0x10, 0xff, 0x61, 0xf2, 0x00, 0x15, 0xad]
  {
    hide *;
    Digits();
    Naturals();
    BytesOf(s);
    PutWord(s[0], 0xba7816bf);
    PutWord(s[1], 0x8f01cfea);
    PutWord(s[2], 0x414140de);
    PutWord(s[3], 0x5dae2223);
    PutWord(s[4], 0xb00361a3);
    PutWord(s[5], 0x96177a9c);
    PutWord(s[6], 0xb410ff61);
    PutWord(s[7], 0xf20015ad);
  }

  /** The digest of "abc". */
  lemma DigestOfAbc()
    ensures Digest([0x61, 0x62, 0x63]) == [
      0xba, 0x78, 0x16, 0xbf, 0x8f, 0x01, 0xcf, 0xea,
      0x41, 0x41, 0x40, 0xde, 0x5d, 0xae, 0x22, 0x23,
      0xb0, 0x03, 0x61, 0xa3, 0x96, 0x17, 0x7a, 0x9c,
      0xb4, 0x10, 0xff, 0x61, 0xf2, 0x00, 0x15, 0xad]
  {
    Block();
    Compressed();
    var b: Chunk := MESSAGE + Padding(3);
    hide Padding, WORDS, WordsOf, Compress, Bytes;
    CompressBlockOf(H0, b);
    FoldOne(CompressBlock, H0, [], b);
    assert [] + b == b;
    DigestBytes(Fold(CompressBlock, H0, b));
  }
}
