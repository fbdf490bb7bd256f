/** The checksum behind the string hash: a byte-at-a-time loop over a 256-entry
    table, against the bit-at-a-time computation it stands for. */
module Crc32 {

  /** The reflected generator polynomial of section 8 of RFC 1952. */
  const POLYNOMIAL: bv32 := 0xEDB8_8320

  /** A byte, promoted to the width of the state. */
  type octet = x: bv32 | x < 0x100

  // The bit operations have names, so that proofs about whole messages need not look at bits.

  function Xor(a: bv32, b: bv32): bv32 {
    a ^ b
  }

  lemma LowIndex(x: bv32)
    ensures x & 0xff < 0x100
  {
  }

  function Low(x: bv32): octet {
    LowIndex(x);
    x & 0xff
  }

  function High(x: bv32): bv32 {
    x & 0xffff_ff00
  }

  function DropByte(x: bv32): bv32 {
    x >> 8
  }

  function Half(x: bv32): bv32 {
    x >> 1
  }

  predicate Odd(x: bv32) {
    x & 1 == 1
  }

  /** One bit. */
  function Shift1(x: bv32): bv32 {
    if Odd(x) then Xor(Half(x), POLYNOMIAL) else Half(x)
  }

  /** One byte. */
  function Shift8(x: bv32): bv32 {
    Shift1(Shift1(Shift1(Shift1(Shift1(Shift1(Shift1(Shift1(x))))))))
  }

  /** The bit-at-a-time checksum. There is no initial or final complement. */
  function Bitwise(state: bv32, message: seq<octet>): bv32
    decreases |message|
  {
    if message == [] then state
    else Bitwise(Shift8(Xor(state, message[0])), message[1..])
  }

  // ---- the table, by rows of sixteen entries ----

  function Row0(lo: bv32): bv32 {
    if lo == 0 then 0x0000_0000 else if lo == 1 then 0x7707_3096 else if lo == 2 then 0xee0e_612c else
    if lo == 3 then 0x9909_51ba else if lo == 4 then 0x076d_c419 else if lo == 5 then 0x706a_f48f else
    if lo == 6 then 0xe963_a535 else if lo == 7 then 0x9e64_95a3 else if lo == 8 then 0x0edb_8832 else
    if lo == 9 then 0x79dc_b8a4 else if lo == 10 then 0xe0d5_e91e else if lo == 11 then 0x97d2_d988 else
    if lo == 12 then 0x09b6_4c2b else if lo == 13 then 0x7eb1_7cbd else if lo == 14 then 0xe7b8_2d07 else
    0x90bf_1d91
  }

  function Row1(lo: bv32): bv32 {
    if lo == 0 then 0x1db7_1064 else if lo == 1 then 0x6ab0_20f2 else if lo == 2 then 0xf3b9_7148 else
    if lo == 3 then 0x84be_41de else if lo == 4 then 0x1ada_d47d else if lo == 5 then 0x6ddd_e4eb else
    if lo == 6 then 0xf4d4_b551 else if lo == 7 then 0x83d3_85c7 else if lo == 8 then 0x136c_9856 else
    if lo == 9 then 0x646b_a8c0 else if lo == 10 then 0xfd62_f97a else if lo == 11 then 0x8a65_c9ec else
    if lo == 12 then 0x1401_5c4f else if lo == 13 then 0x6306_6cd9 else if lo == 14 then 0xfa0f_3d63 else
    0x8d08_0df5
  }

  function Row2(lo: bv32): bv32 {
    if lo == 0 then 0x3b6e_20c8 else if lo == 1 then 0x4c69_105e else if lo == 2 then 0xd560_41e4 else
    if lo == 3 then 0xa267_7172 else if lo == 4 then 0x3c03_e4d1 else if lo == 5 then 0x4b04_d447 else
    if lo == 6 then 0xd20d_85fd else if lo == 7 then 0xa50a_b56b else if lo == 8 then 0x35b5_a8fa else
    if lo == 9 then 0x42b2_986c else if lo == 10 then 0xdbbb_c9d6 else if lo == 11 then 0xacbc_f940 else
    if lo == 12 then 0x32d8_6ce3 else if lo == 13 then 0x45df_5c75 else if lo == 14 then 0xdcd6_0dcf else
    0xabd1_3d59
  }

  function Row3(lo: bv32): bv32 {
    if lo == 0 then 0x26d9_30ac else if lo == 1 then 0x51de_003a else if lo == 2 then 0xc8d7_5180 else
    if lo == 3 then 0xbfd0_6116 else if lo == 4 then 0x21b4_f4b5 else if lo == 5 then 0x56b3_c423 else
    if lo == 6 then 0xcfba_9599 else if lo == 7 then 0xb8bd_a50f else if lo == 8 then 0x2802_b89e else
    if lo == 9 then 0x5f05_8808 else if lo == 10 then 0xc60c_d9b2 else if lo == 11 then 0xb10b_e924 else
    if lo == 12 then 0x2f6f_7c87 else if lo == 13 then 0x5868_4c11 else if lo == 14 then 0xc161_1dab else
    0xb666_2d3d
  }

  function Row4(lo: bv32): bv32 {
    if lo == 0 then 0x76dc_4190 else if lo == 1 then 0x01db_7106 else if lo == 2 then 0x98d2_20bc else
    if lo == 3 then 0xefd5_102a else if lo == 4 then 0x71b1_8589 else if lo == 5 then 0x06b6_b51f else
    if lo == 6 then 0x9fbf_e4a5 else if lo == 7 then 0xe8b8_d433 else if lo == 8 then 0x7807_c9a2 else
    if lo == 9 then 0x0f00_f934 else if lo == 10 then 0x9609_a88e else if lo == 11 then 0xe10e_9818 else
    if lo == 12 then 0x7f6a_0dbb else if lo == 13 then 0x086d_3d2d else if lo == 14 then 0x9164_6c97 else
    0xe663_5c01
  }

  function Row5(lo: bv32): bv32 {
    if lo == 0 then 0x6b6b_51f4 else if lo == 1 then 0x1c6c_6162 else if lo == 2 then 0x8565_30d8 else
    if lo == 3 then 0xf262_004e else if lo == 4 then 0x6c06_95ed else if lo == 5 then 0x1b01_a57b else
    if lo == 6 then 0x8208_f4c1 else if lo == 7 then 0xf50f_c457 else if lo == 8 then 0x65b0_d9c6 else
    if lo == 9 then 0x12b7_e950 else if lo == 10 then 0x8bbe_b8ea else if lo == 11 then 0xfcb9_887c else
    if lo == 12 then 0x62dd_1ddf else if lo == 13 then 0x15da_2d49 else if lo == 14 then 0x8cd3_7cf3 else
    0xfbd4_4c65
  }

  function Row6(lo: bv32): bv32 {
    if lo == 0 then 0x4db2_6158 else if lo == 1 then 0x3ab5_51ce else if lo == 2 then 0xa3bc_0074 else
    if lo == 3 then 0xd4bb_30e2 else if lo == 4 then 0x4adf_a541 else if lo == 5 then 0x3dd8_95d7 else
    if lo == 6 then 0xa4d1_c46d else if lo == 7 then 0xd3d6_f4fb else if lo == 8 then 0x4369_e96a else
    if lo == 9 then 0x346e_d9fc else if lo == 10 then 0xad67_8846 else if lo == 11 then 0xda60_b8d0 else
    if lo == 12 then 0x4404_2d73 else if lo == 13 then 0x3303_1de5 else if lo == 14 then 0xaa0a_4c5f else
    0xdd0d_7cc9
  }

  function Row7(lo: bv32): bv32 {
    if lo == 0 then 0x5005_713c else if lo == 1 then 0x2702_41aa else if lo == 2 then 0xbe0b_1010 else
    if lo == 3 then 0xc90c_2086 else if lo == 4 then 0x5768_b525 else if lo == 5 then 0x206f_85b3 else
    if lo == 6 then 0xb966_d409 else if lo == 7 then 0xce61_e49f else if lo == 8 then 0x5ede_f90e else
    if lo == 9 then 0x29d9_c998 else if lo == 10 then 0xb0d0_9822 else if lo == 11 then 0xc7d7_a8b4 else
    if lo == 12 then 0x59b3_3d17 else if lo == 13 then 0x2eb4_0d81 else if lo == 14 then 0xb7bd_5c3b else
    0xc0ba_6cad
  }

  function Row8(lo: bv32): bv32 {
    if lo == 0 then 0xedb8_8320 else if lo == 1 then 0x9abf_b3b6 else if lo == 2 then 0x03b6_e20c else
    if lo == 3 then 0x74b1_d29a else if lo == 4 then 0xead5_4739 else if lo == 5 then 0x9dd2_77af else
    if lo == 6 then 0x04db_2615 else if lo == 7 then 0x73dc_1683 else if lo == 8 then 0xe363_0b12 else
    if lo == 9 then 0x9464_3b84 else if lo == 10 then 0x0d6d_6a3e else if lo == 11 then 0x7a6a_5aa8 else
    if lo == 12 then 0xe40e_cf0b else if lo == 13 then 0x9309_ff9d else if lo == 14 then 0x0a00_ae27 else
    0x7d07_9eb1
  }

  function Row9(lo: bv32): bv32 {
    if lo == 0 then 0xf00f_9344 else if lo == 1 then 0x8708_a3d2 else if lo == 2 then 0x1e01_f268 else
    if lo == 3 then 0x6906_c2fe else if lo == 4 then 0xf762_575d else if lo == 5 then 0x8065_67cb else
    if lo == 6 then 0x196c_3671 else if lo == 7 then 0x6e6b_06e7 else if lo == 8 then 0xfed4_1b76 else
    if lo == 9 then 0x89d3_2be0 else if lo == 10 then 0x10da_7a5a else if lo == 11 then 0x67dd_4acc else
    if lo == 12 then 0xf9b9_df6f else if lo == 13 then 0x8ebe_eff9 else if lo == 14 then 0x17b7_be43 else
    0x60b0_8ed5
  }

  function RowA(lo: bv32): bv32 {
    if lo == 0 then 0xd6d6_a3e8 else if lo == 1 then 0xa1d1_937e else if lo == 2 then 0x38d8_c2c4 else
    if lo == 3 then 0x4fdf_f252 else if lo == 4 then 0xd1bb_67f1 else if lo == 5 then 0xa6bc_5767 else
    if lo == 6 then 0x3fb5_06dd else if lo == 7 then 0x48b2_364b else if lo == 8 then 0xd80d_2bda else
    if lo == 9 then 0xaf0a_1b4c else if lo == 10 then 0x3603_4af6 else if lo == 11 then 0x4104_7a60 else
    if lo == 12 then 0xdf60_efc3 else if lo == 13 then 0xa867_df55 else if lo == 14 then 0x316e_8eef else
    0x4669_be79
  }

  function RowB(lo: bv32): bv32 {
    if lo == 0 then 0xcb61_b38c else if lo == 1 then 0xbc66_831a else if lo == 2 then 0x256f_d2a0 else
    if lo == 3 then 0x5268_e236 else if lo == 4 then 0xcc0c_7795 else if lo == 5 then 0xbb0b_4703 else
    if lo == 6 then 0x2202_16b9 else if lo == 7 then 0x5505_262f else if lo == 8 then 0xc5ba_3bbe else
    if lo == 9 then 0xb2bd_0b28 else if lo == 10 then 0x2bb4_5a92 else if lo == 11 then 0x5cb3_6a04 else
    if lo == 12 then 0xc2d7_ffa7 else if lo == 13 then 0xb5d0_cf31 else if lo == 14 then 0x2cd9_9e8b else
    0x5bde_ae1d
  }

  function RowC(lo: bv32): bv32 {
    if lo == 0 then 0x9b64_c2b0 else if lo == 1 then 0xec63_f226 else if lo == 2 then 0x756a_a39c else
    if lo == 3 then 0x026d_930a else if lo == 4 then 0x9c09_06a9 else if lo == 5 then 0xeb0e_363f else
    if lo == 6 then 0x7207_6785 else if lo == 7 then 0x0500_5713 else if lo == 8 then 0x95bf_4a82 else
    if lo == 9 then 0xe2b8_7a14 else if lo == 10 then 0x7bb1_2bae else if lo == 11 then 0x0cb6_1b38 else
    if lo == 12 then 0x92d2_8e9b else if lo == 13 then 0xe5d5_be0d else if lo == 14 then 0x7cdc_efb7 else
    0x0bdb_df21
  }

  function RowD(lo: bv32): bv32 {
    if lo == 0 then 0x86d3_d2d4 else if lo == 1 then 0xf1d4_e242 else if lo == 2 then 0x68dd_b3f8 else
    if lo == 3 then 0x1fda_836e else if lo == 4 then 0x81be_16cd else if lo == 5 then 0xf6b9_265b else
    if lo == 6 then 0x6fb0_77e1 else if lo == 7 then 0x18b7_4777 else if lo == 8 then 0x8808_5ae6 else
    if lo == 9 then 0xff0f_6a70 else if lo == 10 then 0x6606_3bca else if lo == 11 then 0x1101_0b5c else
    if lo == 12 then 0x8f65_9eff else if lo == 13 then 0xf862_ae69 else if lo == 14 then 0x616b_ffd3 else
    0x166c_cf45
  }

  function RowE(lo: bv32): bv32 {
    if lo == 0 then 0xa00a_e278 else if lo == 1 then 0xd70d_d2ee else if lo == 2 then 0x4e04_8354 else
    if lo == 3 then 0x3903_b3c2 else if lo == 4 then 0xa767_2661 else if lo == 5 then 0xd060_16f7 else
    if lo == 6 then 0x4969_474d else if lo == 7 then 0x3e6e_77db else if lo == 8 then 0xaed1_6a4a else
    if lo == 9 then 0xd9d6_5adc else if lo == 10 then 0x40df_0b66 else if lo == 11 then 0x37d8_3bf0 else
    if lo == 12 then 0xa9bc_ae53 else if lo == 13 then 0xdebb_9ec5 else if lo == 14 then 0x47b2_cf7f else
    0x30b5_ffe9
  }

  function RowF(lo: bv32): bv32 {
    if lo == 0 then 0xbdbd_f21c else if lo == 1 then 0xcaba_c28a else if lo == 2 then 0x53b3_9330 else
    if lo == 3 then 0x24b4_a3a6 else if lo == 4 then 0xbad0_3605 else if lo == 5 then 0xcdd7_0693 else
    if lo == 6 then 0x54de_5729 else if lo == 7 then 0x23d9_67bf else if lo == 8 then 0xb366_7a2e else
    if lo == 9 then 0xc461_4ab8 else if lo == 10 then 0x5d68_1b02 else if lo == 11 then 0x2a6f_2b94 else
    if lo == 12 then 0xb40b_be37 else if lo == 13 then 0xc30c_8ea1 else if lo == 14 then 0x5a05_df1b else
    0x2d02_ef8d
  }

  function Row(hi: bv32, lo: bv32): bv32 {
    if hi == 0 then Row0(lo) else if hi == 1 then Row1(lo) else if hi == 2 then Row2(lo) else
    if hi == 3 then Row3(lo) else if hi == 4 then Row4(lo) else if hi == 5 then Row5(lo) else
    if hi == 6 then Row6(lo) else if hi == 7 then Row7(lo) else if hi == 8 then Row8(lo) else
    if hi == 9 then Row9(lo) else if hi == 10 then RowA(lo) else if hi == 11 then RowB(lo) else
    if hi == 12 then RowC(lo) else if hi == 13 then RowD(lo) else if hi == 14 then RowE(lo) else
    RowF(lo)
  }

  function Table(i: octet): bv32 {
    Row(i >> 4, i & 0xf)
  }

  /** The first row is eight bit steps of its index ... */
  lemma FirstRow(lo: bv32)
    requires lo < 16
    ensures Row0(lo) == Shift8(lo)
  {
    if lo == 0 {
    } else if lo == 1 {
    } else if lo == 2 {
    } else if lo == 3 {
    } else if lo == 4 {
    } else if lo == 5 {
    } else if lo == 6 {
    } else if lo == 7 {
    } else if lo == 8 {
    } else if lo == 9 {
    } else if lo == 10 {
    } else if lo == 11 {
    } else if lo == 12 {
    } else if lo == 13 {
    } else if lo == 14 {
    } else {
      assert lo == 15;
    }
  }

  /** ... so is the head of every row ... */
  lemma LowerHeads()
    ensures Row0(0) == Shift8(0x00)
    ensures Row1(0) == Shift8(0x10)
    ensures Row2(0) == Shift8(0x20)
    ensures Row3(0) == Shift8(0x30)
    ensures Row4(0) == Shift8(0x40)
    ensures Row5(0) == Shift8(0x50)
    ensures Row6(0) == Shift8(0x60)
    ensures Row7(0) == Shift8(0x70)
  {
  }

  lemma UpperHeads()
    ensures Row8(0) == Shift8(0x80)
    ensures Row9(0) == Shift8(0x90)
    ensures RowA(0) == Shift8(0xA0)
    ensures RowB(0) == Shift8(0xB0)
    ensures RowC(0) == Shift8(0xC0)
    ensures RowD(0) == Shift8(0xD0)
    ensures RowE(0) == Shift8(0xE0)
    ensures RowF(0) == Shift8(0xF0)
  {
  }

  // ... and every other row is the first one, moved by its head.

  lemma Row1Moved(lo: bv32)
    requires lo < 16
    ensures Row1(lo) == Xor(Row1(0), Row0(lo))
  {
    if lo < 4 {
    } else if lo < 8 {
    } else if lo < 12 {
    } else {
    }
  }

  lemma Row2Moved(lo: bv32)
    requires lo < 16
    ensures Row2(lo) == Xor(Row2(0), Row0(lo))
  {
    if lo < 4 {
    } else if lo < 8 {
    } else if lo < 12 {
    } else {
    }
  }

  lemma Row3Moved(lo: bv32)
    requires lo < 16
    ensures Row3(lo) == Xor(Row3(0), Row0(lo))
  {
    if lo < 4 {
    } else if lo < 8 {
    } else if lo < 12 {
    } else {
    }
  }

  lemma Row4Moved(lo: bv32)
    requires lo < 16
    ensures Row4(lo) == Xor(Row4(0), Row0(lo))
  {
    if lo < 4 {
    } else if lo < 8 {
    } else if lo < 12 {
    } else {
    }
  }

  lemma Row5Moved(lo: bv32)
    requires lo < 16
    ensures Row5(lo) == Xor(Row5(0), Row0(lo))
  {
    if lo < 4 {
    } else if lo < 8 {
    } else if lo < 12 {
    } else {
    }
  }

  lemma Row6Moved(lo: bv32)
    requires lo < 16
    ensures Row6(lo) == Xor(Row6(0), Row0(lo))
  {
    if lo < 4 {
    } else if lo < 8 {
    } else if lo < 12 {
    } else {
    }
  }

  lemma Row7Moved(lo: bv32)
    requires lo < 16
    ensures Row7(lo) == Xor(Row7(0), Row0(lo))
  {
    if lo < 4 {
    } else if lo < 8 {
    } else if lo < 12 {
    } else {
    }
  }

  lemma Row8Moved(lo: bv32)
    requires lo < 16
    ensures Row8(lo) == Xor(Row8(0), Row0(lo))
  {
    if lo < 4 {
    } else if lo < 8 {
    } else if lo < 12 {
    } else {
    }
  }

  lemma Row9Moved(lo: bv32)
    requires lo < 16
    ensures Row9(lo) == Xor(Row9(0), Row0(lo))
  {
    if lo < 4 {
    } else if lo < 8 {
    } else if lo < 12 {
    } else {
    }
  }

  lemma RowAMoved(lo: bv32)
    requires lo < 16
    ensures RowA(lo) == Xor(RowA(0), Row0(lo))
  {
    if lo < 4 {
    } else if lo < 8 {
    } else if lo < 12 {
    } else {
    }
  }

  lemma RowBMoved(lo: bv32)
    requires lo < 16
    ensures RowB(lo) == Xor(RowB(0), Row0(lo))
  {
    if lo < 4 {
    } else if lo < 8 {
    } else if lo < 12 {
    } else {
    }
  }

  lemma RowCMoved(lo: bv32)
    requires lo < 16
    ensures RowC(lo) == Xor(RowC(0), Row0(lo))
  {
    if lo < 4 {
    } else if lo < 8 {
    } else if lo < 12 {
    } else {
    }
  }

  lemma RowDMoved(lo: bv32)
    requires lo < 16
    ensures RowD(lo) == Xor(RowD(0), Row0(lo))
  {
    if lo < 4 {
    } else if lo < 8 {
    } else if lo < 12 {
    } else {
    }
  }

  lemma RowEMoved(lo: bv32)
    requires lo < 16
    ensures RowE(lo) == Xor(RowE(0), Row0(lo))
  {
    if lo < 4 {
    } else if lo < 8 {
    } else if lo < 12 {
    } else {
    }
  }

  lemma RowFMoved(lo: bv32)
    requires lo < 16
    ensures RowF(lo) == Xor(RowF(0), Row0(lo))
  {
    if lo < 4 {
    } else if lo < 8 {
    } else if lo < 12 {
    } else {
    }
  }

  /** One turn of the loop. */
  function Turn(state: bv32, b: octet): bv32 {
    Xor(Table(Low(Xor(state, b))), DropByte(state))
  }

  // ---- linearity ----

  lemma HalfXor(x: bv32, y: bv32)
    ensures Half(Xor(x, y)) == Xor(Half(x), Half(y))
  {
  }

  lemma OddXor(x: bv32, y: bv32)
    ensures Odd(Xor(x, y)) <==> Odd(x) != Odd(y)
  {
  }

  lemma XorBits(a: bv32, b: bv32, c: bv32)
    ensures a ^ b == b ^ a && a ^ a == 0 && a ^ 0 == a && (a ^ b) ^ c == a ^ (b ^ c)
  {
  }

  lemma XorLaws(a: bv32, b: bv32, c: bv32)
    ensures Xor(a, b) == Xor(b, a) && Xor(a, a) == 0 && Xor(a, 0) == a
    ensures Xor(Xor(a, b), c) == Xor(a, Xor(b, c))
  {
    XorBits(a, b, c);
  }

  lemma XorAway(a: bv32, b: bv32, p: bv32)
    ensures Xor(Xor(a, p), Xor(b, p)) == Xor(a, b)
    ensures Xor(Xor(a, p), b) == Xor(Xor(a, b), p)
    ensures Xor(a, Xor(b, p)) == Xor(Xor(a, b), p)
  {
    hide Xor;
    XorLaws(a, b, p);
    XorLaws(a, p, b);
    XorLaws(p, b, a);
    XorLaws(a, p, Xor(b, p));
    XorLaws(p, Xor(b, p), a);
    XorLaws(b, p, p);
  }

  lemma Shift1Linear(x: bv32, y: bv32)
    ensures Shift1(Xor(x, y)) == Xor(Shift1(x), Shift1(y))
  {
    hide Xor, Half, Odd;
    HalfXor(x, y);
    OddXor(x, y);
    XorAway(Half(x), Half(y), POLYNOMIAL);
  }

  lemma Shift8Linear(x: bv32, y: bv32)
    ensures Shift8(Xor(x, y)) == Xor(Shift8(x), Shift8(y))
  {
    hide Shift1, Xor;
    var x1, y1 := Shift1(x), Shift1(y);
    var x2, y2 := Shift1(x1), Shift1(y1);
    var x3, y3 := Shift1(x2), Shift1(y2);
    var x4, y4 := Shift1(x3), Shift1(y3);
    var x5, y5 := Shift1(x4), Shift1(y4);
    var x6, y6 := Shift1(x5), Shift1(y5);
    Shift1Linear(x, y);
    Shift1Linear(x1, y1);
    Shift1Linear(x2, y2);
    Shift1Linear(x3, y3);
    Shift1Linear(x4, y4);
    Shift1Linear(x5, y5);
    Shift1Linear(x6, y6);
    Shift1Linear(Shift1(x6), Shift1(y6));
  }

  /** Zero bits are shifted out and leave no trace. */
  lemma Halves(x: bv32)
    requires x & 0xff == 0
    ensures !Odd(x) && !Odd(Half(x)) && !Odd(Half(Half(x))) && !Odd(Half(Half(Half(x))))
    ensures var y := Half(Half(Half(Half(x))));
      && !Odd(y) && !Odd(Half(y)) && !Odd(Half(Half(y))) && !Odd(Half(Half(Half(y))))
      && Half(Half(Half(Half(y)))) == x >> 8
  {
  }

  lemma Shift8Zero(x: bv32)
    requires Low(x) == 0
    ensures Shift8(x) == DropByte(x)
  {
    assert x & 0xff == 0;
    Halves(x);
    hide Half, Odd, Xor, Low, DropByte;
  }

  lemma Rows0To3(hi: bv32, lo: bv32)
    requires hi < 4 && lo < 16
    ensures Row(hi, lo) == Xor(Row(hi, 0), Row0(lo)) && Row(hi, 0) == Shift8(hi << 4)
  {
    XorLaws(Row0(lo), 0, 0);
    assert Row0(0) == 0;
    hide Shift8, Xor, Row0, Row1, Row2, Row3, Row4, Row5, Row6, Row7, Row8, Row9, RowA, RowB, RowC, RowD, RowE, RowF;
    LowerHeads();
    if hi == 0 {
    } else if hi == 1 {
      Row1Moved(lo);
    } else if hi == 2 {
      Row2Moved(lo);
    } else {
      Row3Moved(lo);
    }
  }

  lemma Rows4To7(hi: bv32, lo: bv32)
    requires 4 <= hi < 8 && lo < 16
    ensures Row(hi, lo) == Xor(Row(hi, 0), Row0(lo)) && Row(hi, 0) == Shift8(hi << 4)
  {
    hide Shift8, Xor, Row0, Row1, Row2, Row3, Row4, Row5, Row6, Row7, Row8, Row9, RowA, RowB, RowC, RowD, RowE, RowF;
    LowerHeads();
    if hi == 4 {
      Row4Moved(lo);
    } else if hi == 5 {
      Row5Moved(lo);
    } else if hi == 6 {
      Row6Moved(lo);
    } else {
      Row7Moved(lo);
    }
  }

  lemma Rows8ToB(hi: bv32, lo: bv32)
    requires 8 <= hi < 12 && lo < 16
    ensures Row(hi, lo) == Xor(Row(hi, 0), Row0(lo)) && Row(hi, 0) == Shift8(hi << 4)
  {
    hide Shift8, Xor, Row0, Row1, Row2, Row3, Row4, Row5, Row6, Row7, Row8, Row9, RowA, RowB, RowC, RowD, RowE, RowF;
    UpperHeads();
    if hi == 8 {
      Row8Moved(lo);
    } else if hi == 9 {
      Row9Moved(lo);
    } else if hi == 10 {
      RowAMoved(lo);
    } else {
      RowBMoved(lo);
    }
  }

  lemma RowsCToF(hi: bv32, lo: bv32)
    requires 12 <= hi < 16 && lo < 16
    ensures Row(hi, lo) == Xor(Row(hi, 0), Row0(lo)) && Row(hi, 0) == Shift8(hi << 4)
  {
    hide Shift8, Xor, Row0, Row1, Row2, Row3, Row4, Row5, Row6, Row7, Row8, Row9, RowA, RowB, RowC, RowD, RowE, RowF;
    UpperHeads();
    if hi == 12 {
      RowCMoved(lo);
    } else if hi == 13 {
      RowDMoved(lo);
    } else if hi == 14 {
      RowEMoved(lo);
    } else {
      RowFMoved(lo);
    }
  }

  lemma Nibbles(i: octet)
    ensures i & 0xf < 16 && i >> 4 < 16
    ensures Xor((i >> 4) << 4, i & 0xf) == i
  {
  }

  /** Every entry of the table is eight bit steps of its index. */
  lemma TableExact(i: octet)
    ensures Table(i) == Shift8(i)
  {
    Nibbles(i);
    hide Row, Row0, Xor, Shift8;
    var hi, lo := i >> 4, i & 0xf;
    if hi < 4 {
      Rows0To3(hi, lo);
    } else if hi < 8 {
      Rows4To7(hi, lo);
    } else if hi < 12 {
      Rows8ToB(hi, lo);
    } else {
      RowsCToF(hi, lo);
    }
    FirstRow(lo);
    Shift8Linear(hi << 4, lo);
  }

  lemma LowByte(x: bv32)
    ensures Xor(Low(x), High(x)) == x
    ensures DropByte(High(x)) == DropByte(x) && Low(High(x)) == 0
  {
  }

  lemma XorHigh(state: bv32, b: octet)
    ensures DropByte(Xor(state, b)) == DropByte(state)
  {
  }

  /** One turn of the table loop is eight bit steps. */
  lemma TableStep(state: bv32, b: octet)
    ensures Turn(state, b) == Shift8(Xor(state, b))
  {
    hide Table, Shift8, Xor, Low, High, DropByte;
    var x := Xor(state, b);
    LowByte(x);
    XorHigh(state, b);
    TableExact(Low(x));
    Shift8Linear(Low(x), High(x));
    Shift8Zero(High(x));
  }

  /** The table loop computes the bitwise checksum from state 0. */
  method ComputeCrc32(message: seq<octet>) returns (crc: bv32)
    ensures crc == Bitwise(0, message)
  {
    hide Turn, Shift8, Xor;
    crc := 0;
    for i := 0 to |message|
      invariant Bitwise(crc, message[i..]) == Bitwise(0, message)
    {
      TableStep(crc, message[i]);
      assert message[i..][1..] == message[i + 1..];
      crc := Turn(crc, message[i]);
    }
  }

  lemma XorOctet(a: octet, b: octet)
    ensures Xor(a, b) < 0x100
  {
  }

  function XorBytes(m1: seq<octet>, m2: seq<octet>): (m: seq<octet>)
    requires |m1| == |m2|
    ensures |m| == |m1|
  {
    if m1 == [] then []
    else
      XorOctet(m1[0], m2[0]);
      [Xor(m1[0], m2[0])] + XorBytes(m1[1..], m2[1..])
  }

  lemma XorRegroup(s: bv32, t: bv32, a: bv32, b: bv32)
    ensures Xor(Xor(s, t), Xor(a, b)) == Xor(Xor(s, a), Xor(t, b))
  {
    hide Xor;
    XorLaws(s, t, Xor(a, b));
    XorLaws(t, a, b);
    XorLaws(a, t, b);
    XorLaws(s, a, Xor(t, b));
  }

  /** On messages of equal length the checksum is linear over exclusive or. */
  lemma {:induction false} Linear(s: bv32, t: bv32, m1: seq<octet>, m2: seq<octet>)
    requires |m1| == |m2|
    ensures Bitwise(Xor(s, t), XorBytes(m1, m2)) == Xor(Bitwise(s, m1), Bitwise(t, m2))
    decreases |m1|
  {
    hide Shift8, Xor;
    if m1 != [] {
      XorRegroup(s, t, m1[0], m2[0]);
      Shift8Linear(Xor(s, m1[0]), Xor(t, m2[0]));
      Linear(Shift8(Xor(s, m1[0])), Shift8(Xor(t, m2[0])), m1[1..], m2[1..]);
    }
  }

  /** Without the initial complement, leading zero bytes are invisible. */
  lemma LeadingZero(message: seq<octet>)
    ensures Bitwise(0, [0] + message) == Bitwise(0, message)
  {
    assert ([0] + message)[1..] == message;
    assert Shift8(Xor(0, 0)) == 0;
  }
}
