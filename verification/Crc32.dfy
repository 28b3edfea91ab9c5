/**
 CRC-32 as in section 8 of RFC 1952, which is what `boost::crc_32_type` computes:
 a running register is folded over the bytes and complemented at the end.
 */
module Crc32 {
  import opened Common

  type Byte = bv8
  type Register = bv32

  const POLYNOMIAL: bv32 := 0xEDB8_8320
  const MASK: bv32 := 0xFFFF_FFFF

  /** A step of the reflected shift register. */
  function ShiftOnce(register: Register): Register {
    if register & 1 == 1 then (register >> 1) ^ POLYNOMIAL else register >> 1
  }

  function Shift(register: Register, n: nat): Register
    decreases n
  {
    if n == 0 then register else Shift(ShiftOnce(register), n - 1)
  }

  function Xor(a: Register, b: Register): Register {
    a ^ b
  }

  function Step(register: Register, b: Byte): Register {
    Shift(Xor(register, b as bv32), 8)
  }

  /** `process_bytes`: the register after reading `bytes`. */
  function Process(register: Register, bytes: seq<Byte>): Register {
    if bytes == [] then register
    else Step(Process(register, bytes[..|bytes| - 1]), bytes[|bytes| - 1])
  }

  function Final(register: Register): bv32 {
    register ^ MASK
  }

  /** The checksum of a whole file. */
  function Checksum(bytes: seq<Byte>): bv32 {
    Final(Process(MASK, bytes))
  }

  /** Reading `a` and then `b` is reading `a + b`. */
  lemma {:induction false} ProcessConcat(register: Register, a: seq<Byte>, b: seq<Byte>)
    ensures Process(register, a + b) == Process(Process(register, a), b)
  {
    hide Step;
    if b == [] {
      assert a + b == a;
    } else {
      var init := b[..|b| - 1];
      ProcessConcat(register, a, init);
      assert (a + b)[..|a + b| - 1] == a + init;
    }
  }

  lemma ProcessNothing(register: Register)
    ensures Process(register, []) == register
  {}

  /** One more chunk of a file that has been read up to `from`. */
  lemma ProcessChunk(register: Register, file: seq<Byte>, from: nat, to: nat)
    requires from <= to <= |file|
    ensures Process(Process(register, file[..from]), file[from..to]) == Process(register, file[..to])
  {
    ProcessConcat(register, file[..from], file[from..to]);
    assert file[..from] + file[from..to] == file[..to];
  }

  /** The register after reading some chunks one after the other. */
  function ProcessChunks(register: Register, chunks: seq<seq<Byte>>): Register {
    if chunks == [] then register
    else Process(ProcessChunks(register, chunks[..|chunks| - 1]), chunks[|chunks| - 1])
  }

  /** However a file is cut into chunks, the checksum is that of the whole file. */
  lemma {:induction false} ChunkingIsIrrelevant(register: Register, chunks: seq<seq<Byte>>)
    ensures ProcessChunks(register, chunks) == Process(register, Flatten(chunks))
  {
    if chunks != [] {
      var init := chunks[..|chunks| - 1];
      ChunkingIsIrrelevant(register, init);
      ProcessConcat(register, Flatten(init), chunks[|chunks| - 1]);
    }
  }

  /** An empty file has the checksum that an unset protobuf field reads as. */
  lemma EmptyChecksum()
    ensures Checksum([]) == 0
  {}

  /** The register after the single byte `1`, worked out by hand: fixes polynomial and bit order. */
  lemma ShiftOfOne()
    ensures Step(0, 1) == 0x7707_3096
  {
    assert Shift(1, 8) == Shift(0xEDB8_8320, 7) == Shift(0x76DC_4190, 6) == Shift(0x3B6E_20C8, 5);
    assert Shift(0x3B6E_20C8, 5) == Shift(0x1DB7_1064, 4) == Shift(0x0EDB_8832, 3) == Shift(0x076D_C419, 2);
    assert Shift(0x076D_C419, 2) == Shift(0xEE0E_612C, 1) == Shift(0x7707_3096, 0);
  }

  /** Two one-byte files, worked out by hand. */
  lemma ChecksumsOfOneByte()
    ensures Checksum([0]) == 0xD202_EF8D && Checksum([1]) == 0xA505_DF1B
  {
    assert Process(MASK, [0]) == Shift(MASK, 8) && Process(MASK, [1]) == Shift(0xFFFF_FFFE, 8);
    assert Shift(0xFFFF_FFFF, 8) == Shift(0x9247_7CDF, 7)
        == Shift(0xA49B_3D4F, 6) == Shift(0xBFF5_1D87, 5) == Shift(0xB242_0DE3, 4);
    assert Shift(0xB242_0DE3, 4) == Shift(0xB499_85D1, 3)
        == Shift(0xB7F4_41C8, 2) == Shift(0x5BFA_20E4, 1) == Shift(0x2DFD_1072, 0);
    assert Shift(0xFFFF_FFFE, 8) == Shift(0x7FFF_FFFF, 7)
        == Shift(0xD247_7CDF, 6) == Shift(0x849B_3D4F, 5) == Shift(0xAFF5_1D87, 4);
    assert Shift(0xAFF5_1D87, 4) == Shift(0xBA42_0DE3, 3)
        == Shift(0xB099_85D1, 2) == Shift(0xB5F4_41C8, 1) == Shift(0x5AFA_20E4, 0);
  }

  // ---------- what a checksum notices ----------

  /** A step of the shift register can be undone: its top bit says whether the polynomial was added. */
  function UnshiftOnce(register: Register): Register {
    if register >> 31 == 1 then ((register ^ POLYNOMIAL) << 1) | 1 else register << 1
  }

  lemma UnshiftInverts(register: Register)
    ensures UnshiftOnce(ShiftOnce(register)) == register
  {}

  lemma {:induction false} ShiftInjective(a: Register, b: Register, n: nat)
    requires Shift(a, n) == Shift(b, n)
    ensures a == b
    decreases n
  {
    hide ShiftOnce, UnshiftOnce;
    if n > 0 {
      ShiftInjective(ShiftOnce(a), ShiftOnce(b), n - 1);
      UnshiftInverts(a);
      UnshiftInverts(b);
    }
  }

  lemma XorInjective(a: Register, b: Register, c: Register)
    requires Xor(a, c) == Xor(b, c)
    ensures a == b
  {}

  lemma {:induction false} ProcessInjective(a: Register, b: Register, bytes: seq<Byte>)
    requires Process(a, bytes) == Process(b, bytes)
    ensures a == b
  {
    hide Step;
    if bytes != [] {
      var init, last := bytes[..|bytes| - 1], bytes[|bytes| - 1];
      StepInjective(Process(a, init), Process(b, init), last);
      ProcessInjective(a, b, init);
    }
  }

  lemma StepInjective(a: Register, b: Register, last: Byte)
    requires Step(a, last) == Step(b, last)
    ensures a == b
  {
    hide Shift, Xor;
    ShiftInjective(Xor(a, last as bv32), Xor(b, last as bv32), 8);
    XorInjective(a, b, last as bv32);
  }

  /** Changing a single byte of a file, wherever it is, changes the checksum. */
  lemma OneByteIsNoticed(before: seq<Byte>, a: Byte, b: Byte, after: seq<Byte>)
    requires Checksum(before + [a] + after) == Checksum(before + [b] + after)
    ensures a == b
  {
    hide Process, Final, Step;
    ProcessConcat(MASK, before + [a], after);
    ProcessConcat(MASK, before + [b], after);
    FinalInjective(Process(MASK, before + [a] + after), Process(MASK, before + [b] + after));
    ProcessInjective(Process(MASK, before + [a]), Process(MASK, before + [b]), after);
    ProcessLast(before, a);
    ProcessLast(before, b);
    StepNotices(Process(MASK, before), a, b);
  }

  lemma ProcessLast(before: seq<Byte>, last: Byte)
    ensures Process(MASK, before + [last]) == Step(Process(MASK, before), last)
  {
    assert (before + [last])[..|before|] == before;
  }

  lemma StepNotices(register: Register, a: Byte, b: Byte)
    requires Step(register, a) == Step(register, b)
    ensures a == b
  {
    hide Shift, Xor;
    ShiftInjective(Xor(register, a as bv32), Xor(register, b as bv32), 8);
    DistinctInputs(register, a, b);
  }

  lemma FinalInjective(a: Register, b: Register)
    requires Final(a) == Final(b)
    ensures a == b
  {}

  lemma DistinctInputs(register: Register, a: Byte, b: Byte)
    requires Xor(register, a as bv32) == Xor(register, b as bv32)
    ensures a == b
  {}

  // ---------- the check value ----------

  lemma ShiftEight(
      r0: Register, r1: Register, r2: Register, r3: Register, r4: Register,
      r5: Register, r6: Register, r7: Register, r8: Register)
    requires r1 == ShiftOnce(r0) && r2 == ShiftOnce(r1) && r3 == ShiftOnce(r2) && r4 == ShiftOnce(r3)
    requires r5 == ShiftOnce(r4) && r6 == ShiftOnce(r5) && r7 == ShiftOnce(r6) && r8 == ShiftOnce(r7)
    ensures Shift(r0, 8) == r8
  {
    hide ShiftOnce;
    assert Shift(r0, 8) == Shift(r1, 7) == Shift(r2, 6) == Shift(r3, 5) == Shift(r4, 4);
    assert Shift(r4, 4) == Shift(r5, 3) == Shift(r6, 2) == Shift(r7, 1) == Shift(r8, 0);
  }

  /** One more byte, the intermediate registers given. */
  lemma ReadByte(
      before: seq<Byte>, register: Register, b: Byte, after: seq<Byte>, r0: Register, r1: Register, r2: Register,
      r3: Register, r4: Register, r5: Register, r6: Register, r7: Register, r8: Register)
    requires Process(MASK, before) == register && after == before + [b] && Xor(register, b as bv32) == r0
    requires r1 == ShiftOnce(r0) && r2 == ShiftOnce(r1) && r3 == ShiftOnce(r2) && r4 == ShiftOnce(r3)
    requires r5 == ShiftOnce(r4) && r6 == ShiftOnce(r5) && r7 == ShiftOnce(r6) && r8 == ShiftOnce(r7)
    ensures Process(MASK, after) == r8
  {
    hide ShiftOnce, Shift, Xor;
    ShiftEight(r0, r1, r2, r3, r4, r5, r6, r7, r8);
    ProcessLast(before, b);
  }

  lemma FirstThree()
    ensures Process(MASK, [0x31, 0x32, 0x33]) == 0x77B7_9C2D
  {
    hide Shift, Step;
    ReadByte([], 0xFFFF_FFFF, 0x31, [0x31],
      0xFFFF_FFCE, 0x7FFF_FFE7, 0xD247_7CD3, 0x849B_3D49, 0xAFF5_1D84,
      0x57FA_8EC2, 0x2BFD_4761, 0xF846_2090, 0x7C23_1048);
    ReadByte([0x31], 0x7C23_1048, 0x32, [0x31, 0x32],
      0x7C23_107A, 0x3E11_883D, 0xF2B0_473E, 0x7958_239F, 0xD114_92EF,
      0x8532_CA57, 0xAF21_E60B, 0xBA28_7025, 0xB0AC_BB32);
    ReadByte([0x31, 0x32], 0xB0AC_BB32, 0x33, [0x31, 0x32, 0x33],
      0xB0AC_BB01, 0xB5EE_DEA0, 0x5AF7_6F50, 0x2D7B_B7A8, 0x16BD_DBD4,
      0x0B5E_EDEA, 0x05AF_76F5, 0xEF6F_385A, 0x77B7_9C2D);
  }

  lemma FirstSix()
    ensures Process(MASK, [0x31, 0x32, 0x33, 0x34, 0x35, 0x36]) == 0xF68D_2C9E
  {
    hide Shift, Step;
    FirstThree();
    ReadByte([0x31, 0x32, 0x33], 0x77B7_9C2D, 0x34, [0x31, 0x32, 0x33, 0x34],
      0x77B7_9C19, 0xD663_4D2C, 0x6B31_A696, 0x3598_D34B, 0xF774_EA85,
      0x9602_F662, 0x4B01_7B31, 0xC838_3EB8, 0x641C_1F5C);
    ReadByte([0x31, 0x32, 0x33, 0x34], 0x641C_1F5C, 0x35, [0x31, 0x32, 0x33, 0x34, 0x35],
      0x641C_1F69, 0xDFB6_8C94, 0x6FDB_464A, 0x37ED_A325, 0xF64E_52B2,
      0x7B27_2959, 0xD02B_178C, 0x6815_8BC6, 0x340A_C5E3);
    ReadByte([0x31, 0x32, 0x33, 0x34, 0x35], 0x340A_C5E3, 0x36, [0x31, 0x32, 0x33, 0x34, 0x35, 0x36],
      0x340A_C5D5, 0xF7BD_E1CA, 0x7BDE_F0E5, 0xD057_FB52, 0x682B_FDA9,
      0xD9AD_7DF4, 0x6CD6_BEFA, 0x366B_5F7D, 0xF68D_2C9E);
  }

  /** The check value that catalogues of checksums give for CRC-32: that of the text "123456789". */
  lemma CheckValue()
    ensures Checksum([0x31, 0x32, 0x33, 0x34, 0x35, 0x36, 0x37, 0x38, 0x39]) == 0xCBF4_3926
  {
    hide Shift, Step;
    FirstSix();
    ReadByte([0x31, 0x32, 0x33, 0x34, 0x35, 0x36], 0xF68D_2C9E, 0x37, [0x31, 0x32, 0x33, 0x34, 0x35, 0x36, 0x37],
      0xF68D_2CA9, 0x96FE_1574, 0x4B7F_0ABA, 0x25BF_855D, 0xFF67_418E,
      0x7FB3_A0C7, 0xD261_5343, 0x8488_2A81, 0xAFFC_9660);
    ReadByte([0x31, 0x32, 0x33, 0x34, 0x35, 0x36, 0x37], 0xAFFC_9660, 0x38,
      [0x31, 0x32, 0x33, 0x34, 0x35, 0x36, 0x37, 0x38],
      0xAFFC_9658, 0x57FE_4B2C, 0x2BFF_2596, 0x15FF_92CB, 0xE747_4A45,
      0x9E1B_2602, 0x4F0D_9301, 0xCA3E_4AA0, 0x651F_2550);
    ReadByte([0x31, 0x32, 0x33, 0x34, 0x35, 0x36, 0x37, 0x38], 0x651F_2550, 0x39,
      [0x31, 0x32, 0x33, 0x34, 0x35, 0x36, 0x37, 0x38, 0x39],
      0x651F_2569, 0xDF37_1194, 0x6F9B_88CA, 0x37CD_C465, 0xF65E_6112,
      0x7B2F_3089, 0xD02F_1B64, 0x6817_8DB2, 0x340B_C6D9);
  }
}
