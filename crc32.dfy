/** `hash(v)` of the provider: the CRC-32 checksum with the IEEE 802.3 polynomial
    (`crc32.ChecksumIEEE`) of the UTF-8 bytes of a string, widened to Go's 64-bit `int`. */
module Crc32 {

  /** The IEEE 802.3 generator polynomial in the bit-reversed form the checksum uses. */
  const POLYNOMIAL: bv32 := 0xEDB8_8320

  /** The UTF-8 encoding of one Unicode scalar value (`[]byte(v)` on a Go string). */
  function Utf8(c: char): (bytes: seq<bv8>)
    ensures 1 <= |bytes| <= 4
    ensures (c as int < 0x80) <==> |bytes| == 1
  {
    var n := c as int;
    if n < 0x80 then [n as bv8]
    else if n < 0x800 then
      [(0xC0 + n / 0x40) as bv8, (0x80 + n % 0x40) as bv8]
    else if n < 0x1_0000 then
      [(0xE0 + n / 0x1000) as bv8, (0x80 + n / 0x40 % 0x40) as bv8, (0x80 + n % 0x40) as bv8]
    else
      [(0xF0 + n / 0x4_0000) as bv8, (0x80 + n / 0x1000 % 0x40) as bv8,
       (0x80 + n / 0x40 % 0x40) as bv8, (0x80 + n % 0x40) as bv8]
  }

  function EncodeUtf8(s: string): seq<bv8>
    decreases |s|
  {
    if s == [] then [] else EncodeUtf8(s[..|s| - 1]) + Utf8(s[|s| - 1])
  }

  /** One round of the reflected shift register: shift right, and fold the polynomial in when
      the bit shifted out was set. */
  function Step(crc: bv32): bv32
  {
    if crc & 1 == 1 then (crc >> 1) ^ POLYNOMIAL else crc >> 1
  }

  /** `k` rounds of the reflected shift-register step. */
  function ShiftRounds(crc: bv32, k: nat): bv32
    decreases k
  {
    if k == 0 then crc else ShiftRounds(Step(crc), k - 1)
  }

  function UpdateByte(crc: bv32, b: bv8): bv32
  {
    ShiftRounds(crc ^ (b as bv32), 8)
  }

  function Update(crc: bv32, bytes: seq<bv8>): bv32
    decreases |bytes|
  {
    if bytes == [] then crc
    else UpdateByte(Update(crc, bytes[..|bytes| - 1]), bytes[|bytes| - 1])
  }

  /** `crc32.ChecksumIEEE`: register preset to all ones, final complement. */
  function ChecksumIEEE(bytes: seq<bv8>): bv32
  {
    !Update(0xFFFF_FFFF, bytes)
  }

  /** The register is a running state: feeding two runs of bytes one after the other is
      feeding their concatenation, as `crc32.Update` promises. */
  lemma {:induction false} UpdateConcat(crc: bv32, a: seq<bv8>, b: seq<bv8>)
    ensures Update(crc, a + b) == Update(Update(crc, a), b)
    decreases |b|
  {
    if b == [] {
      assert a + b == a;
    } else {
      var n := |b| - 1;
      assert (a + b)[..|a + b| - 1] == a + b[..n];
      UpdateConcat(crc, a, b[..n]);
    }
  }

  /** The checksum of a string extended by one character continues the register of the
      string with the character's UTF-8 bytes. */
  lemma HashSnoc(s: string, c: char)
    ensures Hash(s + [c]) == (!Update(Update(0xFFFF_FFFF, EncodeUtf8(s)), Utf8(c))) as int
  {
    EncodeSnoc(s, c);
    UpdateConcat(0xFFFF_FFFF, EncodeUtf8(s), Utf8(c));
  }

  /** `hash(v)`: the checksum as a non-negative `int` below 2^32. */
  function Hash(s: string): (h: int)
    ensures 0 <= h < 0x1_0000_0000
  {
    ChecksumIEEE(EncodeUtf8(s)) as int
  }

  /** The empty string hashes to zero. */
  lemma HashOfEmpty()
    ensures Hash("") == 0
  {
  }

  lemma EncodeSnoc(s: string, c: char)
    ensures EncodeUtf8(s + [c]) == EncodeUtf8(s) + Utf8(c)
  {
    assert (s + [c])[..|s|] == s;
  }

  lemma UpdateSnoc(crc: bv32, bytes: seq<bv8>, b: bv8)
    ensures Update(crc, bytes + [b]) == UpdateByte(Update(crc, bytes), b)
  {
    assert (bytes + [b])[..|bytes|] == bytes;
  }

  /** The standard check value of CRC-32/IEEE: the nine ASCII digits "123456789". */
  lemma CheckValue()
    ensures Hash("123456789") == 0xCBF4_3926
  {
    DigitsEncoding();
    DigitsRegister();
  }

  lemma DigitsEncoding()
    ensures EncodeUtf8("123456789") == [0x31, 0x32, 0x33, 0x34, 0x35, 0x36, 0x37, 0x38, 0x39]
  {
    AsciiEncoding("123456789");
  }

  /** An ASCII string encodes to one byte per character, the character's code. */
  lemma {:induction false} AsciiEncoding(s: string)
    requires forall i :: 0 <= i < |s| ==> s[i] as int < 0x80
    ensures |EncodeUtf8(s)| == |s|
    ensures forall i :: 0 <= i < |s| ==> EncodeUtf8(s)[i] == s[i] as int as bv8
    decreases |s|
  {
    if s != [] {
      AsciiEncoding(s[..|s| - 1]);
    }
  }

  lemma DigitsRegister()
    ensures Update(0xFFFF_FFFF, [0x31, 0x32, 0x33, 0x34, 0x35, 0x36, 0x37, 0x38, 0x39]) == 0x340B_C6D9
  {
    RegisterAfterDigit9();
  }

  lemma RegisterAfterDigit1()
    ensures Update(0xFFFF_FFFF, [0x31]) == 0x7C23_1048
  {
    UpdateSnoc(0xFFFF_FFFF, [], 0x31);
    var before: seq<bv8>, after: seq<bv8> := [], [0x31];
    assert before + [0x31] == after;
    ShiftDigit1();
  }

  lemma RegisterAfterDigit2()
    ensures Update(0xFFFF_FFFF, [0x31, 0x32]) == 0xB0AC_BB32
  {
    RegisterAfterDigit1();
    UpdateSnoc(0xFFFF_FFFF, [0x31], 0x32);
    var before: seq<bv8>, after: seq<bv8> := [0x31], [0x31, 0x32];
    assert before + [0x32] == after;
    ShiftDigit2();
  }

  lemma RegisterAfterDigit3()
    ensures Update(0xFFFF_FFFF, [0x31, 0x32, 0x33]) == 0x77B7_9C2D
  {
    RegisterAfterDigit2();
    UpdateSnoc(0xFFFF_FFFF, [0x31, 0x32], 0x33);
    var before: seq<bv8>, after: seq<bv8> := [0x31, 0x32], [0x31, 0x32, 0x33];
    assert before + [0x33] == after;
    ShiftDigit3();
  }

  lemma RegisterAfterDigit4()
    ensures Update(0xFFFF_FFFF, [0x31, 0x32, 0x33, 0x34]) == 0x641C_1F5C
  {
    RegisterAfterDigit3();
    UpdateSnoc(0xFFFF_FFFF, [0x31, 0x32, 0x33], 0x34);
    var before: seq<bv8>, after: seq<bv8> := [0x31, 0x32, 0x33], [0x31, 0x32, 0x33, 0x34];
    assert before + [0x34] == after;
    ShiftDigit4();
  }

  lemma RegisterAfterDigit5()
    ensures Update(0xFFFF_FFFF, [0x31, 0x32, 0x33, 0x34, 0x35]) == 0x340A_C5E3
  {
    RegisterAfterDigit4();
    UpdateSnoc(0xFFFF_FFFF, [0x31, 0x32, 0x33, 0x34], 0x35);
    var before: seq<bv8>, after: seq<bv8> := [0x31, 0x32, 0x33, 0x34], [0x31, 0x32, 0x33, 0x34, 0x35];
    assert before + [0x35] == after;
    ShiftDigit5();
  }

  lemma RegisterAfterDigit6()
    ensures Update(0xFFFF_FFFF, [0x31, 0x32, 0x33, 0x34, 0x35, 0x36]) == 0xF68D_2C9E
  {
    RegisterAfterDigit5();
    UpdateSnoc(0xFFFF_FFFF, [0x31, 0x32, 0x33, 0x34, 0x35], 0x36);
    var before: seq<bv8>, after: seq<bv8> := [0x31, 0x32, 0x33, 0x34, 0x35], [0x31, 0x32, 0x33, 0x34, 0x35, 0x36];
    assert before + [0x36] == after;
    ShiftDigit6();
  }

  lemma RegisterAfterDigit7()
    ensures Update(0xFFFF_FFFF, [0x31, 0x32, 0x33, 0x34, 0x35, 0x36, 0x37]) == 0xAFFC_9660
  {
    RegisterAfterDigit6();
    UpdateSnoc(0xFFFF_FFFF, [0x31, 0x32, 0x33, 0x34, 0x35, 0x36], 0x37);
    var before: seq<bv8>, after: seq<bv8> := [0x31, 0x32, 0x33, 0x34, 0x35, 0x36], [0x31, 0x32, 0x33, 0x34, 0x35, 0x36, 0x37];
    assert before + [0x37] == after;
    ShiftDigit7();
  }

  lemma RegisterAfterDigit8()
    ensures Update(0xFFFF_FFFF, [0x31, 0x32, 0x33, 0x34, 0x35, 0x36, 0x37, 0x38]) == 0x651F_2550
  {
    RegisterAfterDigit7();
    UpdateSnoc(0xFFFF_FFFF, [0x31, 0x32, 0x33, 0x34, 0x35, 0x36, 0x37], 0x38);
    var before: seq<bv8>, after: seq<bv8> := [0x31, 0x32, 0x33, 0x34, 0x35, 0x36, 0x37], [0x31, 0x32, 0x33, 0x34, 0x35, 0x36, 0x37, 0x38];
    assert before + [0x38] == after;
    ShiftDigit8();
  }

  lemma RegisterAfterDigit9()
    ensures Update(0xFFFF_FFFF, [0x31, 0x32, 0x33, 0x34, 0x35, 0x36, 0x37, 0x38, 0x39]) == 0x340B_C6D9
  {
    RegisterAfterDigit8();
    UpdateSnoc(0xFFFF_FFFF, [0x31, 0x32, 0x33, 0x34, 0x35, 0x36, 0x37, 0x38], 0x39);
    var before: seq<bv8>, after: seq<bv8> := [0x31, 0x32, 0x33, 0x34, 0x35, 0x36, 0x37, 0x38], [0x31, 0x32, 0x33, 0x34, 0x35, 0x36, 0x37, 0x38, 0x39];
    assert before + [0x39] == after;
    ShiftDigit9();
  }

  lemma ShiftDigit1()
    ensures UpdateByte(0xFFFF_FFFF, 0x31) == 0x7C23_1048
  {
  }

  lemma ShiftDigit2()
    ensures UpdateByte(0x7C23_1048, 0x32) == 0xB0AC_BB32
  {
  }

  lemma ShiftDigit3()
    ensures UpdateByte(0xB0AC_BB32, 0x33) == 0x77B7_9C2D
  {
  }

  lemma ShiftDigit4()
    ensures UpdateByte(0x77B7_9C2D, 0x34) == 0x641C_1F5C
  {
  }

  lemma ShiftDigit5()
    ensures UpdateByte(0x641C_1F5C, 0x35) == 0x340A_C5E3
  {
  }

  lemma ShiftDigit6()
    ensures UpdateByte(0x340A_C5E3, 0x36) == 0xF68D_2C9E
  {
  }

  lemma ShiftDigit7()
    ensures UpdateByte(0xF68D_2C9E, 0x37) == 0xAFFC_9660
  {
  }

  lemma ShiftDigit8()
    ensures UpdateByte(0xAFFC_9660, 0x38) == 0x651F_2550
  {
  }

  lemma ShiftDigit9()
    ensures UpdateByte(0x651F_2550, 0x39) == 0x340B_C6D9
  {
  }
}
