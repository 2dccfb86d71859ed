/**
 CRC-32 of a group name: the table-driven loop against the definition that
 divides one bit at a time.
 */
module Crc {

  function Xor(a: bv32, b: bv32): bv32 { a ^ b }

  function LowByte(c: bv32): (r: bv32)
    ensures r <= 0xFF
  {
    c & 0xFF
  }

  function HighBytes(c: bv32): bv32 { c & 0xFFFFFF00 }

  function ShiftByte(c: bv32): bv32 { c >> 8 }

  // ---------- bit at a time

  /** One step of the reflected division by 0xEDB88320. */
  function BitStep(c: bv32): bv32 {
    if c & 1 == 1 then (c >> 1) ^ 0xEDB88320 else c >> 1
  }

  function Steps8(c: bv32): bv32 {
    BitStep(BitStep(BitStep(BitStep(BitStep(BitStep(BitStep(BitStep(c))))))))
  }

  /** The remainder after the bytes of `data`, each entering low bits first. */
  function Remainder(c: bv32, data: seq<bv8>): bv32
    decreases |data|
  {
    if data == [] then c else Steps8(Xor(Remainder(c, data[..|data| - 1]), data[|data| - 1] as bv32))
  }

  /** CRC-32: remainder from all ones, complemented. */
  function Crc32(data: seq<bv8>): bv32 {
    Xor(Remainder(0xFFFFFFFF, data), 0xFFFFFFFF)
  }

  // ---------- the table, in rows of sixteen entries

  const ROW0: seq<bv32> := [
    0x00000000, 0x77073096, 0xee0e612c, 0x990951ba, 0x076dc419, 0x706af48f, 0xe963a535, 0x9e6495a3,
    0x0edb8832, 0x79dcb8a4, 0xe0d5e91e, 0x97d2d988, 0x09b64c2b, 0x7eb17cbd, 0xe7b82d07, 0x90bf1d91]

  const ROW1: seq<bv32> := [
    0x1db71064, 0x6ab020f2, 0xf3b97148, 0x84be41de, 0x1adad47d, 0x6ddde4eb, 0xf4d4b551, 0x83d385c7,
    0x136c9856, 0x646ba8c0, 0xfd62f97a, 0x8a65c9ec, 0x14015c4f, 0x63066cd9, 0xfa0f3d63, 0x8d080df5]

  const ROW2: seq<bv32> := [
    0x3b6e20c8, 0x4c69105e, 0xd56041e4, 0xa2677172, 0x3c03e4d1, 0x4b04d447, 0xd20d85fd, 0xa50ab56b,
    0x35b5a8fa, 0x42b2986c, 0xdbbbc9d6, 0xacbcf940, 0x32d86ce3, 0x45df5c75, 0xdcd60dcf, 0xabd13d59]

  const ROW3: seq<bv32> := [
    0x26d930ac, 0x51de003a, 0xc8d75180, 0xbfd06116, 0x21b4f4b5, 0x56b3c423, 0xcfba9599, 0xb8bda50f,
    0x2802b89e, 0x5f058808, 0xc60cd9b2, 0xb10be924, 0x2f6f7c87, 0x58684c11, 0xc1611dab, 0xb6662d3d]

  const ROW4: seq<bv32> := [
    0x76dc4190, 0x01db7106, 0x98d220bc, 0xefd5102a, 0x71b18589, 0x06b6b51f, 0x9fbfe4a5, 0xe8b8d433,
    0x7807c9a2, 0x0f00f934, 0x9609a88e, 0xe10e9818, 0x7f6a0dbb, 0x086d3d2d, 0x91646c97, 0xe6635c01]

  const ROW5: seq<bv32> := [
    0x6b6b51f4, 0x1c6c6162, 0x856530d8, 0xf262004e, 0x6c0695ed, 0x1b01a57b, 0x8208f4c1, 0xf50fc457,
    0x65b0d9c6, 0x12b7e950, 0x8bbeb8ea, 0xfcb9887c, 0x62dd1ddf, 0x15da2d49, 0x8cd37cf3, 0xfbd44c65]

  const ROW6: seq<bv32> := [
    0x4db26158, 0x3ab551ce, 0xa3bc0074, 0xd4bb30e2, 0x4adfa541, 0x3dd895d7, 0xa4d1c46d, 0xd3d6f4fb,
    0x4369e96a, 0x346ed9fc, 0xad678846, 0xda60b8d0, 0x44042d73, 0x33031de5, 0xaa0a4c5f, 0xdd0d7cc9]

  const ROW7: seq<bv32> := [
    0x5005713c, 0x270241aa, 0xbe0b1010, 0xc90c2086, 0x5768b525, 0x206f85b3, 0xb966d409, 0xce61e49f,
    0x5edef90e, 0x29d9c998, 0xb0d09822, 0xc7d7a8b4, 0x59b33d17, 0x2eb40d81, 0xb7bd5c3b, 0xc0ba6cad]

  const ROW8: seq<bv32> := [
    0xedb88320, 0x9abfb3b6, 0x03b6e20c, 0x74b1d29a, 0xead54739, 0x9dd277af, 0x04db2615, 0x73dc1683,
    0xe3630b12, 0x94643b84, 0x0d6d6a3e, 0x7a6a5aa8, 0xe40ecf0b, 0x9309ff9d, 0x0a00ae27, 0x7d079eb1]

  const ROW9: seq<bv32> := [
    0xf00f9344, 0x8708a3d2, 0x1e01f268, 0x6906c2fe, 0xf762575d, 0x806567cb, 0x196c3671, 0x6e6b06e7,
    0xfed41b76, 0x89d32be0, 0x10da7a5a, 0x67dd4acc, 0xf9b9df6f, 0x8ebeeff9, 0x17b7be43, 0x60b08ed5]

  const ROW10: seq<bv32> := [
    0xd6d6a3e8, 0xa1d1937e, 0x38d8c2c4, 0x4fdff252, 0xd1bb67f1, 0xa6bc5767, 0x3fb506dd, 0x48b2364b,
    0xd80d2bda, 0xaf0a1b4c, 0x36034af6, 0x41047a60, 0xdf60efc3, 0xa867df55, 0x316e8eef, 0x4669be79]

  const ROW11: seq<bv32> := [
    0xcb61b38c, 0xbc66831a, 0x256fd2a0, 0x5268e236, 0xcc0c7795, 0xbb0b4703, 0x220216b9, 0x5505262f,
    0xc5ba3bbe, 0xb2bd0b28, 0x2bb45a92, 0x5cb36a04, 0xc2d7ffa7, 0xb5d0cf31, 0x2cd99e8b, 0x5bdeae1d]

  const ROW12: seq<bv32> := [
    0x9b64c2b0, 0xec63f226, 0x756aa39c, 0x026d930a, 0x9c0906a9, 0xeb0e363f, 0x72076785, 0x05005713,
    0x95bf4a82, 0xe2b87a14, 0x7bb12bae, 0x0cb61b38, 0x92d28e9b, 0xe5d5be0d, 0x7cdcefb7, 0x0bdbdf21]

  const ROW13: seq<bv32> := [
    0x86d3d2d4, 0xf1d4e242, 0x68ddb3f8, 0x1fda836e, 0x81be16cd, 0xf6b9265b, 0x6fb077e1, 0x18b74777,
    0x88085ae6, 0xff0f6a70, 0x66063bca, 0x11010b5c, 0x8f659eff, 0xf862ae69, 0x616bffd3, 0x166ccf45]

  const ROW14: seq<bv32> := [
    0xa00ae278, 0xd70dd2ee, 0x4e048354, 0x3903b3c2, 0xa7672661, 0xd06016f7, 0x4969474d, 0x3e6e77db,
    0xaed16a4a, 0xd9d65adc, 0x40df0b66, 0x37d83bf0, 0xa9bcae53, 0xdebb9ec5, 0x47b2cf7f, 0x30b5ffe9]

  const ROW15: seq<bv32> := [
    0xbdbdf21c, 0xcabac28a, 0x53b39330, 0x24b4a3a6, 0xbad03605, 0xcdd70693, 0x54de5729, 0x23d967bf,
    0xb3667a2e, 0xc4614ab8, 0x5d681b02, 0x2a6f2b94, 0xb40bbe37, 0xc30c8ea1, 0x5a05df1b, 0x2d02ef8d]

  const ROWS: seq<seq<bv32>> := [
    ROW0, ROW1, ROW2, ROW3, ROW4, ROW5, ROW6, ROW7, ROW8, ROW9, ROW10, ROW11, ROW12, ROW13, ROW14, ROW15]

  /** Entry `x` of the table: row `x >> 4`, column `x & 15`. */
  function TableAt(x: bv32): bv32
    requires x <= 0xFF
  {
    RowAt(x);
    ROWS[(x >> 4) as int][(x & 15) as int]
  }

  lemma RowAt(x: bv32)
    requires x <= 0xFF
    ensures 0 <= (x >> 4) as int < 16 && 0 <= (x & 15) as int < 16 && |ROWS[(x >> 4) as int]| == 16
  {
    assert (x >> 4) <= 15 && (x & 15) <= 15;
  }

  lemma LowEntries(x: bv32)
    requires x <= 15
    ensures Steps8(x) == ROW0[x as int]
  {
  }

  lemma HighEntries(x: bv32)
    requires x <= 0xF0 && x & 15 == 0
    ensures Steps8(x) == ROWS[(x >> 4) as int][0]
  {
  }

  /** The row is the first one shifted by its own first entry. */
  predicate IsShifted(row: seq<bv32>) {
    |row| == 16 &&
    row[0] == Xor(row[0], 0x00000000) && row[1] == Xor(row[0], 0x77073096) &&
    row[2] == Xor(row[0], 0xee0e612c) && row[3] == Xor(row[0], 0x990951ba) &&
    row[4] == Xor(row[0], 0x076dc419) && row[5] == Xor(row[0], 0x706af48f) &&
    row[6] == Xor(row[0], 0xe963a535) && row[7] == Xor(row[0], 0x9e6495a3) &&
    row[8] == Xor(row[0], 0x0edb8832) && row[9] == Xor(row[0], 0x79dcb8a4) &&
    row[10] == Xor(row[0], 0xe0d5e91e) && row[11] == Xor(row[0], 0x97d2d988) &&
    row[12] == Xor(row[0], 0x09b64c2b) && row[13] == Xor(row[0], 0x7eb17cbd) &&
    row[14] == Xor(row[0], 0xe7b82d07) && row[15] == Xor(row[0], 0x90bf1d91)
  }

  lemma Shifted0()
    ensures IsShifted(ROW0) && IsShifted(ROW1) && IsShifted(ROW2) && IsShifted(ROW3)
  {
  }

  lemma Shifted4()
    ensures IsShifted(ROW4) && IsShifted(ROW5) && IsShifted(ROW6) && IsShifted(ROW7)
  {
  }

  lemma Shifted8()
    ensures IsShifted(ROW8) && IsShifted(ROW9) && IsShifted(ROW10) && IsShifted(ROW11)
  {
  }

  lemma Shifted12()
    ensures IsShifted(ROW12) && IsShifted(ROW13) && IsShifted(ROW14) && IsShifted(ROW15)
  {
  }

  lemma RowShape(k: nat)
    requires k < 16
    ensures IsShifted(ROWS[k])
  {
    hide IsShifted;
    Shifted0();
    Shifted4();
    Shifted8();
    Shifted12();
  }

  lemma ShiftedAt(row: seq<bv32>, j: nat)
    requires IsShifted(row) && j < 16
    ensures row[j] == Xor(row[0], ROW0[j])
  {
    hide Xor;
  }

  // ---------- linearity

  lemma XorFacts(a: bv32, b: bv32, c: bv32)
    ensures (a ^ b) >> 1 == (a >> 1) ^ (b >> 1)
    ensures (a ^ b) & 1 == (a & 1) ^ (b & 1)
    ensures a & 1 == 0 || a & 1 == 1
    ensures (a ^ c) ^ (b ^ c) == a ^ b && (a ^ c) ^ b == (a ^ b) ^ c && a ^ (b ^ c) == (a ^ b) ^ c
  {
  }

  lemma StepLinear(a: bv32, b: bv32)
    ensures BitStep(Xor(a, b)) == Xor(BitStep(a), BitStep(b))
  {
    XorFacts(a, b, 0xEDB88320);
    XorFacts(b, a, 0xEDB88320);
    XorFacts(a >> 1, b >> 1, 0xEDB88320);
  }

  lemma Steps8Linear(a: bv32, b: bv32)
    ensures Steps8(Xor(a, b)) == Xor(Steps8(a), Steps8(b))
  {
    hide BitStep, Xor;
    var a1, b1 := BitStep(a), BitStep(b);
    var a2, b2 := BitStep(a1), BitStep(b1);
    var a3, b3 := BitStep(a2), BitStep(b2);
    var a4, b4 := BitStep(a3), BitStep(b3);
    var a5, b5 := BitStep(a4), BitStep(b4);
    var a6, b6 := BitStep(a5), BitStep(b5);
    var a7, b7 := BitStep(a6), BitStep(b6);
    StepLinear(a, b);
    StepLinear(a1, b1);
    StepLinear(a2, b2);
    StepLinear(a3, b3);
    StepLinear(a4, b4);
    StepLinear(a5, b5);
    StepLinear(a6, b6);
    StepLinear(a7, b7);
  }

  lemma NibbleFacts(x: bv32)
    requires x <= 0xFF
    ensures x == Xor(x & 0xF0, x & 15) && (x & 0xF0) <= 0xF0 && (x & 0xF0) & 15 == 0 && (x & 15) <= 15
    ensures (x & 0xF0) >> 4 == x >> 4
  {
  }

  /** Every one of the 256 entries is the remainder of its index. */
  lemma TableEntries(x: bv32)
    requires x <= 0xFF
    ensures TableAt(x) == Steps8(x)
  {
    hide Steps8, IsShifted, Xor;
    var hi, lo := x & 0xF0, x & 15;
    NibbleFacts(x);
    RowAt(x);
    var k, j := (x >> 4) as int, lo as int;
    Steps8Linear(hi, lo);
    HighEntries(hi);
    LowEntries(lo);
    RowShape(k);
    ShiftedAt(ROWS[k], j);
  }

  function Half(c: bv32): bv32 { c >> 1 }

  predicate Even(c: bv32) { c & 1 == 0 }

  lemma StepEven(c: bv32)
    requires Even(c)
    ensures BitStep(c) == Half(c)
  {
  }

  lemma HighEven(c: bv32)
    ensures var d0 := HighBytes(c);
            var d1, d2, d3 := Half(d0), Half(Half(d0)), Half(Half(Half(d0)));
            var d4 := Half(d3);
            var d5, d6, d7 := Half(d4), Half(Half(d4)), Half(Half(Half(d4)));
            && Even(d0) && Even(d1) && Even(d2) && Even(d3) && Even(d4) && Even(d5) && Even(d6) && Even(d7)
            && Half(d7) == ShiftByte(c)
  {
  }

  /** Eight steps on zero bits are a shift by eight. */
  lemma Steps8High(c: bv32)
    ensures Steps8(HighBytes(c)) == ShiftByte(c)
  {
    hide BitStep, Half, Even, HighBytes, ShiftByte;
    HighEven(c);
    var d := HighBytes(c);
    StepEven(d);
    StepEven(Half(d));
    StepEven(Half(Half(d)));
    StepEven(Half(Half(Half(d))));
    d := Half(Half(Half(Half(d))));
    StepEven(d);
    StepEven(Half(d));
    StepEven(Half(Half(d)));
    StepEven(Half(Half(Half(d))));
  }

  lemma SplitByte(c: bv32)
    ensures c == Xor(LowByte(c), HighBytes(c))
  {
  }

  lemma ShiftXor(c: bv32, b: bv32)
    requires b <= 0xFF
    ensures ShiftByte(Xor(c, b)) == ShiftByte(c)
  {
  }

  /** One round of the table loop is eight bit steps. */
  lemma RoundIsSteps(c: bv32, b: bv32)
    requires b <= 0xFF
    ensures Xor(TableAt(LowByte(Xor(c, b))), ShiftByte(c)) == Steps8(Xor(c, b))
  {
    hide Steps8, TableAt, Xor, LowByte, HighBytes, ShiftByte;
    var x := Xor(c, b);
    SplitByte(x);
    ShiftXor(c, b);
    TableEntries(LowByte(x));
    Steps8High(x);
    Steps8Linear(LowByte(x), HighBytes(x));
  }

  /** The table loop computes CRC-32 of every byte string. */
  method CpgnameToCrc(data: seq<bv8>) returns (hash: bv32)
    ensures hash == Crc32(data)
  {
    hide Steps8, TableAt, Xor, LowByte, ShiftByte;
    hash := 0xFFFFFFFF;
    var i := 0;
    while i < |data|
      invariant 0 <= i <= |data| && hash == Remainder(0xFFFFFFFF, data[..i])
    {
      ByteRange(data[i]);
      RoundIsSteps(hash, data[i] as bv32);
      assert data[..i + 1][..i] == data[..i];
      hash := Xor(TableAt(LowByte(Xor(hash, data[i] as bv32))), ShiftByte(hash));
      i := i + 1;
    }
    assert data[..i] == data;
    Complement(hash);
    hash := !hash;
  }

  lemma ByteRange(b: bv8)
    ensures (b as bv32) <= 0xFF
  {
  }

  lemma Complement(c: bv32)
    ensures !c == Xor(c, 0xFFFFFFFF)
  {
  }

  // ---------- what the sum tells apart

  /** The bit step undone: the polynomial's top bit shows which branch was taken. */
  function UndoStep(d: bv32): bv32 {
    if d & 0x80000000 != 0 then ((d ^ 0xEDB88320) << 1) | 1 else d << 1
  }

  lemma StepUndone(c: bv32)
    ensures UndoStep(BitStep(c)) == c
  {
    UndoFacts(c);
  }

  lemma UndoFacts(c: bv32)
    ensures (c >> 1) & 0x80000000 == 0
    ensures ((c >> 1) ^ 0xEDB88320) & 0x80000000 != 0
    ensures ((c >> 1) ^ 0xEDB88320) ^ 0xEDB88320 == c >> 1
    ensures c & 1 == 1 ==> ((c >> 1) << 1) | 1 == c
    ensures c & 1 != 1 ==> (c >> 1) << 1 == c
  {
  }

  lemma Steps8Injective(a: bv32, b: bv32)
    requires Steps8(a) == Steps8(b)
    ensures a == b
  {
    hide BitStep, UndoStep;
    var a1, b1 := BitStep(a), BitStep(b);
    var a2, b2 := BitStep(a1), BitStep(b1);
    var a3, b3 := BitStep(a2), BitStep(b2);
    var a4, b4 := BitStep(a3), BitStep(b3);
    var a5, b5 := BitStep(a4), BitStep(b4);
    var a6, b6 := BitStep(a5), BitStep(b5);
    var a7, b7 := BitStep(a6), BitStep(b6);
    StepUndone(a7);
    StepUndone(b7);
    StepUndone(a6);
    StepUndone(b6);
    StepUndone(a5);
    StepUndone(b5);
    StepUndone(a4);
    StepUndone(b4);
    StepUndone(a3);
    StepUndone(b3);
    StepUndone(a2);
    StepUndone(b2);
    StepUndone(a1);
    StepUndone(b1);
    StepUndone(a);
    StepUndone(b);
  }

  lemma XorCancel(a: bv32, b: bv32, c: bv32)
    ensures Xor(a, c) == Xor(b, c) ==> a == b
    ensures Xor(c, a) == Xor(c, b) ==> a == b
    ensures Xor(Xor(a, b), c) == Xor(a, Xor(b, c))
  {
  }

  /** Common bytes at the end keep two different remainders apart. */
  lemma {:induction false} TailKeepsApart(a: bv32, b: bv32, data: seq<bv8>)
    requires a != b
    ensures Remainder(a, data) != Remainder(b, data)
    decreases |data|
  {
    hide Steps8, Xor;
    if data != [] {
      var front, last := data[..|data| - 1], data[|data| - 1] as bv32;
      TailKeepsApart(a, b, front);
      var x, y := Remainder(a, front), Remainder(b, front);
      if Steps8(Xor(x, last)) == Steps8(Xor(y, last)) {
        Steps8Injective(Xor(x, last), Xor(y, last));
        XorCancel(x, y, last);
      }
    }
  }

  lemma {:induction false} RemainderConcat(c: bv32, a: seq<bv8>, b: seq<bv8>)
    ensures Remainder(c, a + b) == Remainder(Remainder(c, a), b)
    decreases |b|
  {
    hide Steps8, Xor;
    if b == [] {
      assert a + b == a;
    } else {
      assert (a + b)[..|a + b| - 1] == a + b[..|b| - 1];
      RemainderConcat(c, a, b[..|b| - 1]);
    }
  }

  /** A later byte enters eight bits further up. */
  function Up8(b: bv32): bv32 { b << 8 }

  lemma UpIsHigh(b: bv32)
    ensures HighBytes(Up8(b)) == Up8(b)
    ensures b <= 0xFFFFFF ==> ShiftByte(Up8(b)) == b
  {
  }

  lemma ByteLater(x: bv32, b: bv32)
    requires b <= 0xFFFFFF
    ensures Xor(Steps8(x), b) == Steps8(Xor(x, Up8(b)))
  {
    hide Steps8, Xor, Up8, HighBytes, ShiftByte;
    UpIsHigh(b);
    Steps8High(Up8(b));
    Steps8Linear(x, Up8(b));
  }

  /** Four bytes as the 32-bit word they enter as. */
  function Word(w: seq<bv8>): bv32
    requires |w| == 4
  {
    Join(w[0] as bv32, Join(w[1] as bv32, Join(w[2] as bv32, w[3] as bv32)))
  }

  function Steps32(c: bv32): bv32 {
    Steps8(Steps8(Steps8(Steps8(c))))
  }

  function Join(b: bv32, rest: bv32): bv32 { Xor(b, Up8(rest)) }

  lemma JoinFacts(b: bv32, rest: bv32)
    requires b <= 0xFF
    ensures rest <= 0xFF ==> Join(b, rest) <= 0xFFFF
    ensures rest <= 0xFFFF ==> Join(b, rest) <= 0xFFFFFF
    ensures LowByte(Join(b, rest)) == b
    ensures rest <= 0xFFFFFF ==> ShiftByte(Join(b, rest)) == rest
  {
  }

  lemma StepJoin(c: bv32, b: bv32, rest: bv32)
    requires b <= 0xFF && rest <= 0xFFFFFF
    ensures Steps8(Xor(c, Join(b, rest))) == Xor(Steps8(Xor(c, b)), rest)
  {
    hide Steps8, Xor, Up8;
    XorCancel(c, b, Up8(rest));
    ByteLater(Xor(c, b), rest);
  }

  lemma RemainderNext(c: bv32, data: seq<bv8>, b: bv8)
    ensures Remainder(c, data + [b]) == Steps8(Xor(Remainder(c, data), b as bv32))
  {
    hide Steps8, Xor;
    assert (data + [b])[..|data|] == data;
  }

  /** Four bytes enter like one 32-bit word. */
  lemma FourBytes(c: bv32, w: seq<bv8>)
    requires |w| == 4
    ensures Remainder(c, w) == Steps32(Xor(c, Word(w)))
  {
    hide Steps8, Xor, Join;
    var b0, b1, b2, b3 := w[0] as bv32, w[1] as bv32, w[2] as bv32, w[3] as bv32;
    ByteRange(w[0]);
    ByteRange(w[1]);
    ByteRange(w[2]);
    ByteRange(w[3]);
    var w2 := Join(b2, b3);
    var w1 := Join(b1, w2);
    JoinFacts(b2, b3);
    JoinFacts(b1, w2);
    assert w[..1] == [] + [w[0]] && w[..2] == w[..1] + [w[1]] && w[..3] == w[..2] + [w[2]] && w == w[..3] + [w[3]];
    RemainderNext(c, [], w[0]);
    RemainderNext(c, w[..1], w[1]);
    RemainderNext(c, w[..2], w[2]);
    RemainderNext(c, w[..3], w[3]);
    StepJoin(c, b0, w1);
    StepJoin(Remainder(c, w[..1]), b1, w2);
    StepJoin(Remainder(c, w[..2]), b2, b3);
  }

  lemma JoinInjective(a: bv32, ra: bv32, b: bv32, rb: bv32)
    requires a <= 0xFF && b <= 0xFF && ra <= 0xFFFFFF && rb <= 0xFFFFFF && Join(a, ra) == Join(b, rb)
    ensures a == b && ra == rb
  {
    hide Join, LowByte, ShiftByte;
    JoinFacts(a, ra);
    JoinFacts(b, rb);
  }

  lemma ByteInjective(a: bv8, b: bv8)
    ensures a as bv32 == b as bv32 ==> a == b
  {
  }

  lemma WordInjective(w: seq<bv8>, v: seq<bv8>)
    requires |w| == |v| == 4 && Word(w) == Word(v)
    ensures w == v
  {
    hide Join;
    forall i | 0 <= i < 4 ensures (w[i] as bv32) <= 0xFF && (v[i] as bv32) <= 0xFF &&
      (w[i] as bv32 == v[i] as bv32 ==> w[i] == v[i])
    {
      ByteRange(w[i]);
      ByteRange(v[i]);
      ByteInjective(w[i], v[i]);
    }
    var w2, v2 := Join(w[2] as bv32, w[3] as bv32), Join(v[2] as bv32, v[3] as bv32);
    JoinFacts(w[2] as bv32, w[3] as bv32);
    JoinFacts(v[2] as bv32, v[3] as bv32);
    JoinFacts(w[1] as bv32, w2);
    JoinFacts(v[1] as bv32, v2);
    JoinInjective(w[0] as bv32, Join(w[1] as bv32, w2), v[0] as bv32, Join(v[1] as bv32, v2));
    JoinInjective(w[1] as bv32, w2, v[1] as bv32, v2);
    JoinInjective(w[2] as bv32, w[3] as bv32, v[2] as bv32, v[3] as bv32);
  }

  lemma Steps32Injective(a: bv32, b: bv32)
    requires Steps32(a) == Steps32(b)
    ensures a == b
  {
    hide Steps8;
    Steps8Injective(Steps8(Steps8(Steps8(a))), Steps8(Steps8(Steps8(b))));
    Steps8Injective(Steps8(Steps8(a)), Steps8(Steps8(b)));
    Steps8Injective(Steps8(a), Steps8(b));
    Steps8Injective(a, b);
  }

  /** Names of equal length that differ only within four neighbouring bytes never
      share a CRC. */
  lemma NeighboursDiffer(before: seq<bv8>, w: seq<bv8>, v: seq<bv8>, after: seq<bv8>)
    requires |w| == |v| == 4 && w != v
    ensures Crc32(before + w + after) != Crc32(before + v + after)
  {
    hide Steps32, Xor, Remainder, Word;
    var c := Remainder(0xFFFFFFFF, before);
    RemainderConcat(0xFFFFFFFF, before + w, after);
    RemainderConcat(0xFFFFFFFF, before + v, after);
    RemainderConcat(0xFFFFFFFF, before, w);
    RemainderConcat(0xFFFFFFFF, before, v);
    FourBytes(c, w);
    FourBytes(c, v);
    var x, y := Remainder(c, w), Remainder(c, v);
    if x == y {
      Steps32Injective(Xor(c, Word(w)), Xor(c, Word(v)));
      XorCancel(Word(w), Word(v), c);
      WordInjective(w, v);
      assert false;
    }
    TailKeepsApart(x, y, after);
    XorCancel(Remainder(x, after), Remainder(y, after), 0xFFFFFFFF);
  }
}
