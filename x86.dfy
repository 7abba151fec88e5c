/** The x86 encodings c_gen.cpp emits: little-endian 32-bit immediates and
    displacements, and the condition-code bytes of Jcc rel32 (0F 80+cc) and
    SETcc r/m8 (0F 90+cc) (Intel 64 and IA-32 Architectures Software
    Developer's Manual, Volume 2, Jcc, SETcc and Appendix B). */
module X86 {
  import opened Tokens
  import opened MachineInt

  type Byte = b: int | 0 <= b < 256

  /** append_int32: byte k is (value >> 8k) & 0xFF. An arithmetic right shift
      by 8 is a floor division by 256, which Dafny's / is for a positive
      divisor; & 0xFF is the non-negative remainder modulo 256. */
  function LE32(v: int): (b: seq<Byte>)
    ensures |b| == 4
  {
    [v % 256, (v / 256) % 256, (v / 256 / 256) % 256, (v / 256 / 256 / 256) % 256]
  }

  /** The unsigned value of four little-endian bytes. */
  function Unsigned32(b: seq<Byte>): (u: int)
    requires |b| == 4
    ensures 0 <= u < Two32
  {
    b[0] as int + 256 * (b[1] as int) + 0x1_0000 * (b[2] as int) + 0x100_0000 * (b[3] as int)
  }

  /** The signed (two's-complement) value of four little-endian bytes. */
  function FromLE32(b: seq<Byte>): (v: int)
    requires |b| == 4
    ensures InInt32(v)
  {
    var u := Unsigned32(b);
    if u > MaxInt32 then u - Two32 else u
  }

  /** The bytes of LE32(v) are the digits of v in base 256, modulo 2^32. */
  lemma LE32Digits(v: int)
    ensures exists q :: v == Unsigned32(LE32(v)) + Two32 * q
  {
    var q1 := v / 256;
    var q2 := q1 / 256;
    var q3 := q2 / 256;
    var q4 := q3 / 256;
    assert v == 256 * q1 + v % 256;
    assert q1 == 256 * q2 + q1 % 256;
    assert q2 == 256 * q3 + q2 % 256;
    assert q3 == 256 * q4 + q3 % 256;
    assert v == Unsigned32(LE32(v)) + Two32 * q4;
  }

  /** Decoding what append_int32 writes gives back every int value. */
  lemma LE32RoundTrip(v: int)
    requires InInt32(v)
    ensures FromLE32(LE32(v)) == v
  {
    LE32Digits(v);
    var q :| v == Unsigned32(LE32(v)) + Two32 * q;
    assert q == 0 || q == -1;
  }

  /** Division by 256 of a number written as a quotient and a digit. */
  lemma Digit(x: int, q: int, r: int)
    requires 0 <= r < 256 && x == 256 * q + r
    ensures x / 256 == q && x % 256 == r
  {
  }

  /** Encoding four decoded bytes gives them back. */
  lemma FromLE32RoundTrip(b: seq<Byte>)
    requires |b| == 4
    ensures LE32(FromLE32(b)) == b
  {
    var v := FromLE32(b);
    var q := if Unsigned32(b) > MaxInt32 then -1 else 0;
    var x3 := b[3] as int + 256 * q;
    var x2 := b[2] as int + 256 * x3;
    var x1 := b[1] as int + 256 * x2;
    assert v == b[0] as int + 256 * x1;
    Digit(v, x1, b[0]);
    Digit(x1, x2, b[1]);
    Digit(x2, x3, b[2]);
    Digit(x3, q, b[3]);
  }

  /** A condition-code byte, or none for an operator the table lacks. */
  datatype Opcode = Code(b: Byte) | NoCode

  /** The second opcode byte of SETcc for a comparison (setcc_al). */
  function SetccOpcode(op: TokenId): (c: Opcode)
    ensures c.Code? <==> IsRelational(op)
  {
    match op
    case Equal => Code(0x94)
    case NotEqual => Code(0x95)
    case Less => Code(0x9C)
    case LessEq => Code(0x9E)
    case Greater => Code(0x9F)
    case GreaterEq => Code(0x9D)
    case _ => NoCode
  }

  /** The second opcode byte of Jcc rel32 (jcc_rel32): the condition of a
      comparison, or its negation when the jump is to be taken on false; for
      a logical operator JNE when jumping on true and JE otherwise. */
  function JccOpcode(op: TokenId, jumpIfTrue: bool): (c: Opcode)
    ensures c.Code? <==> IsRelational(op) || IsLogical(op)
    ensures c.Code? ==> 0x80 <= c.b <= 0x8F
  {
    var negate := !jumpIfTrue;
    match op
    case Equal => Code(if negate then 0x85 else 0x84)
    case NotEqual => Code(if negate then 0x84 else 0x85)
    case Less => Code(if negate then 0x8D else 0x8C)
    case LessEq => Code(if negate then 0x8F else 0x8E)
    case Greater => Code(if negate then 0x8E else 0x8F)
    case GreaterEq => Code(if negate then 0x8C else 0x8D)
    case And => Code(if jumpIfTrue then 0x85 else 0x84)
    case Or => Code(if jumpIfTrue then 0x85 else 0x84)
    case Not => Code(if jumpIfTrue then 0x85 else 0x84)
    case True => Code(if jumpIfTrue then 0x85 else 0x84)
    case False => Code(if jumpIfTrue then 0x85 else 0x84)
    case _ => NoCode
  }

  /** The x86 negation of a condition: the condition code with its low bit
      flipped. */
  function Negated(c: Byte): Byte {
    if c % 2 == 0 then c + 1 else c - 1
  }

  /** For a comparison, jumping on false uses the negated condition of
      jumping on true. */
  lemma JccNegation(op: TokenId)
    requires IsRelational(op)
    ensures JccOpcode(op, false).b == Negated(JccOpcode(op, true).b)
  {
  }

  /** For a comparison, the conditional jump and the conditional set test
      the same condition: their condition nibbles agree. */
  lemma SetccMatchesJcc(op: TokenId)
    requires IsRelational(op)
    ensures SetccOpcode(op).b == JccOpcode(op, true).b + 0x10
  {
  }

  /** For a logical operator the jump ignores which operator it is: jumping
      on true is JNE (taken when AL is not zero), on false JE. */
  lemma JccLogicalIgnoresOperator(op: TokenId, op2: TokenId, jumpIfTrue: bool)
    requires IsLogical(op) && IsLogical(op2)
    ensures JccOpcode(op, jumpIfTrue) == JccOpcode(op2, jumpIfTrue)
    ensures JccOpcode(op, jumpIfTrue).b == if jumpIfTrue then 0x85 else 0x84
  {
  }
}
