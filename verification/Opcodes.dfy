/** The instruction format shared by the code generator, the code checker and
    the virtual machine: four fields in a 32-bit word, and the mode table that
    says how each opcode reads them. */
module Opcodes {

  datatype OpCode =
    | MOVE | LOADK | LOADBOOL | LOADNIL | GETUPVAL
    | GETGLOBAL | GETTABLE | SETGLOBAL | SETUPVAL | SETTABLE
    | NEWTABLE | SELF | ADD | SUB | MUL | DIV | MOD | POW | UNM | NOT | LEN
    | CONCAT | JMP | EQ | LT | LE | TEST | TESTSET
    | CALL | TAILCALL | RETURN | FORLOOP | FORPREP | TFORLOOP
    | SETLIST | CLOSE | CLOSURE | VARARG
    | BADOP   // any of the 26 six-bit values past NUM_OPCODES

  /** A word seen through its fields.  Every word has exactly one such reading,
      a SETLIST count included. */
  datatype Instruction = Instruction(op: OpCode, a: nat, b: nat, c: nat) {
    ghost predicate Fits() {
      a < 0x100 && b < 0x200 && c < 0x200
    }

    /** B and C read together as one 18-bit field. */
    function Bx(): nat { b * 0x200 + c }

    /** Bx in excess-K notation. */
    function SBx(): int { Bx() - MAXARG_SBX }
  }

  const MAXARG_SBX := 131071
  const NO_REG := 255
  const MAXSTACK := 250

  /** Operands of 256 and more name constants, smaller ones registers. */
  predicate IsK(r: nat) { 0x100 <= r }

  function IndexK(r: nat): nat
    requires IsK(r)
  {
    r - 0x100
  }

  datatype OpMode = ABC | ABx | AsBx
  datatype ArgMode = ArgN | ArgU | ArgR | ArgK

  function GetOpMode(op: OpCode): OpMode {
    match op
    case LOADK | GETGLOBAL | SETGLOBAL | CLOSURE => ABx
    case JMP | FORLOOP | FORPREP => AsBx
    case _ => ABC
  }

  function GetBMode(op: OpCode): ArgMode {
    match op
    case MOVE | LOADNIL | GETTABLE | SELF | UNM | NOT | LEN | CONCAT
       | JMP | TEST | TESTSET | FORLOOP | FORPREP => ArgR
    case LOADK | GETGLOBAL | SETGLOBAL | SETTABLE | ADD | SUB | MUL | DIV | MOD | POW
       | EQ | LT | LE => ArgK
    case LOADBOOL | GETUPVAL | SETUPVAL | NEWTABLE | CALL | TAILCALL | RETURN
       | SETLIST | CLOSURE | VARARG => ArgU
    case TFORLOOP | CLOSE | BADOP => ArgN
  }

  function GetCMode(op: OpCode): ArgMode {
    match op
    case GETTABLE | SETTABLE | SELF | ADD | SUB | MUL | DIV | MOD | POW | EQ | LT | LE => ArgK
    case CONCAT => ArgR
    case LOADBOOL | NEWTABLE | TEST | TESTSET | CALL | TAILCALL | TFORLOOP | SETLIST => ArgU
    case _ => ArgN
  }

  /** The instruction writes register A. */
  predicate TestAMode(op: OpCode) {
    match op
    case SETGLOBAL | SETUPVAL | SETTABLE | JMP | EQ | LT | LE | RETURN
       | TFORLOOP | SETLIST | CLOSE | BADOP => false
    case _ => true
  }

  /** The instruction is a test, and the next one must be a jump. */
  predicate TestTMode(op: OpCode) {
    op.EQ? || op.LT? || op.LE? || op.TEST? || op.TESTSET? || op.TFORLOOP?
  }

  // ---------- Words ----------

  /** The opcodes by number. */
  const OPCODES: seq<OpCode> := [
    MOVE, LOADK, LOADBOOL, LOADNIL, GETUPVAL, GETGLOBAL, GETTABLE, SETGLOBAL, SETUPVAL, SETTABLE,
    NEWTABLE, SELF, ADD, SUB, MUL, DIV, MOD, POW, UNM, NOT, LEN, CONCAT, JMP, EQ, LT, LE, TEST, TESTSET,
    CALL, TAILCALL, RETURN, FORLOOP, FORPREP, TFORLOOP, SETLIST, CLOSE, CLOSURE, VARARG]

  /** From the low end of the word: six bits of opcode, eight of A, nine of C, nine of B. */
  function Decode(w: nat): Instruction {
    Instruction(if w % 0x40 < |OPCODES| then OPCODES[w % 0x40] else BADOP, w / 0x40 % 0x100, w / 0x80_0000, w / 0x4000 % 0x200)
  }

  lemma WideField(w: nat)
    ensures w / 0x80_0000 == w / 0x4000 / 0x200
    ensures w / 0x80_0000 * 0x200 + w / 0x4000 % 0x200 == w / 0x4000
  {
    var q, r := w / 0x4000, w % 0x4000;
    assert w == q / 0x200 * 0x80_0000 + (q % 0x200 * 0x4000 + r);
  }

  lemma OnlyMove(n: nat)
    requires n < |OPCODES|
    ensures OPCODES[n] == MOVE <==> n == 0
  {}

  lemma ZeroFields(w: nat)
    requires w % 0x40 == 0 && w / 0x40 % 0x100 == 0 && w / 0x4000 == 0
    ensures w == 0
  {
    assert w < 0x4000;
  }

  lemma TopBit(w: nat)
    requires w < 0x1_0000_0000
    ensures w / 0x80_0000 < 0x200 && (w / 0x80_0000 >= 0x100 <==> w >= 0x8000_0000)
    ensures w >= 0x8000_0000 ==> w / 0x80_0000 - 0x100 == (w - 0x8000_0000) / 0x80_0000
  {}

  /** The wide field is all that stands above A, and only the word zero reads as MOVE 0 0. */
  lemma DecodedFields(w: nat)
    requires w < 0x1_0000_0000
    ensures var i := Decode(w);
      && i.Fits() && i.Bx() == w / 0x4000 && i.SBx() == w / 0x4000 - 0x1FFFF
      && (IsK(i.b) <==> w >= 0x8000_0000) && (IsK(i.b) ==> IndexK(i.b) == (w - 0x8000_0000) / 0x80_0000)
      && (i == Instruction(MOVE, 0, 0, 0) <==> w == 0)
  {
    WideField(w);
    TopBit(w);
    var n := w % 0x40;
    if n < |OPCODES| {
      OnlyMove(n);
    }
    if Decode(w) == Instruction(MOVE, 0, 0, 0) {
      ZeroFields(w);
    }
  }
}
