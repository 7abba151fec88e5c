/** generate_code of c_tree.cpp: the textual stack-machine code for an
    expression tree, and a small machine over the registers and stack that
    code names, against which the code is checked to compute evaluate. */
module StackCode {
  import opened Tokens
  import opened Ast
  import opened MachineInt
  import opened Evaluator

  /** class instruction: an operation and up to two operands ("" when absent). */
  datatype Instruction = Instruction(op: string, operand1: string, operand2: string)

  function Ins(op: string, operand1: string): Instruction {
    Instruction(op, operand1, "")
  }

  /** The instructions between the two POPs and the final PUSH EAX: only
      the operators of the switch have any, and none touches the stack. */
  function OperatorCode(id: TokenId): (c: seq<Instruction>)
    ensures c != [] <==> id in {Plus, Minus, Mult, Div, Mod, Negate}
    ensures |c| <= 3
    ensures forall i :: 0 <= i < |c| ==> c[i].op != "PUSH" && c[i].op != "POP"
  {
    match id
    case Plus => [Ins("ADD", "EAX, EBX")]
    case Minus => [Ins("SUB", "EAX, EBX")]
    case Mult => [Ins("IMUL", "EAX, EBX")]
    case Div => [Ins("CDQ", ""), Ins("IDIV", "EBX")]
    case Mod => [Ins("CDQ", ""), Ins("IDIV", "EBX"), Ins("MOV", "EAX, EDX")]
    case Negate => [Ins("NEG", "EAX")]
    case _ => []
  }

  /** What generate_code appends for a node: nothing for a null node, a PUSH
      of an integer literal's text, and otherwise the code of both
      subtrees, two POPs, the operator, and a PUSH of the result. */
  function GeneratedCode(n: Node): seq<Instruction> {
    match n
    case Nil => []
    case Node(t, l, r, _, _) =>
      if t.id == Integer then [Ins("PUSH", t.val)]
      else GeneratedCode(l) + GeneratedCode(r) + [Ins("POP", "EBX"), Ins("POP", "EAX")]
           + OperatorCode(t.id) + [Ins("PUSH", "EAX")]
  }

  /** The vector generate_code appends to. */
  class InstructionList {
    var code: seq<Instruction>

    constructor ()
      ensures code == []
    {
      code := [];
    }

    method PushBack(ins: Instruction)
      modifies this
      ensures code == old(code) + [ins]
    {
      code := code + [ins];
    }
  }

  /** The switch of generate_code. */
  method EmitOperator(id: TokenId, machineCode: InstructionList)
    modifies machineCode
    ensures machineCode.code == old(machineCode.code) + OperatorCode(id)
  {
    match id {
      case Plus => machineCode.PushBack(Ins("ADD", "EAX, EBX"));
      case Minus => machineCode.PushBack(Ins("SUB", "EAX, EBX"));
      case Mult => machineCode.PushBack(Ins("IMUL", "EAX, EBX"));
      case Div =>
        machineCode.PushBack(Ins("CDQ", ""));
        machineCode.PushBack(Ins("IDIV", "EBX"));
      case Mod =>
        machineCode.PushBack(Ins("CDQ", ""));
        machineCode.PushBack(Ins("IDIV", "EBX"));
        machineCode.PushBack(Ins("MOV", "EAX, EDX"));
      case Negate => machineCode.PushBack(Ins("NEG", "EAX"));
      case _ =>
    }
  }

  /** generate_code */
  method GenerateCode(n: Node, machineCode: InstructionList)
    modifies machineCode
    ensures machineCode.code == old(machineCode.code) + GeneratedCode(n)
    decreases n
  {
    if n == Nil {
      return;
    }
    if n.token.id == Integer {
      machineCode.PushBack(Ins("PUSH", n.token.val));
      return;
    }
    ghost var c0 := machineCode.code;
    ghost var pops := [Ins("POP", "EBX"), Ins("POP", "EAX")];
    ghost var tail := pops + OperatorCode(n.token.id) + [Ins("PUSH", "EAX")];
    assert GeneratedCode(n) == GeneratedCode(n.left) + GeneratedCode(n.right) + tail;
    GenerateCode(n.left, machineCode);
    GenerateCode(n.right, machineCode);
    ghost var c1 := machineCode.code;
    assert c1 == c0 + GeneratedCode(n.left) + GeneratedCode(n.right);
    machineCode.PushBack(Ins("POP", "EBX"));
    machineCode.PushBack(Ins("POP", "EAX"));
    assert machineCode.code == c1 + pops;
    EmitOperator(n.token.id, machineCode);
    machineCode.PushBack(Ins("PUSH", "EAX"));
    Associate(c1, pops, OperatorCode(n.token.id), [Ins("PUSH", "EAX")]);
    Associate(c0, GeneratedCode(n.left), GeneratedCode(n.right), tail);
  }

  lemma Associate<T>(a: seq<T>, b: seq<T>, c: seq<T>, d: seq<T>)
    ensures a + b + c + d == a + (b + c + d)
  {
  }

  // ---------------------------------------------------------------------
  // The machine the code is written for: 32-bit two's-complement registers
  // and a stack of 32-bit values.

  datatype Machine = Machine(stack: seq<int>, eax: int, ebx: int, edx: int)

  /** One instruction; an empty-stack POP, a divide fault, or an instruction
      or operand the code never produces stops the machine. */
  function Step(ins: Instruction, m: Machine): Result<Machine> {
    if ins == Ins("PUSH", "EAX") then Success(m.(stack := m.stack + [m.eax]))
    else if ins.op == "PUSH" && ins.operand2 == "" && |ins.operand1| > 0 && AllDigits(ins.operand1) then
      Success(m.(stack := m.stack + [Wrap(DecimalValue(ins.operand1))]))
    else if ins == Ins("POP", "EBX") then
      if m.stack == [] then Failure
      else Success(m.(stack := m.stack[..|m.stack| - 1], ebx := m.stack[|m.stack| - 1]))
    else if ins == Ins("POP", "EAX") then
      if m.stack == [] then Failure
      else Success(m.(stack := m.stack[..|m.stack| - 1], eax := m.stack[|m.stack| - 1]))
    else if ins == Ins("ADD", "EAX, EBX") then Success(m.(eax := Wrap(m.eax + m.ebx)))
    else if ins == Ins("SUB", "EAX, EBX") then Success(m.(eax := Wrap(m.eax - m.ebx)))
    else if ins == Ins("IMUL", "EAX, EBX") then Success(m.(eax := Wrap(m.eax * m.ebx)))
    else if ins == Ins("CDQ", "") then Success(m.(edx := if m.eax < 0 then -1 else 0))
    else if ins == Ins("IDIV", "EBX") then
      var dividend := m.edx * Two32 + m.eax % Two32;
      if m.ebx == 0 || !InInt32(TDiv(dividend, m.ebx)) then Failure
      else Success(m.(eax := TDiv(dividend, m.ebx), edx := TMod(dividend, m.ebx)))
    else if ins == Ins("MOV", "EAX, EDX") then Success(m.(eax := m.edx))
    else if ins == Ins("NEG", "EAX") then Success(m.(eax := Wrap(-m.eax)))
    else Failure
  }

  /** PUSH of a literal's text pushes its value. */
  lemma StepPushLiteral(val: string, m: Machine)
    requires |val| > 0 && AllDigits(val)
    ensures Step(Ins("PUSH", val), m) == Success(m.(stack := m.stack + [Wrap(DecimalValue(val))]))
  {
    assert Ins("PUSH", val) != Ins("PUSH", "EAX") by {
      assert IsDigit(val[0]);
    }
  }

  /** A program, front to back. */
  function Exec(code: seq<Instruction>, m: Machine): Result<Machine>
    decreases |code|
  {
    if code == [] then Success(m)
    else
      match Step(code[0], m)
      case Failure => Failure
      case Success(m1) => Exec(code[1..], m1)
  }

  /** Running an instruction and then the rest of a program. */
  lemma ExecCons(ins: Instruction, rest: seq<Instruction>, m: Machine)
    ensures Exec([ins] + rest, m) == match Step(ins, m) case Failure => Failure case Success(m1) => Exec(rest, m1)
  {
    assert ([ins] + rest)[0] == ins;
    assert ([ins] + rest)[1..] == rest;
  }

  /** Running two programs one after the other is running their
      concatenation. */
  lemma {:induction false} ExecAppend(a: seq<Instruction>, b: seq<Instruction>, m: Machine)
    ensures Exec(a + b, m) == match Exec(a, m) case Failure => Failure case Success(m1) => Exec(b, m1)
    decreases |a|
  {
    if a == [] {
      assert a + b == b;
    } else {
      assert (a + b)[0] == a[0];
      assert (a + b)[1..] == a[1..] + b;
      match Step(a[0], m)
      case Failure =>
      case Success(m1) => ExecAppend(a[1..], b, m1);
    }
  }

  /** The trees generate_code translates as evaluate reads them: integer
      leaves and the five binary operators, with both operands present. */
  predicate Arithmetic(n: Node) {
    match n
    case Nil => false
    case Node(t, l, r, _, _) =>
      if t.id == Integer then true
      else t.id in {Plus, Minus, Mult, Div, Mod} && Arithmetic(l) && Arithmetic(r)
  }

  /** The number of instructions with operation op. */
  function CountOp(code: seq<Instruction>, op: string): nat {
    if code == [] then 0
    else CountOp(code[..|code| - 1], op) + (if code[|code| - 1].op == op then 1 else 0)
  }

  lemma {:induction false} CountOpAppend(a: seq<Instruction>, b: seq<Instruction>, op: string)
    ensures CountOp(a + b, op) == CountOp(a, op) + CountOp(b, op)
    decreases |b|
  {
    if b != [] {
      assert (a + b)[..|a + b| - 1] == a + b[..|b| - 1];
      CountOpAppend(a, b[..|b| - 1], op);
    } else {
      assert a + b == a;
    }
  }

  lemma {:induction false} CountOpNone(code: seq<Instruction>, op: string)
    requires forall i :: 0 <= i < |code| ==> code[i].op != op
    ensures CountOp(code, op) == 0
    decreases |code|
  {
    if code != [] {
      CountOpNone(code[..|code| - 1], op);
    }
  }

  /** The code of an arithmetic tree pushes one value more than it pops,
      whether or not evaluating the tree overflows or divides by zero. */
  lemma {:induction false} PushPopBalance(n: Node)
    requires Arithmetic(n)
    ensures CountOp(GeneratedCode(n), "PUSH") == CountOp(GeneratedCode(n), "POP") + 1
  {
    var t := n.token;
    if t.id == Integer {
      assert GeneratedCode(n) == [] + [Ins("PUSH", t.val)];
    } else {
      PushPopBalance(n.left);
      PushPopBalance(n.right);
      var pops := [Ins("POP", "EBX"), Ins("POP", "EAX")];
      var oc := OperatorCode(t.id);
      var push := [Ins("PUSH", "EAX")];
      assert pops == [] + [Ins("POP", "EBX")] + [Ins("POP", "EAX")];
      assert push == [] + push;
      CountOpNone(oc, "PUSH");
      CountOpNone(oc, "POP");
      forall op | op in {"PUSH", "POP"}
        ensures CountOp(GeneratedCode(n), op)
                == CountOp(GeneratedCode(n.left), op) + CountOp(GeneratedCode(n.right), op)
                   + CountOp(pops, op) + CountOp(oc, op) + CountOp(push, op)
      {
        CountOpAppend(GeneratedCode(n.left), GeneratedCode(n.right), op);
        CountOpAppend(GeneratedCode(n.left) + GeneratedCode(n.right), pops, op);
        CountOpAppend(GeneratedCode(n.left) + GeneratedCode(n.right) + pops, oc, op);
        CountOpAppend(GeneratedCode(n.left) + GeneratedCode(n.right) + pops + oc, push, op);
      }
    }
  }

  /** After CDQ, EDX:EAX is EAX sign-extended. */
  lemma SignExtended(eax: int)
    requires InInt32(eax)
    ensures (if eax < 0 then -1 else 0) * Two32 + eax % Two32 == eax
  {
  }

  /** The two POPs move the top of the stack into EBX and the value below
      it into EAX. */
  lemma Pops(st: seq<int>, a: int, b: int, m: Machine)
    ensures Exec([Ins("POP", "EBX"), Ins("POP", "EAX")], m.(stack := st + [a] + [b]))
            == Success(m.(stack := st, ebx := b, eax := a))
  {
    var m0 := m.(stack := st + [a] + [b]);
    var m1 := m0.(stack := st + [a], ebx := b);
    assert (st + [a] + [b])[..|st + [a] + [b]| - 1] == st + [a];
    assert (st + [a])[..|st + [a]| - 1] == st;
    assert Step(Ins("POP", "EBX"), m0) == Success(m1);
    ExecCons(Ins("POP", "EBX"), [Ins("POP", "EAX")], m0);
    ExecCons(Ins("POP", "EAX"), [], m1);
  }

  /** ADD, SUB and IMUL leave the wrapped result in EAX; the result fits,
      so wrapping keeps it. */
  lemma AdditiveRuns(id: TokenId, a: int, b: int, v: int, m: Machine)
    requires id in {Plus, Minus, Mult} && InInt32(a) && InInt32(b)
    requires Apply(id, a, b) == Success(v)
    requires m.eax == a && m.ebx == b
    ensures Exec(OperatorCode(id), m) == Success(m.(eax := v))
  {
    var ins := OperatorCode(id)[0];
    assert OperatorCode(id) == [ins];
    ExecCons(ins, [], m);
    if id == Plus {
      assert Step(ins, m) == Success(m.(eax := Wrap(a + b)));
    } else if id == Minus {
      assert Step(ins, m) == Success(m.(eax := Wrap(a - b)));
    } else {
      assert Step(ins, m) == Success(m.(eax := Wrap(a * b)));
    }
  }

  /** CDQ and IDIV leave the truncated quotient in EAX and the remainder in
      EDX; the division was checked not to fault. */
  lemma DivisionRuns(a: int, b: int, m: Machine)
    requires InInt32(a) && InInt32(b) && b != 0 && InInt32(TDiv(a, b))
    requires m.eax == a && m.ebx == b
    ensures Exec([Ins("CDQ", ""), Ins("IDIV", "EBX")], m)
            == Success(m.(eax := TDiv(a, b), edx := TMod(a, b)))
  {
    SignExtended(a);
    var d := m.(edx := if a < 0 then -1 else 0);
    assert Step(Ins("CDQ", ""), m) == Success(d);
    assert Step(Ins("IDIV", "EBX"), d) == Success(m.(eax := TDiv(a, b), edx := TMod(a, b)));
    ExecCons(Ins("CDQ", ""), [Ins("IDIV", "EBX")], m);
    ExecCons(Ins("IDIV", "EBX"), [], d);
  }

  /** The instructions of a division or a remainder leave the result in EAX. */
  lemma QuotientRuns(id: TokenId, a: int, b: int, v: int, m: Machine)
    requires id in {Div, Mod} && InInt32(a) && InInt32(b)
    requires Apply(id, a, b) == Success(v)
    requires m.eax == a && m.ebx == b
    ensures Exec(OperatorCode(id), m).Success?
    ensures Exec(OperatorCode(id), m).value == m.(eax := v, edx := TMod(a, b))
  {
    assert b != 0 && InInt32(TDiv(a, b));
    var divide := [Ins("CDQ", ""), Ins("IDIV", "EBX")];
    DivisionRuns(a, b, m);
    var q := m.(eax := TDiv(a, b), edx := TMod(a, b));
    if id == Div {
      assert OperatorCode(id) == divide;
    } else {
      assert OperatorCode(id) == divide + [Ins("MOV", "EAX, EDX")];
      ExecAppend(divide, [Ins("MOV", "EAX, EDX")], m);
      ExecCons(Ins("MOV", "EAX, EDX"), [], q);
      assert Step(Ins("MOV", "EAX, EDX"), q) == Success(q.(eax := TMod(a, b)));
    }
  }

  /** The two POPs, the operator and the PUSH compute the operator on the two
      values on top of the stack. */
  lemma OperatorStep(id: TokenId, st: seq<int>, a: int, b: int, v: int, m: Machine)
    requires id in {Plus, Minus, Mult, Div, Mod} && InInt32(a) && InInt32(b)
    requires Apply(id, a, b) == Success(v)
    ensures Exec([Ins("POP", "EBX"), Ins("POP", "EAX")] + OperatorCode(id) + [Ins("PUSH", "EAX")],
                 m.(stack := st + [a] + [b])).Success?
    ensures Exec([Ins("POP", "EBX"), Ins("POP", "EAX")] + OperatorCode(id) + [Ins("PUSH", "EAX")],
                 m.(stack := st + [a] + [b])).value.stack == st + [v]
  {
    var m0 := m.(stack := st + [a] + [b]);
    var pops := [Ins("POP", "EBX"), Ins("POP", "EAX")];
    var m2 := m.(stack := st, ebx := b, eax := a);
    Pops(st, a, b, m);
    if id in {Div, Mod} {
      QuotientRuns(id, a, b, v, m2);
    } else {
      AdditiveRuns(id, a, b, v, m2);
    }
    var m3 := Exec(OperatorCode(id), m2).value;
    assert m3.eax == v && m3.stack == st;
    ExecAppend(pops, OperatorCode(id), m0);
    ExecAppend(pops + OperatorCode(id), [Ins("PUSH", "EAX")], m0);
    ExecCons(Ins("PUSH", "EAX"), [], m3);
  }

  /** generate_code is correct for every tree it handles: when evaluate
      yields a value, running the generated code pushes exactly that value
      on top of whatever the stack held. */
  lemma {:induction false} GeneratedCodeEvaluates(n: Node, m: Machine, v: int)
    requires Arithmetic(n) && Evaluate(n) == Success(v)
    ensures Exec(GeneratedCode(n), m).Success?
    ensures Exec(GeneratedCode(n), m).value.stack == m.stack + [v]
    decreases n
  {
    var t := n.token;
    if t.id == Integer {
      StepPushLiteral(t.val, m);
      assert Exec(GeneratedCode(n), m) == Step(Ins("PUSH", t.val), m);
    } else {
      var a := Evaluate(n.left).value;
      var b := Evaluate(n.right).value;
      var lc := GeneratedCode(n.left);
      var rc := GeneratedCode(n.right);
      var tail := [Ins("POP", "EBX"), Ins("POP", "EAX")] + OperatorCode(t.id) + [Ins("PUSH", "EAX")];
      assert GeneratedCode(n) == lc + (rc + tail);
      GeneratedCodeEvaluates(n.left, m, a);
      var ml := Exec(lc, m).value;
      GeneratedCodeEvaluates(n.right, ml, b);
      var mr := Exec(rc, ml).value;
      ExecAppend(lc, rc + tail, m);
      ExecAppend(rc, tail, ml);
      assert mr == mr.(stack := m.stack + [a] + [b]);
      OperatorStep(t.id, m.stack, a, b, v, mr);
    }
  }

  /** The code generate_code emits for the negation of a literal. */
  lemma NegationCode(minus: Token, lit: Token)
    requires minus.id == Minus && lit.id == Integer
    ensures GeneratedCode(Inner(minus, Nil, Leaf(lit)))
            == [Ins("PUSH", lit.val)] + [Ins("POP", "EBX"), Ins("POP", "EAX"), Ins("SUB", "EAX, EBX"), Ins("PUSH", "EAX")]
  {
    assert GeneratedCode(Leaf(lit)) == [Ins("PUSH", lit.val)];
  }

  /** generate_code handles a negation as a subtraction whose missing left
      operand is taken from the stack: alone it underflows, and inside a
      larger expression it subtracts from whatever value lies below. */
  lemma NegationUnderflows(minus: Token, lit: Token, m: Machine)
    requires minus.id == Minus && lit.id == Integer && |lit.val| > 0 && AllDigits(lit.val)
    requires m.stack == []
    ensures Exec(GeneratedCode(Inner(minus, Nil, Leaf(lit))), m) == Failure
  {
    var code := GeneratedCode(Inner(minus, Nil, Leaf(lit)));
    var x := Wrap(DecimalValue(lit.val));
    StepPushLiteral(lit.val, m);
    var rest := [Ins("POP", "EBX"), Ins("POP", "EAX"), Ins("SUB", "EAX, EBX"), Ins("PUSH", "EAX")];
    NegationCode(minus, lit);
    var m1 := m.(stack := m.stack + [x]);
    assert m1.stack == [x];
    ExecCons(Ins("PUSH", lit.val), rest, m);
    var m2 := m1.(stack := [], ebx := x);
    assert Step(Ins("POP", "EBX"), m1) == Success(m2);
    ExecCons(Ins("POP", "EBX"), rest[1..], m1);
    assert Step(Ins("POP", "EAX"), m2) == Failure;
    ExecCons(Ins("POP", "EAX"), rest[2..], m2);
  }

  lemma NegationBorrows(minus: Token, lit: Token, m: Machine, below: seq<int>, y: int)
    requires minus.id == Minus && lit.id == Integer && |lit.val| > 0 && AllDigits(lit.val)
    requires m.stack == below + [y]
    ensures Exec(GeneratedCode(Inner(minus, Nil, Leaf(lit))), m).Success?
    ensures Exec(GeneratedCode(Inner(minus, Nil, Leaf(lit))), m).value.stack
            == below + [Wrap(y - Wrap(DecimalValue(lit.val)))]
  {
    var code := GeneratedCode(Inner(minus, Nil, Leaf(lit)));
    var x := Wrap(DecimalValue(lit.val));
    StepPushLiteral(lit.val, m);
    var rest := [Ins("POP", "EBX"), Ins("POP", "EAX"), Ins("SUB", "EAX, EBX"), Ins("PUSH", "EAX")];
    NegationCode(minus, lit);
    var m1 := m.(stack := m.stack + [x]);
    assert m1.stack == below + [y] + [x];
    ExecCons(Ins("PUSH", lit.val), rest, m);
    assert (below + [y] + [x])[..|below + [y] + [x]| - 1] == below + [y];
    assert (below + [y])[..|below + [y]| - 1] == below;
    var m2 := m1.(stack := below + [y], ebx := x);
    assert Step(Ins("POP", "EBX"), m1) == Success(m2);
    ExecCons(Ins("POP", "EBX"), rest[1..], m1);
    var m3 := m2.(stack := below, eax := y);
    assert Step(Ins("POP", "EAX"), m2) == Success(m3);
    ExecCons(Ins("POP", "EAX"), rest[2..], m2);
    var m4 := m3.(eax := Wrap(y - x));
    ExecCons(Ins("SUB", "EAX, EBX"), rest[3..], m3);
    ExecCons(Ins("PUSH", "EAX"), [], m4);
  }
}
