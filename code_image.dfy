/** The state of a code_gen of c_gen.cpp as a value, and every emitter and
    generate_node_code as functions on it. The class in code_gen.dfy is
    proved to follow these functions step by step. */
module CodeImage {
  import opened Tokens
  import opened Ast
  import opened MachineInt
  import opened Evaluator
  import opened X86

  /** The bytes emitted so far, label_counter, jump_patch_locations (the
      offset of a 4-byte displacement field to its target label),
      label_addresses (a label to its offset in the bytes), and whether
      stoi has thrown on an integer literal. Once set, thrown stays set:
      the bytes emitted after it are never delivered. */
  datatype Image = Image(binary: seq<Byte>, counter: int, patches: map<nat, int>, labels: map<int, nat>, thrown: bool)

  function Emit(s: Image, bytes: seq<Byte>): Image {
    s.(binary := s.binary + bytes)
  }

  /** new_label: the result is the old counter. */
  function NewLabel(s: Image): Image {
    s.(counter := s.counter + 1)
  }

  /** place_label: the label now stands for the current end of the bytes. */
  function PlaceLabel(s: Image, id: int): Image {
    s.(labels := s.labels[id := |s.binary|])
  }

  /** add_jump_patch */
  function AddJumpPatch(s: Image, offset: nat, id: int): Image {
    s.(patches := s.patches[offset := id])
  }

  // ---------------------------------------------------------------------
  // The fixed encodings of the emitters.

  /** mov_eax_imm: MOV EAX, imm32 (B8 id). */
  function MovEaxImm(v: int): seq<Byte> { [0xB8] + LE32(v) }

  /** MOV between EAX and the local variable of a symbol, addressed as
      [EBP + disp32] (ModRM 85); an index outside the table gives INT3. */
  function SlotAccess(opcode: Byte, index: int, count: nat): seq<Byte> {
    if index < 0 || index >= count then [0xCC] else [opcode, 0x85] + LE32(-4 * (index + 1))
  }

  /** mov_eax_var: MOV EAX, [EBP + disp32] (8B /r). */
  function MovEaxVar(index: int, count: nat): seq<Byte> { SlotAccess(0x8B, index, count) }

  /** mov_var_eax: MOV [EBP + disp32], EAX (89 /r). */
  function MovVarEax(index: int, count: nat): seq<Byte> { SlotAccess(0x89, index, count) }

  const PushEax: seq<Byte> := [0x50]
  const PopEax: seq<Byte> := [0x58]
  const PushEbx: seq<Byte> := [0x53]
  const PopEbx: seq<Byte> := [0x5B]
  const AddEaxEbx: seq<Byte> := [0x01, 0xD8]
  const SubEaxEbx: seq<Byte> := [0x29, 0xD8]
  const ImulEaxEbx: seq<Byte> := [0x0F, 0xAF, 0xC3]
  const Cdq: seq<Byte> := [0x99]
  const IdivEbx: seq<Byte> := [0xF7, 0xFB]
  const XchgEaxEbx: seq<Byte> := [0x93]
  const CmpEaxEbx: seq<Byte> := [0x39, 0xD8]
  const TestAlAl: seq<Byte> := [0x84, 0xC0]
  const MovzxEaxAl: seq<Byte> := [0x0F, 0xB6, 0xC0]
  const NegEax: seq<Byte> := [0xF7, 0xD8]
  const MovEaxEdx: seq<Byte> := [0x89, 0xD0]

  function TestAlImm8(imm: Byte): seq<Byte> { [0xA8, imm] }
  function XorAlImm8(imm: Byte): seq<Byte> { [0x34, imm] }

  /** setcc_al: SETcc AL, or 0F CC for an operator without a condition. */
  function SetccAl(op: TokenId): seq<Byte> {
    match SetccOpcode(op)
    case Code(c) => [0x0F, c, 0xC0]
    case NoCode => [0x0F, 0xCC]
  }

  /** jcc_rel32: 0F cc and a zero displacement field recorded as a patch
      for the target label, or 0F CC and no patch. */
  function JccRel32(s: Image, op: TokenId, jumpIfTrue: bool, target: int): Image {
    match JccOpcode(op, jumpIfTrue)
    case NoCode => Emit(s, [0x0F, 0xCC])
    case Code(c) =>
      var s1 := Emit(s, [0x0F, c]);
      Emit(AddJumpPatch(s1, |s1.binary|, target), [0, 0, 0, 0])
  }

  /** jmp_rel32: E9 and a zero displacement field recorded as a patch. */
  function JmpRel32(s: Image, target: int): Image {
    var s1 := Emit(s, [0xE9]);
    Emit(AddJumpPatch(s1, |s1.binary|, target), [0, 0, 0, 0])
  }

  /** The bytes jcc_rel32 appends. */
  function JccBytes(op: TokenId, jumpIfTrue: bool): seq<Byte> {
    match JccOpcode(op, jumpIfTrue)
    case NoCode => [0x0F, 0xCC]
    case Code(c) => [0x0F, c, 0, 0, 0, 0]
  }

  const JmpBytes: seq<Byte> := [0xE9, 0, 0, 0, 0]

  /** The operator bytes of an arithmetic node, after the operands. */
  function ArithBytes(id: TokenId): seq<Byte> {
    if id == Plus then AddEaxEbx
    else if id == Minus then SubEaxEbx
    else if id == Mult then ImulEaxEbx
    else if id == Div then Cdq + IdivEbx
    else if id == Mod then Cdq + IdivEbx + MovEaxEdx
    else []
  }

  // ---------------------------------------------------------------------
  // generate_node_code

  /** stoi on the text of an integer literal is defined: a digit run whose
      value fits an int. */
  predicate StoiDefined(val: string) {
    |val| > 0 && AllDigits(val) && DecimalValue(val) <= MaxInt32
  }

  /** An ASSIGN whose left side is not an identifier emits nothing, not even
      its chained statements. */
  predicate SkippedAssign(n: Node)
    requires n.Node?
  {
    n.token.id == Assign && (n.left == Nil || n.left.token.id != Ident)
  }

  /** Every integer literal generate_node_code reaches can be converted by
      stoi (the children a case does not visit are not constrained). */
  predicate LiteralsFit(n: Node)
    decreases n, 1
  {
    match n
    case Nil => true
    case Node(t, _, _, nx, _) =>
      SkippedAssign(n) || (OwnFits(n) && (t.id != If ==> LiteralsFit(nx)))
  }

  /** The literals the switch of generate_node_code reaches fit. */
  predicate OwnFits(n: Node)
    requires n.Node?
    decreases n, 0
  {
    var t := n.token;
    match t.id
    case Integer => StoiDefined(t.val)
    case Plus | Minus | Mult | Div | Mod | Less | LessEq | Greater | GreaterEq | Equal | NotEqual | And | Or | While =>
      LiteralsFit(n.left) && LiteralsFit(n.right)
    case If => LiteralsFit(n.left) && LiteralsFit(n.right) && LiteralsFit(n.next)
    case Not | Print | Block => LiteralsFit(n.left)
    case Assign => LiteralsFit(n.right)
    case _ => true
  }

  /** generate_node_code(n, ctx) on a code_gen in state s. */
  function Gen(n: Node, count: nat, s: Image): Image
    decreases n, 2
  {
    match n
    case Nil => s
    case Node(t, _, _, nx, _) =>
      if SkippedAssign(n) then s
      else
        var s1 := GenSwitch(n, count, s);
        if nx != Nil && t.id != If then Gen(nx, count, s1) else s1
  }

  /** The switch of generate_node_code. */
  function GenSwitch(n: Node, count: nat, s: Image): Image
    requires n.Node? && !SkippedAssign(n)
    decreases n, 1
  {
    var t := n.token;
    match t.id
    case Integer => if StoiDefined(t.val) then Emit(s, MovEaxImm(DecimalValue(t.val))) else s.(thrown := true)
    case True => Emit(s, [0xB0, 0x01])
    case False => Emit(s, [0xB0, 0x00])
    case String => Emit(s, MovEaxImm(0))
    case Ident => Emit(s, MovEaxVar(n.slot, count))
    case Plus | Minus | Mult | Div | Mod => Emit(GenOperands(n, count, s), ArithBytes(t.id))
    case Less | LessEq | Greater | GreaterEq | Equal | NotEqual =>
      Emit(GenOperands(n, count, s), CmpEaxEbx + SetccAl(t.id))
    case Not => Emit(Gen(n.left, count, s), XorAlImm8(1))
    case And | Or => GenShortCircuit(n, count, s)
    case Assign => Emit(Gen(n.right, count, s), MovVarEax(n.left.slot, count))
    case Print | Block => Gen(n.left, count, s)
    case Read | Int4 => s
    case If => GenIf(n, count, s)
    case While => GenWhile(n, count, s)
    case _ => Emit(s, [0xCC])
  }

  /** The operands of a binary node: the right one is computed first and
      saved on the stack, then the left one in EAX, and the right one is
      popped into EBX. */
  function GenOperands(n: Node, count: nat, s: Image): Image
    requires n.Node? && (IsArithmetic(n.token.id) || IsRelational(n.token.id))
    decreases n, 0
  {
    var s1 := Emit(Gen(n.right, count, s), PushEax);
    Emit(Gen(n.left, count, s1), PopEbx)
  }

  /** AND and OR: the left operand, a test of AL, a conditional jump to a
      fresh end label, the right operand, and the end label. */
  function GenShortCircuit(n: Node, count: nat, s: Image): Image
    requires n.Node? && (n.token.id == And || n.token.id == Or)
    decreases n, 0
  {
    var endLabel := s.counter;
    var s1 := Emit(Gen(n.left, count, NewLabel(s)), TestAlAl);
    var s2 := JccRel32(s1, if n.token.id == And then False else True, true, endLabel);
    PlaceLabel(Gen(n.right, count, s2), endLabel)
  }

  /** IF: the next statement of the node is its else branch. */
  function GenIf(n: Node, count: nat, s: Image): Image
    requires n.Node? && n.token.id == If
    decreases n, 0
  {
    var elseLabel := s.counter;
    var endLabel := s.counter + 1;
    var hasElse := n.next != Nil;
    var s1 := Emit(Gen(n.left, count, NewLabel(NewLabel(s))), TestAlAl);
    var s2 := JccRel32(s1, False, true, if hasElse then elseLabel else endLabel);
    var s3 := Gen(n.right, count, s2);
    var s4 := if hasElse then Gen(n.next, count, PlaceLabel(JmpRel32(s3, endLabel), elseLabel)) else s3;
    PlaceLabel(s4, endLabel)
  }

  /** WHILE: a jump to the test, the body, the test, and a conditional jump
      back to the body. */
  function GenWhile(n: Node, count: nat, s: Image): Image
    requires n.Node? && n.token.id == While
    decreases n, 0
  {
    var startLabel := s.counter;
    var testLabel := s.counter + 1;
    var s1 := PlaceLabel(JmpRel32(NewLabel(NewLabel(s)), testLabel), startLabel);
    var s2 := PlaceLabel(Gen(n.right, count, s1), testLabel);
    var s3 := Emit(Gen(n.left, count, s2), TestAlAl);
    JccRel32(s3, True, true, startLabel)
  }

  // ---------------------------------------------------------------------
  // The bytes alone.

  /** The bytes generate_node_code appends for a node, whatever the state:
      the code of every visited subtree in the order the cases visit them,
      with the displacement fields still zero. */
  function NodeBytes(n: Node, count: nat): seq<Byte>
    decreases n, 1
  {
    match n
    case Nil => []
    case Node(t, _, _, nx, _) =>
      if SkippedAssign(n) then []
      else SwitchBytes(n, count) + (if nx != Nil && t.id != If then NodeBytes(nx, count) else [])
  }

  /** The bytes of the switch of generate_node_code. */
  function SwitchBytes(n: Node, count: nat): seq<Byte>
    requires n.Node? && !SkippedAssign(n)
    decreases n, 0
  {
    var t := n.token;
    var l := n.left;
    var r := n.right;
    match t.id
    case Integer => if StoiDefined(t.val) then MovEaxImm(DecimalValue(t.val)) else []
    case True => [0xB0, 0x01]
    case False => [0xB0, 0x00]
    case String => MovEaxImm(0)
    case Ident => MovEaxVar(n.slot, count)
    case Plus | Minus | Mult | Div | Mod =>
      NodeBytes(r, count) + PushEax + NodeBytes(l, count) + PopEbx + ArithBytes(t.id)
    case Less | LessEq | Greater | GreaterEq | Equal | NotEqual =>
      NodeBytes(r, count) + PushEax + NodeBytes(l, count) + PopEbx + (CmpEaxEbx + SetccAl(t.id))
    case Not => NodeBytes(l, count) + XorAlImm8(1)
    case And => NodeBytes(l, count) + TestAlAl + JccBytes(False, true) + NodeBytes(r, count)
    case Or => NodeBytes(l, count) + TestAlAl + JccBytes(True, true) + NodeBytes(r, count)
    case Assign => NodeBytes(r, count) + MovVarEax(l.slot, count)
    case Print | Block => NodeBytes(l, count)
    case Read | Int4 => []
    case If =>
      NodeBytes(l, count) + TestAlAl + JccBytes(False, true) + NodeBytes(r, count)
      + (if n.next != Nil then JmpBytes + NodeBytes(n.next, count) else [])
    case While => JmpBytes + NodeBytes(r, count) + NodeBytes(l, count) + TestAlAl + JccBytes(True, true)
    case _ => [0xCC]
  }
}
