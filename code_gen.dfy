/** The code_gen struct of c_gen.cpp: a byte buffer that the emitters
    append to, a label counter, the displacement fields waiting for the
    linking pass and the addresses of the placed labels. Each method leaves
    the code_gen in the state the functions of CodeImage compute. */
module CodeGenerator {
  import opened Tokens
  import opened Ast
  import opened Evaluator
  import opened MachineInt
  import opened X86
  import SymbolTable
  import opened CodeImage
  import opened CodeImageProperties
  import opened CodeImageGrowth
  import opened Relocation

  class CodeGen {
    var binary: seq<Byte>
    var labelCounter: int
    /** symbols.size(): the number of frame slots mov_eax_var may address. */
    const symbolCount: nat
    var jumpPatchLocations: map<nat, int>
    var labelAddresses: map<int, nat>

    /** The state, as the functions of CodeImage see it. */
    function State(): Image
      reads this
    {
      Image(binary, labelCounter, jumpPatchLocations, labelAddresses, false)
    }

    constructor (bin: seq<Byte>, symbols: seq<SymbolTable.SymbolData>)
      ensures State() == Image(bin, 0, map[], map[], false)
      ensures symbolCount == |symbols|
    {
      binary := bin;
      labelCounter := 0;
      symbolCount := |symbols|;
      jumpPatchLocations := map[];
      labelAddresses := map[];
    }

    /** new_label: hands out the counter and increments it. */
    method NewLabel() returns (id: int)
      modifies this
      ensures id == old(labelCounter)
      ensures State() == CodeImage.NewLabel(old(State()))
    {
      id := labelCounter;
      labelCounter := labelCounter + 1;
    }

    /** place_label: a label placed twice only draws a warning on cerr, and
        the later address wins. */
    method PlaceLabel(id: int)
      modifies this
      ensures State() == CodeImage.PlaceLabel(old(State()), id)
    {
      labelAddresses := labelAddresses[id := |binary|];
    }

    /** add_jump_patch */
    method AddJumpPatch(offset: nat, id: int)
      modifies this
      ensures State() == CodeImage.AddJumpPatch(old(State()), offset, id)
    {
      jumpPatchLocations := jumpPatchLocations[offset := id];
    }

    /** append_int32: byte k is (value >> 8k) & 0xFF. */
    method AppendInt32(value: int)
      modifies this
      ensures State() == Emit(old(State()), LE32(value))
    {
      binary := binary + [value % 256];
      binary := binary + [(value / 256) % 256];
      binary := binary + [(value / 256 / 256) % 256];
      binary := binary + [(value / 256 / 256 / 256) % 256];
    }

    method MovEaxImm(value: int)
      modifies this
      ensures State() == Emit(old(State()), CodeImage.MovEaxImm(value))
    {
      binary := binary + [0xB8];
      AppendInt32(value);
    }

    /** mov_eax_var: an index outside the symbol table gives INT3 (and an
        error on cerr). */
    method MovEaxVar(symbolIndex: int)
      modifies this
      ensures State() == Emit(old(State()), CodeImage.MovEaxVar(symbolIndex, symbolCount))
    {
      if symbolIndex < 0 || symbolIndex >= symbolCount {
        binary := binary + [0xCC];
        return;
      }
      var offset := -4 * (symbolIndex + 1);
      binary := binary + [0x8B, 0x85];
      AppendInt32(offset);
    }

    /** mov_var_eax: an index outside the symbol table gives INT3 (and an
        error on cerr). */
    method MovVarEax(symbolIndex: int)
      modifies this
      ensures State() == Emit(old(State()), CodeImage.MovVarEax(symbolIndex, symbolCount))
    {
      if symbolIndex < 0 || symbolIndex >= symbolCount {
        binary := binary + [0xCC];
        return;
      }
      var offset := -4 * (symbolIndex + 1);
      binary := binary + [0x89, 0x85];
      AppendInt32(offset);
    }

    method PushEax()
      modifies this
      ensures State() == Emit(old(State()), CodeImage.PushEax)
    {
      binary := binary + [0x50];
    }

    method PopEax()
      modifies this
      ensures State() == Emit(old(State()), CodeImage.PopEax)
    {
      binary := binary + [0x58];
    }

    method PushEbx()
      modifies this
      ensures State() == Emit(old(State()), CodeImage.PushEbx)
    {
      binary := binary + [0x53];
    }

    method PopEbx()
      modifies this
      ensures State() == Emit(old(State()), CodeImage.PopEbx)
    {
      binary := binary + [0x5B];
    }

    method AddEaxEbx()
      modifies this
      ensures State() == Emit(old(State()), CodeImage.AddEaxEbx)
    {
      binary := binary + [0x01, 0xD8];
    }

    method SubEaxEbx()
      modifies this
      ensures State() == Emit(old(State()), CodeImage.SubEaxEbx)
    {
      binary := binary + [0x29, 0xD8];
    }

    method ImulEaxEbx()
      modifies this
      ensures State() == Emit(old(State()), CodeImage.ImulEaxEbx)
    {
      binary := binary + [0x0F, 0xAF, 0xC3];
    }

    method Cdq()
      modifies this
      ensures State() == Emit(old(State()), CodeImage.Cdq)
    {
      binary := binary + [0x99];
    }

    method IdivEbx()
      modifies this
      ensures State() == Emit(old(State()), CodeImage.IdivEbx)
    {
      binary := binary + [0xF7, 0xFB];
    }

    method XchgEaxEbx()
      modifies this
      ensures State() == Emit(old(State()), CodeImage.XchgEaxEbx)
    {
      binary := binary + [0x93];
    }

    method CmpEaxEbx()
      modifies this
      ensures State() == Emit(old(State()), CodeImage.CmpEaxEbx)
    {
      binary := binary + [0x39, 0xD8];
    }

    method TestAlImm8(imm: Byte)
      modifies this
      ensures State() == Emit(old(State()), CodeImage.TestAlImm8(imm))
    {
      binary := binary + [0xA8, imm];
    }

    method TestAlAl()
      modifies this
      ensures State() == Emit(old(State()), CodeImage.TestAlAl)
    {
      binary := binary + [0x84, 0xC0];
    }

    method XorAlImm8(imm: Byte)
      modifies this
      ensures State() == Emit(old(State()), CodeImage.XorAlImm8(imm))
    {
      binary := binary + [0x34, imm];
    }

    method MovzxEaxAl()
      modifies this
      ensures State() == Emit(old(State()), CodeImage.MovzxEaxAl)
    {
      binary := binary + [0x0F, 0xB6, 0xC0];
    }

    method NegEax()
      modifies this
      ensures State() == Emit(old(State()), CodeImage.NegEax)
    {
      binary := binary + [0xF7, 0xD8];
    }

    method MovEaxEdx()
      modifies this
      ensures State() == Emit(old(State()), CodeImage.MovEaxEdx)
    {
      binary := binary + [0x89, 0xD0];
    }

    /** setcc_al: the operator's condition from the table in X86, or INT3
        for an operator without one. */
    method SetccAl(op: TokenId)
      modifies this
      ensures State() == Emit(old(State()), CodeImage.SetccAl(op))
    {
      ghost var b0 := binary;
      binary := binary + [0x0F];
      match SetccOpcode(op) {
      case NoCode =>
        binary := binary + [0xCC];
        assert binary == b0 + [0x0F, 0xCC];
      case Code(setccOpcode) =>
        binary := binary + [setccOpcode];
        binary := binary + [0xC0];
        assert binary == b0 + [0x0F, setccOpcode, 0xC0];
      }
    }

    /** jcc_rel32: the condition from the table in X86; an operator without
        one gives INT3 and no field. */
    method JccRel32(opForCondition: TokenId, jumpIfTrue: bool, targetLabel: int)
      modifies this
      ensures State() == CodeImage.JccRel32(old(State()), opForCondition, jumpIfTrue, targetLabel)
    {
      ghost var b0 := binary;
      binary := binary + [0x0F];
      match JccOpcode(opForCondition, jumpIfTrue) {
      case NoCode =>
        binary := binary + [0xCC];
        assert binary == b0 + [0x0F, 0xCC];
      case Code(conditionCode) =>
        binary := binary + [conditionCode];
        assert binary == b0 + [0x0F, conditionCode];
        AddJumpPatch(|binary|, targetLabel);
        AppendInt32(0);
      }
    }

    /** jmp_rel32 */
    method JmpRel32(targetLabel: int)
      modifies this
      ensures State() == CodeImage.JmpRel32(old(State()), targetLabel)
    {
      binary := binary + [0xE9];
      AddJumpPatch(|binary|, targetLabel);
      AppendInt32(0);
    }

    /** One iteration of jump: the field at addr gets the distance from
        its end to its label, or INT3 bytes when the label was never
        placed. */
    method PatchField(addr: nat)
      requires addr in jumpPatchLocations && addr + 4 <= |binary|
      modifies this
      ensures labelCounter == old(labelCounter)
      ensures jumpPatchLocations == old(jumpPatchLocations) && labelAddresses == old(labelAddresses)
      ensures binary == Overwrite(old(binary), addr, FieldBytes(addr, jumpPatchLocations, labelAddresses))
    {
      ghost var before := binary;
      var targetId := jumpPatchLocations[addr];
      if targetId in labelAddresses {
        var targetAddr := labelAddresses[targetId];
        var afterJumpAddr: int;
        if addr > 1 && 0x80 <= binary[addr - 1] <= 0x8F && binary[addr - 2] == 0x0F {
          afterJumpAddr := addr + 4;
        } else if addr > 0 && binary[addr - 1] == 0xE9 {
          afterJumpAddr := addr + 4;
        } else {
          // an unknown instruction before the field: a warning on cerr
          afterJumpAddr := addr + 4;
        }
        // size_t subtraction cast to int
        var relativeOffset := Wrap(targetAddr - afterJumpAddr);
        binary := binary[addr := relativeOffset % 256];
        binary := binary[addr + 1 := (relativeOffset / 256) % 256];
        binary := binary[addr + 2 := (relativeOffset / 256 / 256) % 256];
        binary := binary[addr + 3 := (relativeOffset / 256 / 256 / 256) % 256];
        LE32Wrap(targetAddr - afterJumpAddr);
        WriteField(before, addr, LE32(relativeOffset));
      } else {
        binary := binary[addr := 0xCC];
        binary := binary[addr + 1 := 0xCC];
        binary := binary[addr + 2 := 0xCC];
        binary := binary[addr + 3 := 0xCC];
        WriteField(before, addr, [0xCC, 0xCC, 0xCC, 0xCC]);
      }
    }

    /** jump: the linking pass over the fields in increasing offset order,
        as a std::map iterator visits them. Every field must lie inside the
        buffer (vector indexing is unchecked). */
    method Jump()
      requires InBounds(jumpPatchLocations.Keys, |binary|)
      modifies this
      ensures labelCounter == old(labelCounter)
      ensures jumpPatchLocations == old(jumpPatchLocations) && labelAddresses == old(labelAddresses)
      ensures binary == Relocate(old(binary), jumpPatchLocations, labelAddresses, jumpPatchLocations.Keys)
    {
      ghost var b0 := binary;
      var todo := jumpPatchLocations.Keys;
      while todo != {}
        invariant labelCounter == old(labelCounter)
        invariant jumpPatchLocations == old(jumpPatchLocations) && labelAddresses == old(labelAddresses)
        invariant todo <= jumpPatchLocations.Keys && |binary| == |b0|
        invariant Relocate(binary, jumpPatchLocations, labelAddresses, todo)
               == Relocate(b0, jumpPatchLocations, labelAddresses, jumpPatchLocations.Keys)
        decreases |todo|
      {
        ghost var least := Least(todo);
        var addr :| addr in todo && forall j :: j in todo ==> addr <= j;
        assert addr == least;
        PatchField(addr);
        todo := todo - {addr};
      }
    }

    /** generate_node_code. An ASSIGN whose left side is not an
        identifier returns before the chained statements, so that test is
        made here, ahead of the switch. stoi throws on a literal out of
        range; callers pass trees whose literals fit. */
    method GenerateNodeCode(n: Node)
      requires LiteralsFit(n)
      modifies this
      ensures State() == Gen(n, symbolCount, old(State()))
      decreases n, 2
    {
      match n
      case Nil =>
      case Node(t, left, _, next, _) =>
        if t.id == Assign && (left == Nil || left.token.id != Ident) {
          return;
        }
        GenerateSwitch(n);
        if next != Nil && t.id != If {
          GenerateNodeCode(next);
        }
    }

    /** The switch of generate_node_code. */
    method GenerateSwitch(n: Node)
      requires n.Node? && !SkippedAssign(n) && OwnFits(n)
      modifies this
      ensures State() == GenSwitch(n, symbolCount, old(State()))
      decreases n, 1
    {
      var t := n.token;
      match t.id {
      case Integer => MovEaxImm(DecimalValue(t.val));
      case True => binary := binary + [0xB0, 0x01];
      case False => binary := binary + [0xB0, 0x00];
      case String => MovEaxImm(0);
      case Ident => MovEaxVar(n.slot);
      case Plus | Minus | Mult | Div | Mod => GenerateArithmetic(n);
      case Less | LessEq | Greater | GreaterEq | Equal | NotEqual => GenerateComparison(n);
      case Not =>
        GenerateNodeCode(n.left);
        XorAlImm8(1);
      case And | Or => GenerateShortCircuit(n);
      case Assign =>
        GenerateNodeCode(n.right);
        MovVarEax(n.left.slot);
      case Print =>
        if n.left != Nil {
          GenerateNodeCode(n.left);
        }
      case Read =>
      case Int4 =>
      case If => GenerateIf(n);
      case While => GenerateWhile(n);
      case Block => GenerateNodeCode(n.left);
      case _ =>
        // an error on cerr
        binary := binary + [0xCC];
      }
    }

    /** The arithmetic cases: right operand, PUSH EAX, left operand, POP
        EBX, the operator. */
    method GenerateArithmetic(n: Node)
      requires n.Node? && IsArithmetic(n.token.id) && OwnFits(n)
      modifies this
      ensures State() == GenSwitch(n, symbolCount, old(State()))
      decreases n, 0
    {
      ghost var s := State();
      GenerateNodeCode(n.right);
      PushEax();
      GenerateNodeCode(n.left);
      PopEbx();
      ghost var b := binary;
      assert State() == GenOperands(n, symbolCount, s);
      var id := n.token.id;
      if id == Plus {
        AddEaxEbx();
      } else if id == Minus {
        SubEaxEbx();
      } else if id == Mult {
        ImulEaxEbx();
      } else if id == Div || id == Mod {
        Cdq();
        IdivEbx();
        if id == Mod {
          MovEaxEdx();
          Assoc3(b, CodeImage.Cdq, CodeImage.IdivEbx, CodeImage.MovEaxEdx);
        } else {
          Assoc(b, CodeImage.Cdq, CodeImage.IdivEbx);
        }
      }
    }

    /** The comparison cases: the operands as for arithmetic, CMP, SETcc. */
    method GenerateComparison(n: Node)
      requires n.Node? && IsRelational(n.token.id) && OwnFits(n)
      modifies this
      ensures State() == GenSwitch(n, symbolCount, old(State()))
      decreases n, 0
    {
      ghost var s := State();
      GenerateNodeCode(n.right);
      PushEax();
      GenerateNodeCode(n.left);
      PopEbx();
      ghost var b := binary;
      assert State() == GenOperands(n, symbolCount, s);
      CmpEaxEbx();
      SetccAl(n.token.id);
      Assoc(b, CodeImage.CmpEaxEbx, CodeImage.SetccAl(n.token.id));
    }

    /** AND and OR: a fresh end label, the left operand, a test of AL, the
        jump to the end, the right operand, the end label. */
    method GenerateShortCircuit(n: Node)
      requires n.Node? && (n.token.id == And || n.token.id == Or) && OwnFits(n)
      modifies this
      ensures State() == GenSwitch(n, symbolCount, old(State()))
      decreases n, 0
    {
      var endLabel := NewLabel();
      GenerateNodeCode(n.left);
      TestAlAl();
      if n.token.id == And {
        JccRel32(False, true, endLabel);
      } else {
        JccRel32(True, true, endLabel);
      }
      GenerateNodeCode(n.right);
      PlaceLabel(endLabel);
    }

    /** IF: the next statement of the node is its else branch. */
    method GenerateIf(n: Node)
      requires n.Node? && n.token.id == If && OwnFits(n)
      modifies this
      ensures State() == GenSwitch(n, symbolCount, old(State()))
      decreases n, 0
    {
      var elseLabel := NewLabel();
      var endIfLabel := NewLabel();
      var hasElse := n.next != Nil;
      GenerateNodeCode(n.left);
      TestAlAl();
      JccRel32(False, true, if hasElse then elseLabel else endIfLabel);
      GenerateNodeCode(n.right);
      if hasElse {
        JmpRel32(endIfLabel);
        PlaceLabel(elseLabel);
        GenerateNodeCode(n.next);
      }
      PlaceLabel(endIfLabel);
    }

    /** WHILE: a jump to the test, the body, the test, and a jump back to
        the body while it holds. */
    method GenerateWhile(n: Node)
      requires n.Node? && n.token.id == While && OwnFits(n)
      modifies this
      ensures State() == GenSwitch(n, symbolCount, old(State()))
      decreases n, 0
    {
      var loopStartLabel := NewLabel();
      var loopTestLabel := NewLabel();
      JmpRel32(loopTestLabel);
      PlaceLabel(loopStartLabel);
      GenerateNodeCode(n.right);
      PlaceLabel(loopTestLabel);
      GenerateNodeCode(n.left);
      TestAlAl();
      JccRel32(True, true, loopStartLabel);
    }
  }

  // ---------------------------------------------------------------------
  // generate_program_code

  /** The number of variables among the symbols: none exactly when no
      symbol is a variable, all exactly when every one is. */
  function VarCount(symbols: seq<SymbolTable.SymbolData>): (c: nat)
    ensures c <= |symbols|
    ensures c == 0 <==> forall i :: 0 <= i < |symbols| ==> symbols[i].symType != SymbolTable.SymbolVar
    ensures c == |symbols| <==> forall i :: 0 <= i < |symbols| ==> symbols[i].symType == SymbolTable.SymbolVar
  {
    if symbols == [] then 0
    else VarCount(symbols[..|symbols| - 1]) + (if symbols[|symbols| - 1].symType == SymbolTable.SymbolVar then 1 else 0)
  }

  /** PUSH EBX, PUSH EBP, MOV EBP, ESP, and SUB ESP, imm32 reserving four
      bytes per variable when there is any. */
  function Prologue(symbols: seq<SymbolTable.SymbolData>): seq<Byte> {
    var space := VarCount(symbols) * 4;
    PushEbx + [0x55, 0x89, 0xE5] + (if space > 0 then [0x81, 0xEC] + LE32(space) else [])
  }

  /** MOV ESP, EBP, POP EBP, POP EBX, RET. */
  const Epilogue: seq<Byte> := [0x89, 0xEC, 0x5D] + PopEbx + [0xC3]

  /** The code_gen after the prologue and generate_node_code. */
  function Generated(program: Node, symbols: seq<SymbolTable.SymbolData>): (s: Image)
    ensures Wf(s, |Prologue(symbols)|)
  {
    var s0 := Image(Prologue(symbols), 0, map[], map[], false);
    GenGrows(program, |symbols|, s0, |Prologue(symbols)|);
    Gen(program, |symbols|, s0)
  }

  /** generate_program_code: the prologue, the code of the program linked
      by jump, and the epilogue; a Failure when stoi throws. */
  ghost function ProgramCode(program: Node, symbols: seq<SymbolTable.SymbolData>): Result<seq<Byte>> {
    var s := Generated(program, symbols);
    if s.thrown then Failure
    else Success(Relocate(s.binary, s.patches, s.labels, s.patches.Keys) + Epilogue)
  }

  /** The loop of generate_program_code counting the variables. */
  method CountLocalVars(symbols: seq<SymbolTable.SymbolData>) returns (localVarCount: nat)
    ensures localVarCount == VarCount(symbols)
  {
    localVarCount := 0;
    var i := 0;
    while i < |symbols|
      invariant 0 <= i <= |symbols|
      invariant localVarCount == VarCount(symbols[..i])
    {
      assert symbols[..i + 1][..i] == symbols[..i];
      if symbols[i].symType == SymbolTable.SymbolVar {
        localVarCount := localVarCount + 1;
      }
      i := i + 1;
    }
    assert symbols[..i] == symbols;
  }

  /** The start of generate_program_code: PUSH EBX, PUSH EBP, MOV EBP, ESP,
      and the stack space of the variables. */
  method EmitPrologue(ctx: CodeGen, symbols: seq<SymbolTable.SymbolData>)
    requires ctx.State() == Image([], 0, map[], map[], false)
    modifies ctx
    ensures ctx.State() == Image(Prologue(symbols), 0, map[], map[], false)
  {
    ctx.PushEbx();
    ctx.binary := ctx.binary + [0x55];
    ctx.binary := ctx.binary + [0x89, 0xE5];
    var localVarCount := CountLocalVars(symbols);
    var localVarSpace := localVarCount * 4;
    if localVarSpace > 0 {
      ctx.binary := ctx.binary + [0x81, 0xEC];
      ctx.AppendInt32(localVarSpace);
    }
  }

  /** The end of generate_program_code: MOV ESP, EBP, POP EBP, POP EBX,
      RET. */
  method EmitEpilogue(ctx: CodeGen)
    modifies ctx
    ensures ctx.State() == old(ctx.State()).(binary := old(ctx.binary) + Epilogue)
  {
    ctx.binary := ctx.binary + [0x89, 0xEC];
    ctx.binary := ctx.binary + [0x5D];
    ctx.PopEbx();
    ctx.binary := ctx.binary + [0xC3];
  }

  /** generate_program_code writes into a cleared buffer of the caller's;
      here the buffer is returned. */
  method GenerateProgramCode(program: Node, symbols: seq<SymbolTable.SymbolData>) returns (binary: seq<Byte>)
    requires LiteralsFit(program)
    ensures ProgramCode(program, symbols) == Success(binary)
  {
    var ctx := new CodeGen([], symbols);
    EmitPrologue(ctx, symbols);
    ghost var s0 := ctx.State();
    ctx.GenerateNodeCode(program);
    GenThrown(program, |symbols|, s0);
    ghost var s := Generated(program, symbols);
    assert ctx.State() == s;
    ctx.Jump();
    assert ctx.binary == Relocate(s.binary, s.patches, s.labels, s.patches.Keys);
    EmitEpilogue(ctx);
    binary := ctx.binary;
  }
}
