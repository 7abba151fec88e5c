/** What generate_program_code produces: the prologue, the bytes the
    emitters of generate_node_code wrote, and the epilogue, with every
    displacement field overwritten by jump and nothing else changed. */
module ProgramCodeProperties {
  import opened Ast
  import opened MachineInt
  import opened X86
  import SymbolTable
  import opened CodeImage
  import opened CodeImageProperties
  import opened CodeImageGrowth
  import opened CodeImageTargets
  import opened Relocation
  import opened CodeGenerator

  /** The state generate_node_code starts from. */
  function Start(symbols: seq<SymbolTable.SymbolData>): Image {
    Image(Prologue(symbols), 0, map[], map[], false)
  }

  /** The prologue followed by the code of the program, before jump. */
  function Unlinked(program: Node, symbols: seq<SymbolTable.SymbolData>): seq<Byte> {
    Prologue(symbols) + NodeBytes(program, |symbols|)
  }

  /** generate_program_code fails exactly when stoi throws on a literal
      that generate_node_code reaches. */
  lemma ProgramCodeFails(program: Node, symbols: seq<SymbolTable.SymbolData>)
    ensures ProgramCode(program, symbols).Failure? <==> !LiteralsFit(program)
  {
    GenThrown(program, |symbols|, Start(symbols));
  }

  /** The code is as long as the prologue, the bytes of the program and the
      epilogue together, and jump leaves the prologue and the epilogue as
      they were. */
  lemma ProgramCodeFrame(program: Node, symbols: seq<SymbolTable.SymbolData>)
    requires LiteralsFit(program)
    ensures ProgramCode(program, symbols).Success?
    ensures var code := ProgramCode(program, symbols).value;
            && |code| == |Unlinked(program, symbols)| + |Epilogue|
            && code[..|Prologue(symbols)|] == Prologue(symbols)
            && code[|code| - |Epilogue|..] == Epilogue
  {
    ProgramCodeFails(program, symbols);
    GenBytes(program, |symbols|, Start(symbols));
    var s := Generated(program, symbols);
    var p := Prologue(symbols);
    var linked := Relocate(s.binary, s.patches, s.labels, s.patches.Keys);
    var code := ProgramCode(program, symbols).value;
    assert code == linked + Epilogue;
    forall i | 0 <= i < |p|
      ensures code[i] == p[i]
    {
      assert OutsideFields(s.patches.Keys, i);
      RelocateOutside(s.binary, s.patches, s.labels, s.patches.Keys, i);
      assert s.binary == p + NodeBytes(program, |symbols|);
    }
  }

  /** Outside the displacement fields the code holds the bytes the emitters
      wrote. */
  lemma ProgramCodeOutsideFields(program: Node, symbols: seq<SymbolTable.SymbolData>, i: int)
    requires LiteralsFit(program)
    requires 0 <= i < |Unlinked(program, symbols)|
    requires OutsideFields(Generated(program, symbols).patches.Keys, i)
    ensures ProgramCode(program, symbols).Success?
    ensures i < |ProgramCode(program, symbols).value|
    ensures ProgramCode(program, symbols).value[i] == Unlinked(program, symbols)[i]
  {
    ProgramCodeFails(program, symbols);
    GenBytes(program, |symbols|, Start(symbols));
    var s := Generated(program, symbols);
    RelocateOutside(s.binary, s.patches, s.labels, s.patches.Keys, i);
  }

  /** Every displacement field lies in the code of the program and holds
      what jump writes for it. */
  lemma ProgramCodeField(program: Node, symbols: seq<SymbolTable.SymbolData>, k: nat)
    requires LiteralsFit(program)
    requires k in Generated(program, symbols).patches
    ensures ProgramCode(program, symbols).Success?
    ensures |Prologue(symbols)| <= k && k + 4 <= |Unlinked(program, symbols)|
    ensures var s := Generated(program, symbols);
            ProgramCode(program, symbols).value[k..k + 4] == FieldBytes(k, s.patches, s.labels)
  {
    ProgramCodeFails(program, symbols);
    GenBytes(program, |symbols|, Start(symbols));
    var s := Generated(program, symbols);
    var keys := s.patches.Keys;
    assert InBounds(keys, |s.binary|) && Disjoint(keys);
    var linked := Relocate(s.binary, s.patches, s.labels, keys);
    RelocateField(s.binary, s.patches, s.labels, keys, k);
    var code := ProgramCode(program, symbols).value;
    assert code == linked + Epilogue;
    assert code[k..k + 4] == linked[k..k + 4];
  }

  /** Every jump of the program targets a label the program places. */
  lemma ProgramCodeTargetsPlaced(program: Node, symbols: seq<SymbolTable.SymbolData>, k: nat)
    requires k in Generated(program, symbols).patches
    ensures Generated(program, symbols).patches[k] in Generated(program, symbols).labels
  {
    AllTargetsPlaced(program, |symbols|, Start(symbols));
  }

  /** Every jump lands on its label: its field decodes to the distance,
      modulo 2^32, from the end of the field to the label. */
  lemma ProgramCodeJumpTarget(program: Node, symbols: seq<SymbolTable.SymbolData>, k: nat)
    requires LiteralsFit(program)
    requires k in Generated(program, symbols).patches
    ensures Generated(program, symbols).patches[k] in Generated(program, symbols).labels
    ensures ProgramCode(program, symbols).Success?
    ensures k + 4 <= |ProgramCode(program, symbols).value|
    ensures var s := Generated(program, symbols);
            FromLE32(ProgramCode(program, symbols).value[k..k + 4]) == Wrap(s.labels[s.patches[k]] - (k + 4))
  {
    ProgramCodeTargetsPlaced(program, symbols, k);
    ProgramCodeField(program, symbols, k);
    ProgramCodeFrame(program, symbols);
    var s := Generated(program, symbols);
    var f := FieldBytes(k, s.patches, s.labels);
    assert ProgramCode(program, symbols).value[k..k + 4] == f;
  }
}
