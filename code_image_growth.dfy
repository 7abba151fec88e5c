/** The layout invariant of a code_gen that generate_node_code keeps: every
    displacement field it records lies inside the bytes written after
    the first lo of them, no two fields
    overlap, and every label it records or places was handed out by
    new_label. */
module CodeImageGrowth {
  import opened Tokens
  import opened Ast
  import opened X86
  import opened CodeImage
  import opened CodeImageProperties

  /** Every displacement field is four bytes inside the code and after the
      first lo bytes, no two fields overlap, and every jump target and
      placed label is below the label counter. */
  predicate Wf(s: Image, lo: nat) {
    && lo <= |s.binary|
    && (forall k :: k in s.patches ==> lo <= k && k + 4 <= |s.binary| && s.patches[k] < s.counter)
    && (forall k, j :: k in s.patches && j in s.patches && k < j ==> k + 4 <= j)
    && (forall id :: id in s.labels ==> id < s.counter)
  }

  /** r follows s: the invariant holds and the bytes and the counter have
      not shrunk. */
  predicate Grows(s: Image, r: Image, lo: nat) {
    Wf(r, lo) && |s.binary| <= |r.binary| && s.counter <= r.counter
  }

  // ---------------------------------------------------------------------
  // The emitters keep the invariant.

  lemma EmitGrows(s: Image, bytes: seq<Byte>, lo: nat)
    requires Wf(s, lo)
    ensures Grows(s, Emit(s, bytes), lo)
  {
  }

  lemma NewLabelGrows(s: Image, lo: nat)
    requires Wf(s, lo)
    ensures Grows(s, NewLabel(s), lo)
  {
  }

  /** Placing a label that new_label handed out. */
  lemma PlaceGrows(s: Image, id: int, lo: nat)
    requires Wf(s, lo) && id < s.counter
    ensures Grows(s, PlaceLabel(s, id), lo)
  {
  }

  /** A conditional jump to a label that new_label handed out. */
  lemma JccGrows(s: Image, op: TokenId, jumpIfTrue: bool, target: int, lo: nat)
    requires Wf(s, lo) && target < s.counter
    ensures Grows(s, JccRel32(s, op, jumpIfTrue, target), lo)
  {
    JccAppends(s, op, jumpIfTrue, target);
  }

  /** An unconditional jump to a label that new_label handed out. */
  lemma JmpGrows(s: Image, target: int, lo: nat)
    requires Wf(s, lo) && target < s.counter
    ensures Grows(s, JmpRel32(s, target), lo)
  {
    JmpAppends(s, target);
  }

  // ---------------------------------------------------------------------
  // generate_node_code

  /** generate_node_code keeps the invariant. */
  lemma {:induction false} GenGrows(n: Node, count: nat, s: Image, lo: nat)
    requires Wf(s, lo)
    ensures Grows(s, Gen(n, count, s), lo)
    decreases n, 3
  {
    match n
    case Nil =>
    case Node(t, _, _, nx, _) =>
      if !SkippedAssign(n) {
        SwitchGrows(n, count, s, lo);
        if nx != Nil && t.id != If {
          GenGrows(nx, count, GenSwitch(n, count, s), lo);
        }
      }
  }

  lemma {:induction false} SwitchGrows(n: Node, count: nat, s: Image, lo: nat)
    requires Wf(s, lo) && n.Node? && !SkippedAssign(n)
    ensures Grows(s, GenSwitch(n, count, s), lo)
    decreases n, 2
  {
    match n.token.id
    case Plus | Minus | Mult | Div | Mod => ArithmeticGrows(n, count, s, lo);
    case Less | LessEq | Greater | GreaterEq | Equal | NotEqual => RelationalGrows(n, count, s, lo);
    case Not => NotGrows(n, count, s, lo);
    case Assign => AssignGrows(n, count, s, lo);
    case Print | Block => ChildGrows(n, count, s, lo);
    case And => AndGrows(n, count, s, lo);
    case Or => OrGrows(n, count, s, lo);
    case If => IfGrows(n, count, s, lo);
    case While => WhileSwitchGrows(n, count, s, lo);
    case _ => LeafGrows(n, count, s, lo);
  }

  lemma {:induction false} ChildGrows(n: Node, count: nat, s: Image, lo: nat)
    requires Wf(s, lo) && n.Node? && (n.token.id == Print || n.token.id == Block)
    ensures Grows(s, GenSwitch(n, count, s), lo)
    decreases n, 1
  {
    GenGrows(n.left, count, s, lo);
  }

  lemma {:induction false} AndGrows(n: Node, count: nat, s: Image, lo: nat)
    requires Wf(s, lo) && n.Node? && n.token.id == And
    ensures Grows(s, GenSwitch(n, count, s), lo)
    decreases n, 1
  {
    JumpOverGrows(n, count, s, False, lo);
  }

  lemma {:induction false} OrGrows(n: Node, count: nat, s: Image, lo: nat)
    requires Wf(s, lo) && n.Node? && n.token.id == Or
    ensures Grows(s, GenSwitch(n, count, s), lo)
    decreases n, 1
  {
    JumpOverGrows(n, count, s, True, lo);
  }

  lemma {:induction false} IfGrows(n: Node, count: nat, s: Image, lo: nat)
    requires Wf(s, lo) && n.Node? && n.token.id == If
    ensures Grows(s, GenSwitch(n, count, s), lo)
    decreases n, 1
  {
    if n.next == Nil {
      IfThenGrows(n, count, s, lo);
    } else {
      IfElseGrows(n, count, s, lo);
    }
  }

  lemma {:induction false} WhileSwitchGrows(n: Node, count: nat, s: Image, lo: nat)
    requires Wf(s, lo) && n.Node? && n.token.id == While
    ensures Grows(s, GenSwitch(n, count, s), lo)
    decreases n, 1
  {
    WhileGrows(n, count, s, lo);
  }

  lemma LeafGrows(n: Node, count: nat, s: Image, lo: nat)
    requires Wf(s, lo) && n.Node? && !IsArithmetic(n.token.id) && !IsRelational(n.token.id)
    requires n.token.id !in {Not, Assign, Print, Block, And, Or, If, While}
    ensures Grows(s, GenSwitch(n, count, s), lo)
  {
    var r := GenSwitch(n, count, s);
    assert r.patches == s.patches && r.labels == s.labels && r.counter == s.counter;
  }

  lemma {:induction false} ArithmeticGrows(n: Node, count: nat, s: Image, lo: nat)
    requires Wf(s, lo) && n.Node? && IsArithmetic(n.token.id)
    ensures Grows(s, GenSwitch(n, count, s), lo)
    decreases n, 1
  {
    OperandsGrows(n, count, s, lo);
    EmitGrows(GenOperands(n, count, s), ArithBytes(n.token.id), lo);
  }

  lemma {:induction false} RelationalGrows(n: Node, count: nat, s: Image, lo: nat)
    requires Wf(s, lo) && n.Node? && IsRelational(n.token.id)
    ensures Grows(s, GenSwitch(n, count, s), lo)
    decreases n, 1
  {
    OperandsGrows(n, count, s, lo);
    EmitGrows(GenOperands(n, count, s), CmpEaxEbx + SetccAl(n.token.id), lo);
  }

  lemma {:induction false} NotGrows(n: Node, count: nat, s: Image, lo: nat)
    requires Wf(s, lo) && n.Node? && n.token.id == Not
    ensures Grows(s, GenSwitch(n, count, s), lo)
    decreases n, 1
  {
    GenGrows(n.left, count, s, lo);
    EmitGrows(Gen(n.left, count, s), XorAlImm8(1), lo);
  }

  lemma {:induction false} AssignGrows(n: Node, count: nat, s: Image, lo: nat)
    requires Wf(s, lo) && n.Node? && n.token.id == Assign && !SkippedAssign(n)
    ensures Grows(s, GenSwitch(n, count, s), lo)
    decreases n, 1
  {
    GenGrows(n.right, count, s, lo);
    EmitGrows(Gen(n.right, count, s), MovVarEax(n.left.slot, count), lo);
  }

  lemma {:induction false} OperandsGrows(n: Node, count: nat, s: Image, lo: nat)
    requires Wf(s, lo) && n.Node? && (IsArithmetic(n.token.id) || IsRelational(n.token.id))
    ensures Grows(s, GenOperands(n, count, s), lo)
    decreases n, 0
  {
    var g1 := Gen(n.right, count, s);
    GenGrows(n.right, count, s, lo);
    EmitGrows(g1, PushEax, lo);
    var e1 := Emit(g1, PushEax);
    GenGrows(n.left, count, e1, lo);
    EmitGrows(Gen(n.left, count, e1), PopEbx, lo);
  }

  /** AND and OR: the end label is handed out before the jump to it. */
  lemma {:induction false} JumpOverGrows(n: Node, count: nat, s: Image, op: TokenId, lo: nat)
    requires Wf(s, lo) && n.Node? && ((n.token.id == And && op == False) || (n.token.id == Or && op == True))
    ensures Grows(s, GenShortCircuit(n, count, s), lo)
    decreases n, 0
  {
    var L := s.counter;
    var s0 := NewLabel(s);
    NewLabelGrows(s, lo);
    var g1 := Gen(n.left, count, s0);
    GenGrows(n.left, count, s0, lo);
    var e1 := Emit(g1, TestAlAl);
    EmitGrows(g1, TestAlAl, lo);
    var j := JccRel32(e1, op, true, L);
    JccGrows(e1, op, true, L, lo);
    var g2 := Gen(n.right, count, j);
    GenGrows(n.right, count, j, lo);
    PlaceGrows(g2, L, lo);
  }

  /** IF without an else branch: the end label is handed out before the
      jump to it. */
  lemma {:induction false} IfThenGrows(n: Node, count: nat, s: Image, lo: nat)
    requires Wf(s, lo) && n.Node? && n.token.id == If && n.next == Nil
    ensures Grows(s, GenIf(n, count, s), lo)
    decreases n, 0
  {
    var D := s.counter + 1;
    var s0 := NewLabel(NewLabel(s));
    NewLabelGrows(s, lo);
    NewLabelGrows(NewLabel(s), lo);
    var g1 := Gen(n.left, count, s0);
    GenGrows(n.left, count, s0, lo);
    var e1 := Emit(g1, TestAlAl);
    EmitGrows(g1, TestAlAl, lo);
    var j := JccRel32(e1, False, true, D);
    JccGrows(e1, False, true, D, lo);
    var g2 := Gen(n.right, count, j);
    GenGrows(n.right, count, j, lo);
    PlaceGrows(g2, D, lo);
  }

  /** IF with an else branch: both labels are handed out before the jumps
      to them. */
  lemma {:induction false} IfElseGrows(n: Node, count: nat, s: Image, lo: nat)
    requires Wf(s, lo) && n.Node? && n.token.id == If && n.next != Nil
    ensures Grows(s, GenIf(n, count, s), lo)
    decreases n, 0
  {
    var E := s.counter;
    var D := s.counter + 1;
    var s0 := NewLabel(NewLabel(s));
    NewLabelGrows(s, lo);
    NewLabelGrows(NewLabel(s), lo);
    var g1 := Gen(n.left, count, s0);
    GenGrows(n.left, count, s0, lo);
    var e1 := Emit(g1, TestAlAl);
    EmitGrows(g1, TestAlAl, lo);
    var j := JccRel32(e1, False, true, E);
    JccGrows(e1, False, true, E, lo);
    var g2 := Gen(n.right, count, j);
    GenGrows(n.right, count, j, lo);
    var m := JmpRel32(g2, D);
    JmpGrows(g2, D, lo);
    var p1 := PlaceLabel(m, E);
    PlaceGrows(m, E, lo);
    var g3 := Gen(n.next, count, p1);
    GenGrows(n.next, count, p1, lo);
    PlaceGrows(g3, D, lo);
  }

  /** WHILE: both labels are handed out before the jumps to them. */
  lemma {:induction false} WhileGrows(n: Node, count: nat, s: Image, lo: nat)
    requires Wf(s, lo) && n.Node? && n.token.id == While
    ensures Grows(s, GenWhile(n, count, s), lo)
    decreases n, 0
  {
    var S := s.counter;
    var T := s.counter + 1;
    var s0 := NewLabel(NewLabel(s));
    NewLabelGrows(s, lo);
    NewLabelGrows(NewLabel(s), lo);
    var m := JmpRel32(s0, T);
    JmpGrows(s0, T, lo);
    var p1 := PlaceLabel(m, S);
    PlaceGrows(m, S, lo);
    var g1 := Gen(n.right, count, p1);
    GenGrows(n.right, count, p1, lo);
    var p2 := PlaceLabel(g1, T);
    PlaceGrows(g1, T, lo);
    var g2 := Gen(n.left, count, p2);
    GenGrows(n.left, count, p2, lo);
    var e := Emit(g2, TestAlAl);
    EmitGrows(g2, TestAlAl, lo);
    JccGrows(e, True, true, S, lo);
  }
}
