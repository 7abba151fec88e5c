/** What generate_node_code does to a code_gen: the bytes it appends are
    NodeBytes of the tree whatever the state, laid out case by case as the
    switch emits them, and stoi throws exactly when the generation reaches
    an integer literal that does not fit an int. */
module CodeImageProperties {
  import opened Tokens
  import opened Ast
  import opened X86
  import opened CodeImage

  // ---------------------------------------------------------------------
  // The appended bytes.

  lemma Assoc<T>(s: seq<T>, a: seq<T>, b: seq<T>)
    ensures s + (a + b) == s + a + b
  {
  }

  lemma Assoc3<T>(s: seq<T>, a: seq<T>, b: seq<T>, c: seq<T>)
    ensures s + (a + b + c) == s + a + b + c
  {
    Assoc(s, a + b, c);
    Assoc(s, a, b);
  }

  lemma Assoc4<T>(s: seq<T>, a: seq<T>, b: seq<T>, c: seq<T>, d: seq<T>)
    ensures s + (a + b + c + d) == s + a + b + c + d
  {
    Assoc(s, a + b + c, d);
    Assoc3(s, a, b, c);
  }

  lemma Assoc5<T>(s: seq<T>, a: seq<T>, b: seq<T>, c: seq<T>, d: seq<T>, e: seq<T>)
    ensures s + (a + b + c + d + e) == s + a + b + c + d + e
  {
    Assoc(s, a + b + c + d, e);
    Assoc4(s, a, b, c, d);
  }

  /** jcc_rel32 appends its bytes and, when the operator has a condition,
      records the displacement field after the two opcode bytes. */
  lemma JccAppends(s: Image, op: TokenId, jumpIfTrue: bool, target: int)
    ensures JccRel32(s, op, jumpIfTrue, target).binary == s.binary + JccBytes(op, jumpIfTrue)
    ensures var r := JccRel32(s, op, jumpIfTrue, target);
      r.counter == s.counter && r.labels == s.labels && r.thrown == s.thrown
    ensures var r := JccRel32(s, op, jumpIfTrue, target);
      r.patches == if JccOpcode(op, jumpIfTrue).Code? then s.patches[|s.binary| + 2 := target] else s.patches
  {
    var c := JccOpcode(op, jumpIfTrue);
    if c.Code? {
      assert JccBytes(op, jumpIfTrue) == [0x0F, c.b, 0, 0, 0, 0];
      assert JccRel32(s, op, jumpIfTrue, target).binary == s.binary + [0x0F, c.b] + [0, 0, 0, 0];
    }
  }

  /** jmp_rel32 appends its bytes and records the displacement field after
      the opcode byte. */
  lemma JmpAppends(s: Image, target: int)
    ensures JmpRel32(s, target).binary == s.binary + JmpBytes
    ensures var r := JmpRel32(s, target);
      r.counter == s.counter && r.labels == s.labels && r.thrown == s.thrown
      && r.patches == s.patches[|s.binary| + 1 := target]
  {
  }

  /** generate_node_code appends NodeBytes(n) to whatever was there. */
  lemma {:induction false} GenBytes(n: Node, count: nat, s: Image)
    ensures Gen(n, count, s).binary == s.binary + NodeBytes(n, count)
    decreases n, 3
  {
    match n
    case Nil =>
    case Node(t, _, _, nx, _) =>
      if !SkippedAssign(n) {
        SwitchGenBytes(n, count, s);
        if nx != Nil && t.id != If {
          GenBytes(nx, count, GenSwitch(n, count, s));
          Assoc(s.binary, SwitchBytes(n, count), NodeBytes(nx, count));
        }
      }
  }

  lemma {:induction false} SwitchGenBytes(n: Node, count: nat, s: Image)
    requires n.Node? && !SkippedAssign(n)
    ensures GenSwitch(n, count, s).binary == s.binary + SwitchBytes(n, count)
    decreases n, 2
  {
    var id := n.token.id;
    if IsArithmetic(id) {
      ArithmeticSwitchBytes(n, count, s);
    } else if IsRelational(id) {
      RelationalSwitchBytes(n, count, s);
    } else if id == Not {
      NotSwitchBytes(n, count, s);
    } else if id == Print || id == Block {
      PrintSwitchBytes(n, count, s);
    } else if id == Assign {
      AssignSwitchBytes(n, count, s);
    } else if id == And {
      AndBytes(n, count, s);
    } else if id == Or {
      OrBytes(n, count, s);
    } else if id == If {
      IfBytes(n, count, s);
    } else if id == While {
      WhileBytes(n, count, s);
    } else {
      LeafSwitchBytes(n, count, s);
    }
  }

  lemma ArithmeticSwitchBytes(n: Node, count: nat, s: Image)
    requires n.Node? && IsArithmetic(n.token.id)
    ensures GenSwitch(n, count, s).binary == s.binary + SwitchBytes(n, count)
    decreases n, 1
  {
    OperandsBytes(n, count, s);
    assert GenSwitch(n, count, s).binary == GenOperands(n, count, s).binary + ArithBytes(n.token.id);
    Assoc5(s.binary, NodeBytes(n.right, count), PushEax, NodeBytes(n.left, count), PopEbx, ArithBytes(n.token.id));
  }

  lemma RelationalSwitchBytes(n: Node, count: nat, s: Image)
    requires n.Node? && IsRelational(n.token.id)
    ensures GenSwitch(n, count, s).binary == s.binary + SwitchBytes(n, count)
    decreases n, 1
  {
    OperandsBytes(n, count, s);
    assert GenSwitch(n, count, s).binary == GenOperands(n, count, s).binary + (CmpEaxEbx + SetccAl(n.token.id));
    Assoc5(s.binary, NodeBytes(n.right, count), PushEax, NodeBytes(n.left, count), PopEbx, CmpEaxEbx + SetccAl(n.token.id));
  }

  lemma NotSwitchBytes(n: Node, count: nat, s: Image)
    requires n.Node? && n.token.id == Not
    ensures GenSwitch(n, count, s).binary == s.binary + SwitchBytes(n, count)
    decreases n, 1
  {
    GenBytes(n.left, count, s);
    Assoc(s.binary, NodeBytes(n.left, count), XorAlImm8(1));
  }

  lemma PrintSwitchBytes(n: Node, count: nat, s: Image)
    requires n.Node? && (n.token.id == Print || n.token.id == Block)
    ensures GenSwitch(n, count, s).binary == s.binary + SwitchBytes(n, count)
    decreases n, 1
  {
    GenBytes(n.left, count, s);
  }

  lemma AssignSwitchBytes(n: Node, count: nat, s: Image)
    requires n.Node? && n.token.id == Assign && !SkippedAssign(n)
    ensures GenSwitch(n, count, s).binary == s.binary + SwitchBytes(n, count)
    decreases n, 1
  {
    GenBytes(n.right, count, s);
    Assoc(s.binary, NodeBytes(n.right, count), MovVarEax(n.left.slot, count));
  }

  lemma LeafSwitchBytes(n: Node, count: nat, s: Image)
    requires n.Node? && !IsArithmetic(n.token.id) && !IsRelational(n.token.id)
    requires n.token.id !in {Not, Print, Block, Assign, And, Or, If, While}
    ensures GenSwitch(n, count, s).binary == s.binary + SwitchBytes(n, count)
  {
  }

  lemma {:induction false} OperandsBytes(n: Node, count: nat, s: Image)
    requires n.Node? && (IsArithmetic(n.token.id) || IsRelational(n.token.id))
    ensures GenOperands(n, count, s).binary
         == s.binary + NodeBytes(n.right, count) + PushEax + NodeBytes(n.left, count) + PopEbx
    decreases n, 0
  {
    GenBytes(n.right, count, s);
    GenBytes(n.left, count, Emit(Gen(n.right, count, s), PushEax));
  }

  lemma {:induction false} AndBytes(n: Node, count: nat, s: Image)
    requires n.Node? && n.token.id == And
    ensures GenSwitch(n, count, s).binary == s.binary + SwitchBytes(n, count)
    decreases n, 1
  {
    var s1 := Emit(Gen(n.left, count, NewLabel(s)), TestAlAl);
    GenBytes(n.left, count, NewLabel(s));
    var s2 := JccRel32(s1, False, true, s.counter);
    JccAppends(s1, False, true, s.counter);
    GenBytes(n.right, count, s2);
    assert GenSwitch(n, count, s).binary == Gen(n.right, count, s2).binary;
    Assoc4(s.binary, NodeBytes(n.left, count), TestAlAl, JccBytes(False, true), NodeBytes(n.right, count));
  }

  lemma {:induction false} OrBytes(n: Node, count: nat, s: Image)
    requires n.Node? && n.token.id == Or
    ensures GenSwitch(n, count, s).binary == s.binary + SwitchBytes(n, count)
    decreases n, 1
  {
    var s1 := Emit(Gen(n.left, count, NewLabel(s)), TestAlAl);
    GenBytes(n.left, count, NewLabel(s));
    var s2 := JccRel32(s1, True, true, s.counter);
    JccAppends(s1, True, true, s.counter);
    GenBytes(n.right, count, s2);
    assert GenSwitch(n, count, s).binary == Gen(n.right, count, s2).binary;
    Assoc4(s.binary, NodeBytes(n.left, count), TestAlAl, JccBytes(True, true), NodeBytes(n.right, count));
  }

  lemma {:induction false} IfBytes(n: Node, count: nat, s: Image)
    requires n.Node? && n.token.id == If
    ensures GenSwitch(n, count, s).binary == s.binary + SwitchBytes(n, count)
    decreases n, 1
  {
    if n.next == Nil {
      IfThenBytes(n, count, s);
    } else {
      IfElseBytes(n, count, s);
    }
  }

  /** An IF without an else branch jumps to its end label. */
  lemma {:induction false} IfThenBytes(n: Node, count: nat, s: Image)
    requires n.Node? && n.token.id == If && n.next == Nil
    ensures GenSwitch(n, count, s).binary == s.binary + SwitchBytes(n, count)
    decreases n, 0
  {
    var s0 := NewLabel(NewLabel(s));
    var s1 := Emit(Gen(n.left, count, s0), TestAlAl);
    GenBytes(n.left, count, s0);
    var s2 := JccRel32(s1, False, true, s.counter + 1);
    JccAppends(s1, False, true, s.counter + 1);
    GenBytes(n.right, count, s2);
    assert GenSwitch(n, count, s).binary == Gen(n.right, count, s2).binary;
    assert SwitchBytes(n, count) == NodeBytes(n.left, count) + TestAlAl + JccBytes(False, true) + NodeBytes(n.right, count) + [];
    Assoc5(s.binary, NodeBytes(n.left, count), TestAlAl, JccBytes(False, true), NodeBytes(n.right, count), []);
  }

  /** An IF with an else branch jumps to its else label. */
  lemma {:induction false} IfElseBytes(n: Node, count: nat, s: Image)
    requires n.Node? && n.token.id == If && n.next != Nil
    ensures GenSwitch(n, count, s).binary == s.binary + SwitchBytes(n, count)
    decreases n, 0
  {
    var s0 := NewLabel(NewLabel(s));
    var s1 := Emit(Gen(n.left, count, s0), TestAlAl);
    GenBytes(n.left, count, s0);
    var s2 := JccRel32(s1, False, true, s.counter);
    JccAppends(s1, False, true, s.counter);
    var s3 := Gen(n.right, count, s2);
    GenBytes(n.right, count, s2);
    var s3a := PlaceLabel(JmpRel32(s3, s.counter + 1), s.counter);
    JmpAppends(s3, s.counter + 1);
    GenBytes(n.next, count, s3a);
    Assoc(s3.binary, JmpBytes, NodeBytes(n.next, count));
    assert GenSwitch(n, count, s).binary == Gen(n.next, count, s3a).binary;
    var e := JmpBytes + NodeBytes(n.next, count);
    assert SwitchBytes(n, count) == NodeBytes(n.left, count) + TestAlAl + JccBytes(False, true) + NodeBytes(n.right, count) + e;
    Assoc5(s.binary, NodeBytes(n.left, count), TestAlAl, JccBytes(False, true), NodeBytes(n.right, count), e);
  }

  lemma {:induction false} WhileBytes(n: Node, count: nat, s: Image)
    requires n.Node? && n.token.id == While
    ensures GenSwitch(n, count, s).binary == s.binary + SwitchBytes(n, count)
    decreases n, 1
  {
    var s0 := NewLabel(NewLabel(s));
    var s1 := PlaceLabel(JmpRel32(s0, s.counter + 1), s.counter);
    JmpAppends(s0, s.counter + 1);
    assert s1.binary == s.binary + JmpBytes;
    GenBytes(n.right, count, s1);
    var s2 := PlaceLabel(Gen(n.right, count, s1), s.counter + 1);
    assert s2.binary == s.binary + JmpBytes + NodeBytes(n.right, count);
    GenBytes(n.left, count, s2);
    var s3 := Emit(Gen(n.left, count, s2), TestAlAl);
    assert s3.binary == s.binary + JmpBytes + NodeBytes(n.right, count) + NodeBytes(n.left, count) + TestAlAl;
    JccAppends(s3, True, true, s.counter);
    assert GenSwitch(n, count, s).binary == JccRel32(s3, True, true, s.counter).binary;
    Assoc5(s.binary, JmpBytes, NodeBytes(n.right, count), NodeBytes(n.left, count), TestAlAl, JccBytes(True, true));
  }
  // ---------------------------------------------------------------------
  // Where stoi throws.

  /** Generation throws exactly when it reaches an integer literal stoi
      cannot convert (or had thrown before). */
  lemma {:induction false} GenThrown(n: Node, count: nat, s: Image)
    ensures Gen(n, count, s).thrown == (s.thrown || !LiteralsFit(n))
    decreases n, 3
  {
    match n
    case Nil =>
    case Node(t, _, _, nx, _) =>
      if !SkippedAssign(n) {
        SwitchThrown(n, count, s);
        if nx != Nil && t.id != If {
          GenThrown(nx, count, GenSwitch(n, count, s));
        }
      }
  }

  /** The switch throws when a child it visits does, or on a bad literal. */
  lemma {:induction false} SwitchThrown(n: Node, count: nat, s: Image)
    requires n.Node? && !SkippedAssign(n)
    ensures GenSwitch(n, count, s).thrown == (s.thrown || !OwnFits(n))
    decreases n, 2
  {
    match n.token.id
    case Plus | Minus | Mult | Div | Mod | Less | LessEq | Greater | GreaterEq | Equal | NotEqual =>
      OperandsThrown(n, count, s);
    case Not | Print | Block => UnaryThrown(n, count, s);
    case Assign => AssignThrown(n, count, s);
    case And | Or => ShortCircuitThrown(n, count, s);
    case If => IfThrown(n, count, s);
    case While => WhileThrown(n, count, s);
    case _ => LeafThrown(n, count, s);
  }

  lemma {:induction false} OperandsThrown(n: Node, count: nat, s: Image)
    requires n.Node? && (IsArithmetic(n.token.id) || IsRelational(n.token.id))
    ensures GenSwitch(n, count, s).thrown == (s.thrown || !OwnFits(n))
    decreases n, 0
  {
    GenThrown(n.right, count, s);
    GenThrown(n.left, count, Emit(Gen(n.right, count, s), PushEax));
    assert GenSwitch(n, count, s).thrown == GenOperands(n, count, s).thrown;
  }

  lemma {:induction false} UnaryThrown(n: Node, count: nat, s: Image)
    requires n.Node? && n.token.id in {Not, Print, Block}
    ensures GenSwitch(n, count, s).thrown == (s.thrown || !OwnFits(n))
    decreases n, 0
  {
    GenThrown(n.left, count, s);
  }

  lemma {:induction false} AssignThrown(n: Node, count: nat, s: Image)
    requires n.Node? && n.token.id == Assign && !SkippedAssign(n)
    ensures GenSwitch(n, count, s).thrown == (s.thrown || !OwnFits(n))
    decreases n, 0
  {
    GenThrown(n.right, count, s);
  }

  lemma {:induction false} ShortCircuitThrown(n: Node, count: nat, s: Image)
    requires n.Node? && (n.token.id == And || n.token.id == Or)
    ensures GenSwitch(n, count, s).thrown == (s.thrown || !OwnFits(n))
    decreases n, 1
  {
    if n.token.id == And {
      JumpOverThrown(n, count, s, False);
    } else {
      JumpOverThrown(n, count, s, True);
    }
  }

  lemma {:induction false} JumpOverThrown(n: Node, count: nat, s: Image, op: TokenId)
    requires n.Node? && ((n.token.id == And && op == False) || (n.token.id == Or && op == True))
    ensures GenSwitch(n, count, s).thrown == (s.thrown || !OwnFits(n))
    decreases n, 0
  {
    var s1 := Emit(Gen(n.left, count, NewLabel(s)), TestAlAl);
    GenThrown(n.left, count, NewLabel(s));
    var s2 := JccRel32(s1, op, true, s.counter);
    JccAppends(s1, op, true, s.counter);
    GenThrown(n.right, count, s2);
    assert GenSwitch(n, count, s).thrown == Gen(n.right, count, s2).thrown;
  }

  lemma {:induction false} WhileThrown(n: Node, count: nat, s: Image)
    requires n.Node? && n.token.id == While
    ensures GenSwitch(n, count, s).thrown == (s.thrown || !OwnFits(n))
    decreases n, 0
  {
    var s0 := NewLabel(NewLabel(s));
    JmpAppends(s0, s.counter + 1);
    var s1 := PlaceLabel(JmpRel32(s0, s.counter + 1), s.counter);
    GenThrown(n.right, count, s1);
    var s2 := PlaceLabel(Gen(n.right, count, s1), s.counter + 1);
    GenThrown(n.left, count, s2);
    var s3 := Emit(Gen(n.left, count, s2), TestAlAl);
    JccAppends(s3, True, true, s.counter);
    assert GenSwitch(n, count, s).thrown == JccRel32(s3, True, true, s.counter).thrown;
  }

  lemma LeafThrown(n: Node, count: nat, s: Image)
    requires n.Node? && !IsArithmetic(n.token.id) && !IsRelational(n.token.id)
    requires n.token.id !in {Not, Print, Block, Assign, And, Or, If, While}
    ensures GenSwitch(n, count, s).thrown == (s.thrown || !OwnFits(n))
  {
  }

  lemma {:induction false} IfThrown(n: Node, count: nat, s: Image)
    requires n.Node? && n.token.id == If
    ensures GenSwitch(n, count, s).thrown == (s.thrown || !OwnFits(n))
    decreases n, 1
  {
    if n.next == Nil {
      IfThenThrown(n, count, s);
    } else {
      IfElseThrown(n, count, s);
    }
  }

  lemma {:induction false} IfThenThrown(n: Node, count: nat, s: Image)
    requires n.Node? && n.token.id == If && n.next == Nil
    ensures GenSwitch(n, count, s).thrown == (s.thrown || !OwnFits(n))
    decreases n, 0
  {
    var s0 := NewLabel(NewLabel(s));
    var s1 := Emit(Gen(n.left, count, s0), TestAlAl);
    GenThrown(n.left, count, s0);
    var s2 := JccRel32(s1, False, true, s.counter + 1);
    JccAppends(s1, False, true, s.counter + 1);
    GenThrown(n.right, count, s2);
    assert GenSwitch(n, count, s).thrown == Gen(n.right, count, s2).thrown;
  }

  lemma {:induction false} IfElseThrown(n: Node, count: nat, s: Image)
    requires n.Node? && n.token.id == If && n.next != Nil
    ensures GenSwitch(n, count, s).thrown == (s.thrown || !OwnFits(n))
    decreases n, 0
  {
    var s0 := NewLabel(NewLabel(s));
    var s1 := Emit(Gen(n.left, count, s0), TestAlAl);
    GenThrown(n.left, count, s0);
    var s2 := JccRel32(s1, False, true, s.counter);
    JccAppends(s1, False, true, s.counter);
    var s3 := Gen(n.right, count, s2);
    GenThrown(n.right, count, s2);
    var s3a := PlaceLabel(JmpRel32(s3, s.counter + 1), s.counter);
    JmpAppends(s3, s.counter + 1);
    GenThrown(n.next, count, s3a);
    assert GenSwitch(n, count, s).thrown == Gen(n.next, count, s3a).thrown;
  }
}
