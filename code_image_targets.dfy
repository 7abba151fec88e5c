/** Every jump generate_node_code records targets a label it also places:
    each construct places its own labels before it returns, so a label is
    pending only while the construct that handed it out is still being
    generated. Starting from no jumps, every jump target ends up placed. */
module CodeImageTargets {
  import opened Tokens
  import opened Ast
  import opened X86
  import opened CodeImage

  /** Every jump target is placed, or is one of the pending labels p. */
  predicate Resolved(s: Image, p: set<int>) {
    forall k :: k in s.patches ==> s.patches[k] in s.labels || s.patches[k] in p
  }

  /** r follows s: the jumps of r are resolved up to p, and every label
      placed in s is still placed in r. */
  predicate Resolves(s: Image, r: Image, p: set<int>) {
    Resolved(r, p) && s.labels.Keys <= r.labels.Keys
  }

  lemma ResolvedMono(s: Image, p: set<int>, q: set<int>)
    requires Resolved(s, p) && p <= q
    ensures Resolved(s, q)
  {
  }

  // ---------------------------------------------------------------------
  // The emitters.

  lemma EmitResolves(s: Image, bytes: seq<Byte>, p: set<int>)
    requires Resolved(s, p)
    ensures Resolves(s, Emit(s, bytes), p)
  {
  }

  lemma NewLabelResolves(s: Image, p: set<int>)
    requires Resolved(s, p)
    ensures Resolves(s, NewLabel(s), p)
  {
  }

  /** Placing a pending label resolves the jumps to it. */
  lemma PlaceResolves(s: Image, id: int, p: set<int>)
    requires Resolved(s, p + {id})
    ensures Resolves(s, PlaceLabel(s, id), p)
  {
  }

  /** A conditional jump to a placed or pending label. */
  lemma JccResolves(s: Image, op: TokenId, jumpIfTrue: bool, target: int, p: set<int>)
    requires Resolved(s, p) && (target in s.labels || target in p)
    ensures Resolves(s, JccRel32(s, op, jumpIfTrue, target), p)
  {
  }

  /** An unconditional jump to a placed or pending label. */
  lemma JmpResolves(s: Image, target: int, p: set<int>)
    requires Resolved(s, p) && (target in s.labels || target in p)
    ensures Resolves(s, JmpRel32(s, target), p)
  {
  }

  // ---------------------------------------------------------------------
  // generate_node_code

  /** generate_node_code leaves no jump of its own pending and unplaces no
      label. */
  lemma {:induction false} GenResolves(n: Node, count: nat, s: Image, p: set<int>)
    requires Resolved(s, p)
    ensures Resolves(s, Gen(n, count, s), p)
    decreases n, 3
  {
    match n
    case Nil =>
    case Node(t, _, _, nx, _) =>
      if !SkippedAssign(n) {
        SwitchResolves(n, count, s, p);
        if nx != Nil && t.id != If {
          GenResolves(nx, count, GenSwitch(n, count, s), p);
        }
      }
  }

  lemma {:induction false} SwitchResolves(n: Node, count: nat, s: Image, p: set<int>)
    requires Resolved(s, p) && n.Node? && !SkippedAssign(n)
    ensures Resolves(s, GenSwitch(n, count, s), p)
    decreases n, 2
  {
    match n.token.id
    case Plus | Minus | Mult | Div | Mod => OperandsResolves(n, count, s, p);
    case Less | LessEq | Greater | GreaterEq | Equal | NotEqual => OperandsResolves(n, count, s, p);
    case Not => GenResolves(n.left, count, s, p);
    case Assign => GenResolves(n.right, count, s, p);
    case Print | Block => GenResolves(n.left, count, s, p);
    case And => ShortCircuitResolves(n, count, s, p);
    case Or => ShortCircuitResolves(n, count, s, p);
    case If => IfResolves(n, count, s, p);
    case While => WhileResolves(n, count, s, p);
    case _ =>
  }

  lemma {:induction false} OperandsResolves(n: Node, count: nat, s: Image, p: set<int>)
    requires Resolved(s, p) && n.Node? && (IsArithmetic(n.token.id) || IsRelational(n.token.id))
    ensures Resolves(s, GenOperands(n, count, s), p)
    decreases n, 1
  {
    GenResolves(n.right, count, s, p);
    var e1 := Emit(Gen(n.right, count, s), PushEax);
    GenResolves(n.left, count, e1, p);
  }

  /** AND and OR: the end label is pending from the jump to its placement. */
  lemma {:induction false} ShortCircuitResolves(n: Node, count: nat, s: Image, p: set<int>)
    requires Resolved(s, p) && n.Node? && (n.token.id == And || n.token.id == Or)
    ensures Resolves(s, GenShortCircuit(n, count, s), p)
    decreases n, 1
  {
    var L := s.counter;
    var q := p + {L};
    var s0 := NewLabel(s);
    var g1 := Gen(n.left, count, s0);
    GenResolves(n.left, count, s0, p);
    ResolvedMono(g1, p, q);
    var e1 := Emit(g1, TestAlAl);
    var j := JccRel32(e1, if n.token.id == And then False else True, true, L);
    JccResolves(e1, if n.token.id == And then False else True, true, L, q);
    var g2 := Gen(n.right, count, j);
    GenResolves(n.right, count, j, q);
    PlaceResolves(g2, L, p);
  }

  lemma {:induction false} IfResolves(n: Node, count: nat, s: Image, p: set<int>)
    requires Resolved(s, p) && n.Node? && n.token.id == If
    ensures Resolves(s, GenIf(n, count, s), p)
    decreases n, 1
  {
    if n.next == Nil {
      IfThenResolves(n, count, s, p);
    } else {
      IfElseResolves(n, count, s, p);
    }
  }

  /** IF without an else branch: the end label is pending from the jump to
      its placement. */
  lemma {:induction false} IfThenResolves(n: Node, count: nat, s: Image, p: set<int>)
    requires Resolved(s, p) && n.Node? && n.token.id == If && n.next == Nil
    ensures Resolves(s, GenIf(n, count, s), p)
    decreases n, 0
  {
    var D := s.counter + 1;
    var q := p + {D};
    var s0 := NewLabel(NewLabel(s));
    var g1 := Gen(n.left, count, s0);
    GenResolves(n.left, count, s0, p);
    ResolvedMono(g1, p, q);
    var e1 := Emit(g1, TestAlAl);
    var j := JccRel32(e1, False, true, D);
    JccResolves(e1, False, true, D, q);
    var g2 := Gen(n.right, count, j);
    GenResolves(n.right, count, j, q);
    PlaceResolves(g2, D, p);
  }

  /** IF with an else branch: the else label is pending until the else
      branch starts, the end label until after it. */
  lemma {:induction false} IfElseResolves(n: Node, count: nat, s: Image, p: set<int>)
    requires Resolved(s, p) && n.Node? && n.token.id == If && n.next != Nil
    ensures Resolves(s, GenIf(n, count, s), p)
    decreases n, 0
  {
    var E := s.counter;
    var D := s.counter + 1;
    var pd := p + {D};
    var q := pd + {E};
    var s0 := NewLabel(NewLabel(s));
    var g1 := Gen(n.left, count, s0);
    GenResolves(n.left, count, s0, p);
    ResolvedMono(g1, p, q);
    var e1 := Emit(g1, TestAlAl);
    var j := JccRel32(e1, False, true, E);
    JccResolves(e1, False, true, E, q);
    var g2 := Gen(n.right, count, j);
    GenResolves(n.right, count, j, q);
    var m := JmpRel32(g2, D);
    JmpResolves(g2, D, q);
    var p1 := PlaceLabel(m, E);
    PlaceResolves(m, E, pd);
    var g3 := Gen(n.next, count, p1);
    GenResolves(n.next, count, p1, pd);
    PlaceResolves(g3, D, p);
  }

  /** WHILE: the test label is pending until the body has been generated;
      the jump back goes to the start label, placed by then. */
  lemma {:induction false} WhileResolves(n: Node, count: nat, s: Image, p: set<int>)
    requires Resolved(s, p) && n.Node? && n.token.id == While
    ensures Resolves(s, GenWhile(n, count, s), p)
    decreases n, 1
  {
    var S := s.counter;
    var T := s.counter + 1;
    var q := p + {T};
    var s0 := NewLabel(NewLabel(s));
    ResolvedMono(s0, p, q);
    var m := JmpRel32(s0, T);
    JmpResolves(s0, T, q);
    var p1 := PlaceLabel(m, S);
    ResolvedMono(m, q, q + {S});
    PlaceResolves(m, S, q);
    var g1 := Gen(n.right, count, p1);
    GenResolves(n.right, count, p1, q);
    var p2 := PlaceLabel(g1, T);
    PlaceResolves(g1, T, p);
    var g2 := Gen(n.left, count, p2);
    GenResolves(n.left, count, p2, p);
    var e := Emit(g2, TestAlAl);
    assert S in e.labels;
    JccResolves(e, True, true, S, p);
  }

  /** From a state without jumps, every jump target ends up placed. */
  lemma AllTargetsPlaced(n: Node, count: nat, s: Image)
    requires s.patches == map[]
    ensures forall k :: k in Gen(n, count, s).patches ==> Gen(n, count, s).patches[k] in Gen(n, count, s).labels
  {
    GenResolves(n, count, s, {});
  }
}
