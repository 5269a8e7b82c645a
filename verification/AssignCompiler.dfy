/** The compiler's own loops: they append code and move the allocation mark as the lowering functions say. */
module AssignCompiler {
  import opened Wrappers
  import opened GoAssign
  import opened AssignLowering
  import opened ShortVarLowering
  import ShortVarSequential
  import TupleHeld
  import TupleLowering

  datatype Error = CountMismatch(targets: nat, values: nat) | UndefinedVariable(name: Name)

  /** `b` emitted after the code already there. */
  function After(code: seq<Instr>, b: Bound): Bound {
    Bound(code + b.code, b.scopes, b.next)
  }

  lemma BindAfter(code: seq<Instr>, b: Bound, x: Name, defs: set<Name>, src: Reg)
    requires b.scopes != []
    ensures BindReg(After(code, b), x, defs, src) == After(code, BindReg(b, x, defs, src))
  {
    if x in defs {
      assert code + b.code + [Move(b.next, src)] == code + (b.code + [Move(b.next, src)]);
    } else if LookupReg(b.scopes, x).Some? {
      var i := Write(LookupReg(b.scopes, x).value, src);
      assert code + b.code + [i] == code + (b.code + [i]);
    }
  }

  lemma PinNone(es: seq<Expr>, keep: seq<bool>, sc: RegScopes, next: Reg)
    requires |keep| == |es|
    ensures Pin(es[..0], keep[..0], sc, next) == Pinned([], [], next)
    ensures es[..|es|] == es && keep[..|es|] == keep
  {
  }

  lemma PinSnoc(es: seq<Expr>, keep: seq<bool>, i: nat, sc: RegScopes, next: Reg)
    requires |keep| == |es| && i < |es|
    ensures Pin(es[..i + 1], keep[..i + 1], sc, next) == PinMore(Pin(es[..i], keep[..i], sc, next), es[i], keep[i], sc)
  {
    assert es[..i + 1][..i] == es[..i] && keep[..i + 1][..i] == keep[..i];
  }

  /** The operands prepared so far. */
  ghost function Ready(es: seq<Expr>, holds: seq<Hold>, sc: RegScopes, next: Reg): TupleLowering.Prepared {
    if |holds| == |es| then TupleLowering.Prepare(es, holds, sc, next) else TupleLowering.Prepared([], [], next)
  }

  lemma ReadyNone(sc: RegScopes, next: Reg)
    ensures Ready([], [], sc, next) == TupleLowering.Prepared([], [], next)
  {
  }

  lemma ReadySnoc(es: seq<Expr>, holds: seq<Hold>, e: Expr, hold: Hold, sc: RegScopes, next: Reg)
    requires |holds| == |es|
    ensures Ready(es + [e], holds + [hold], sc, next) == TupleLowering.PrepareMore(Ready(es, holds, sc, next), e, hold, sc)
  {
    assert (es + [e])[..|es|] == es && (holds + [hold])[..|es|] == holds;
  }

  lemma StoresSnoc(ts: seq<Target>, i: nat, ops: seq<TupleLowering.Operand>, values: seq<TupleLowering.Operand>, sc: RegScopes, scratch: Reg)
    requires i < |ts| && |values| == |ts| && |ops| == |AllOperands(ts[..i + 1])|
    ensures AllOperands(ts[..i + 1]) == AllOperands(ts[..i]) + Operands(ts[i])
    ensures var k := |AllOperands(ts[..i])|;
      var before, last := TupleLowering.StoreCode(ts[..i], ops[..k], values[..i], sc, scratch), TupleLowering.StoreOne(ts[i], ops[k..], values[i], sc, scratch);
      TupleLowering.StoreCode(ts[..i + 1], ops, values[..i + 1], sc, scratch) ==
      if before.Undefined? then before else if last.Undefined? then last else TupleLowering.Stores(before.code + last.code)
  {
    hide TupleLowering.StoreOne, Operands;
    assert ts[..i + 1][..i] == ts[..i] && values[..i + 1][..i] == values[..i];
  }

  lemma StoreNone(ts: seq<Target>, ops: seq<TupleLowering.Operand>, values: seq<TupleLowering.Operand>, sc: RegScopes, scratch: Reg)
    ensures |AllOperands(ts[..0])| == 0 && TupleLowering.StoreCode(ts[..0], ops[..0], values[..0], sc, scratch) == TupleLowering.Stores([])
  {
  }

  class Compiler {
    var code: seq<Instr>
    var scopes: RegScopes
    var next: Reg

    function State(): Bound
      reads this
    {
      Bound(code, scopes, next)
    }

    method CompileExpression(e: Expr) returns (reg: Reg)
      modifies this
      ensures var c := CompileExpr(e, old(scopes), old(next));
        State() == Bound(old(code) + c.code, old(scopes), c.next) && reg == c.reg
    {
      var c := CompileExpr(e, scopes, next);
      code, next, reg := code + c.code, c.next, c.reg;
    }

    /** Takes the next register. */
    method Alloc() returns (reg: Reg)
      modifies this`next
      ensures reg == old(next) && next == old(next) + 1
    {
      reg := next;
      next := next + 1;
    }

    method Emit(i: Instr)
      modifies this`code
      ensures code == old(code) + [i]
    {
      code := code + [i];
    }

    /** Declares a new name or finds the existing one, and moves the value there. */
    method DeclareFromValue(x: Name, defs: set<Name>, src: Reg)
      requires scopes != []
      modifies this
      ensures State() == BindReg(old(State()), x, defs, src)
    {
      if x in defs {
        var r := Alloc();
        scopes := DeclareVar(scopes, x, r);
        Emit(Move(r, src));
      } else {
        match LookupReg(scopes, x)
        case Some(p) => Emit(Write(p, src));
        case None =>
      }
    }

    /** Evaluates one expression and, where asked, keeps its value in a temporary. */
    method PinOne(e: Expr, keep: bool, ghost before: seq<Instr>, ghost p: Pinned) returns (temp: Reg)
      requires code == before + p.code && next == p.next
      modifies this
      ensures var q := PinMore(p, e, keep, old(scopes)); State() == Bound(before + q.code, old(scopes), q.next) && q.temps == p.temps + [temp]
    {
      hide CompileExpr;
      ghost var c := CompileExpr(e, scopes, next);
      var reg := CompileExpression(e);
      assert before + p.code + c.code == before + (p.code + c.code);
      if !keep {
        return 0;
      }
      temp := Alloc();
      Emit(Move(temp, reg));
      assert before + (p.code + c.code) + [Move(temp, reg)] == before + (p.code + (c.code + [Move(temp, reg)]));
    }

    // ---------- short declarations ----------

    static method NeedsTwoPhase(lhs: seq<Name>, rhs: seq<Expr>) returns (r: bool)
      ensures r == ShortVarSequential.NeedsTwoPhase(lhs, rhs)
    {
      if |lhs| < 2 || |rhs| != |lhs| {
        return false;
      }
      var names: set<Name> := {};
      for i := 0 to |lhs|
        invariant names == ShortVarSequential.LeftNames(lhs[..i])
      {
        if lhs[i] != BLANK {
          names := names + {lhs[i]};
        }
        assert lhs[..i + 1] == lhs[..i] + [lhs[i]];
      }
      assert lhs[..|lhs|] == lhs;
      for j := 0 to |rhs|
        invariant forall k :: 0 <= k < j ==> ShortVarSequential.Idents(rhs[k]) !! names
      {
        if ShortVarSequential.Idents(rhs[j]) * names != {} {
          return true;
        }
        assert ShortVarSequential.Idents(rhs[j]) !! names;
      }
      return false;
    }

    method CompileShortVar(lhs: seq<Name>, rhs: seq<Expr>, defs: set<Name>)
      requires |lhs| == |rhs| && scopes != []
      modifies this
      ensures State() == After(old(code), ShortVarSequential.Lower(lhs, rhs, defs, old(scopes), old(next)))
    {
      var twoPhase := NeedsTwoPhase(lhs, rhs);
      if twoPhase {
        CompileTwoPhase(lhs, rhs, defs);
      } else {
        CompileSequential(lhs, rhs, defs);
      }
    }

    /** One name after the other; the registers of a right side are given back before its name takes one. */
    method CompileSequential(lhs: seq<Name>, rhs: seq<Expr>, defs: set<Name>)
      requires |lhs| == |rhs| && scopes != []
      modifies this
      ensures State() == After(old(code), ShortVarSequential.Sequential(lhs, rhs, defs, old(scopes), old(next)))
    {
      hide BindReg, CompileExpr;
      ghost var done := Bound([], scopes, next);
      for i := 0 to |lhs|
        invariant done == ShortVarSequential.Sequential(lhs[..i], rhs[..i], defs, old(scopes), old(next))
        invariant State() == After(old(code), done) && scopes != []
      {
        assert lhs[..i + 1][..i] == lhs[..i] && rhs[..i + 1][..i] == rhs[..i];
        if lhs[i] != BLANK {
          var watermark := next;
          ghost var c := CompileExpr(rhs[i], scopes, next);
          var reg := CompileExpression(rhs[i]);
          next := watermark;
          DeclareFromValue(lhs[i], defs, reg);
          assert old(code) + done.code + c.code == old(code) + (done.code + c.code);
          BindAfter(old(code), Bound(done.code + c.code, done.scopes, done.next), lhs[i], defs, reg);
          done := BindReg(Bound(done.code + c.code, done.scopes, done.next), lhs[i], defs, reg);
        }
      }
      assert lhs[..|lhs|] == lhs && rhs[..|rhs|] == rhs;
    }

    /** Phase one: every right side is evaluated, and kept in a temporary unless its name is blank. */
    method CompileTwoPhase(lhs: seq<Name>, rhs: seq<Expr>, defs: set<Name>)
      requires |lhs| == |rhs| && scopes != []
      modifies this
      ensures State() == After(old(code), TwoPhase(lhs, rhs, defs, old(scopes), old(next)))
    {
      hide Pin, PinMore;
      var temps: seq<Reg> := [];
      ghost var p := Pinned([], [], next);
      PinNone(rhs, Wanted(lhs), scopes, next);
      for i := 0 to |rhs|
        invariant p == Pin(rhs[..i], Wanted(lhs)[..i], old(scopes), old(next)) && temps == p.temps
        invariant State() == Bound(old(code) + p.code, old(scopes), p.next)
      {
        PinSnoc(rhs, Wanted(lhs), i, old(scopes), old(next));
        var temp := PinOne(rhs[i], lhs[i] != BLANK, old(code), p);
        temps := temps + [temp];
        p := PinMore(p, rhs[i], lhs[i] != BLANK, old(scopes));
      }
      ghost var b := DeclareFrom(lhs, temps, defs, scopes, next);
      DeclareTwoPhase(lhs, temps, defs);
      assert old(code) + p.code + b.code == old(code) + (p.code + b.code);
    }

    /** Phase two: each name that is not blank is declared from its temporary. */
    method DeclareTwoPhase(lhs: seq<Name>, temps: seq<Reg>, defs: set<Name>)
      requires |lhs| == |temps| && scopes != []
      modifies this
      ensures State() == After(old(code), DeclareFrom(lhs, temps, defs, old(scopes), old(next)))
    {
      ghost var done := Bound([], scopes, next);
      for i := 0 to |lhs|
        invariant done == DeclareFrom(lhs[..i], temps[..i], defs, old(scopes), old(next))
        invariant State() == After(old(code), done) && scopes != []
      {
        assert lhs[..i + 1][..i] == lhs[..i] && temps[..i + 1][..i] == temps[..i];
        if lhs[i] != BLANK {
          BindAfter(old(code), done, lhs[i], defs, temps[i]);
          DeclareFromValue(lhs[i], defs, temps[i]);
          done := BindReg(done, lhs[i], defs, temps[i]);
        }
      }
      assert lhs[..|lhs|] == lhs && temps[..|temps|] == temps;
    }

    // ---------- tuple assignments ----------

    /** Evaluates each expression into a temporary of its own. */
    method PinEach(es: seq<Expr>) returns (temps: seq<Reg>)
      modifies this
      ensures var p := Pin(es, All(|es|), old(scopes), old(next));
        State() == Bound(old(code) + p.code, old(scopes), p.next) && temps == p.temps
    {
      hide Pin, PinMore;
      temps := [];
      ghost var p := Pinned([], [], next);
      PinNone(es, All(|es|), scopes, next);
      for i := 0 to |es|
        invariant p == Pin(es[..i], All(|es|)[..i], old(scopes), old(next)) && temps == p.temps
        invariant State() == Bound(old(code) + p.code, old(scopes), p.next)
      {
        PinSnoc(es, All(|es|), i, old(scopes), old(next));
        var temp := PinOne(es[i], true, old(code), p);
        temps := temps + [temp];
        p := PinMore(p, es[i], true, old(scopes));
      }
    }

    /** Evaluates one operand or value and leaves it where it is held. */
    method PinOperand(e: Expr, hold: Hold, ghost before: seq<Instr>, ghost p: TupleLowering.Prepared) returns (o: TupleLowering.Operand)
      requires code == before + p.code && next == p.next
      modifies this
      ensures var q := TupleLowering.PrepareMore(p, e, hold, old(scopes));
        State() == Bound(before + q.code, old(scopes), q.next) && q.operands == p.operands + [o]
    {
      hide Pin, LookupReg;
      if hold != Copy {
        match e {
          case Ident(x) =>
            match LookupReg(scopes, x) {
              case Some(place) =>
                if place.box.Some? {
                  o := PinBox(place.reg, place.box.value, before, p);
                  return;
                } else if hold == Keep {
                  return TupleLowering.Variable(place.reg);
                }
              case None =>
            }
          case Star(b, kind) =>
            o := PinPointee(b, kind, before, p);
            return;
          case Index(b, i, elem) =>
            if elem.Listed? {
              o := PinElement(b, i, elem, before, p);
              return;
            }
          case _ =>
        }
      }
      var temps := PinEach([e]);
      ghost var c := Pin([e], All(1), scopes, p.next).code;
      assert before + p.code + c == before + (p.code + c);
      return TupleLowering.Fixed(temps[0]);
    }

    method PinBox(box: Reg, kind: Kind, ghost before: seq<Instr>, ghost p: TupleLowering.Prepared) returns (o: TupleLowering.Operand)
      requires code == before + p.code && next == p.next
      modifies this
      ensures var q := TupleLowering.PrepareBox(p, box, kind); State() == Bound(before + q.code, old(scopes), q.next) && q.operands == p.operands + [o]
    {
      var address := Alloc();
      Emit(Move(address, box));
      var shown := Alloc();
      Emit(ReadBox(shown, address, kind));
      assert before + p.code + [Move(address, box)] + [ReadBox(shown, address, kind)] == before + (p.code + [Move(address, box), ReadBox(shown, address, kind)]);
      return TupleLowering.Pointee(address, kind);
    }

    method PinPointee(b: Expr, kind: Kind, ghost before: seq<Instr>, ghost p: TupleLowering.Prepared) returns (o: TupleLowering.Operand)
      requires code == before + p.code && next == p.next
      modifies this
      ensures var q := TupleLowering.PrepareStar(p, b, kind, old(scopes)); State() == Bound(before + q.code, old(scopes), q.next) && q.operands == p.operands + [o]
    {
      hide Pin;
      var temps := PinEach([b]);
      var shown := Alloc();
      Emit(GetStar(shown, temps[0], kind));
      ghost var c := Pin([b], All(1), scopes, p.next).code;
      assert before + p.code + c + [GetStar(shown, temps[0], kind)] == before + (p.code + (c + [GetStar(shown, temps[0], kind)]));
      return TupleLowering.Pointee(temps[0], kind);
    }

    method PinElement(b: Expr, i: Expr, elem: Elem, ghost before: seq<Instr>, ghost p: TupleLowering.Prepared) returns (o: TupleLowering.Operand)
      requires code == before + p.code && next == p.next
      modifies this
      ensures var q := TupleLowering.PrepareElement(p, b, i, elem, old(scopes)); State() == Bound(before + q.code, old(scopes), q.next) && q.operands == p.operands + [o]
    {
      hide Pin;
      var temps := PinEach([b, i]);
      var shown := Alloc();
      Emit(GetIndex(shown, temps[0], temps[1], elem));
      ghost var c := Pin([b, i], All(2), scopes, p.next).code;
      assert before + p.code + c + [GetIndex(shown, temps[0], temps[1], elem)] == before + (p.code + (c + [GetIndex(shown, temps[0], temps[1], elem)]));
      return TupleLowering.Element(temps[0], temps[1], elem);
    }

    /** Evaluates the operands of every target before any value; plain names have none. */
    method PrepareTargets(ts: seq<Target>) returns (ops: seq<TupleLowering.Operand>)
      modifies this
      ensures var p := TupleLowering.Prepare(AllOperands(ts), TupleHeld.AllHolds(ts), old(scopes), old(next));
        State() == Bound(old(code) + p.code, old(scopes), p.next) && ops == p.operands
    {
      hide TupleLowering.Prepare, TupleLowering.PrepareMore, Operands, TupleHeld.OperandHolds;
      ops := [];
      ghost var p := TupleLowering.Prepared([], [], next);
      ReadyNone(scopes, next);
      for i := 0 to |ts|
        invariant p == Ready(AllOperands(ts[..i]), TupleHeld.AllHolds(ts[..i]), old(scopes), old(next)) && ops == p.operands
        invariant State() == Bound(old(code) + p.code, old(scopes), p.next)
      {
        var es, holds := Operands(ts[i]), TupleHeld.OperandHolds(ts[i]);
        ghost var front, marks := AllOperands(ts[..i]), TupleHeld.AllHolds(ts[..i]);
        assert front + es[..0] == front && marks + holds[..0] == marks;
        for j := 0 to |es|
          invariant p == Ready(front + es[..j], marks + holds[..j], old(scopes), old(next)) && ops == p.operands
          invariant State() == Bound(old(code) + p.code, old(scopes), p.next)
        {
          assert front + es[..j + 1] == front + es[..j] + [es[j]] && marks + holds[..j + 1] == marks + holds[..j] + [holds[j]];
          ReadySnoc(front + es[..j], marks + holds[..j], es[j], holds[j], old(scopes), old(next));
          var o := PinOperand(es[j], holds[j], old(code), p);
          ops := ops + [o];
          p := TupleLowering.PrepareMore(p, es[j], holds[j], old(scopes));
        }
        assert es[..|es|] == es && holds[..|es|] == holds;
        assert ts[..i + 1][..i] == ts[..i];
      }
      assert ts[..|ts|] == ts;
    }

    /** Evaluates every value before any is stored. */
    method CompileValues(rhs: seq<Expr>, refs: seq<bool>) returns (values: seq<TupleLowering.Operand>)
      requires |refs| == |rhs|
      modifies this
      ensures var p := TupleLowering.Prepare(rhs, TupleHeld.ValueHolds(rhs, refs), old(scopes), old(next));
        State() == Bound(old(code) + p.code, old(scopes), p.next) && values == p.operands
    {
      hide TupleLowering.Prepare, TupleLowering.PrepareMore;
      values := [];
      ghost var p, holds := TupleLowering.Prepared([], [], next), TupleHeld.ValueHolds(rhs, refs);
      ReadyNone(scopes, next);
      for i := 0 to |rhs|
        invariant p == Ready(rhs[..i], holds[..i], old(scopes), old(next)) && values == p.operands
        invariant State() == Bound(old(code) + p.code, old(scopes), p.next)
      {
        assert rhs[..i + 1] == rhs[..i] + [rhs[i]] && holds[..i + 1] == holds[..i] + [holds[i]];
        ReadySnoc(rhs[..i], holds[..i], rhs[i], holds[i], old(scopes), old(next));
        var o := PinOperand(rhs[i], TupleHeld.ValueHold(rhs[i], refs[i]), old(code), p);
        values := values + [o];
        p := TupleLowering.PrepareMore(p, rhs[i], holds[i], old(scopes));
      }
      assert rhs[..|rhs|] == rhs && holds[..|rhs|] == holds;
    }

    /** Stores each value into its target, from left to right. */
    method StoreValues(ts: seq<Target>, ops: seq<TupleLowering.Operand>, values: seq<TupleLowering.Operand>) returns (undefined: Option<Name>)
      requires |ops| == |AllOperands(ts)| && |values| == |ts|
      modifies this`code
      ensures match TupleLowering.StoreCode(ts, ops, values, scopes, next)
        case Stores(stores) => undefined == None && code == old(code) + stores
        case Undefined(x) => undefined == Some(x)
    {
      hide TupleLowering.StoreCode, TupleLowering.StoreOne, Operands;
      StoreNone(ts, ops, values, scopes, next);
      ghost var done: seq<Instr> := [];
      var k := 0;
      for i := 0 to |ts|
        invariant k == |AllOperands(ts[..i])| <= |ops|
        invariant TupleLowering.StoreCode(ts[..i], ops[..k], values[..i], scopes, next) == TupleLowering.Stores(done)
        invariant code == old(code) + done
      {
        assert ts[..i + 1][..i] == ts[..i];
        OperandsFit(ts, i + 1);
        var width := |Operands(ts[i])|;
        StoresSnoc(ts, i, ops[..k + width], values, scopes, next);
        assert ops[..k + width][..k] == ops[..k] && ops[..k + width][k..] == ops[k..k + width];
        match TupleLowering.StoreOne(ts[i], ops[k..k + width], values[i], scopes, next) {
          case Undefined(x) =>
            UndefinedStays(ts, i + 1, ops, values, scopes, next);
            return Some(x);
          case Stores(stores) =>
            code := code + stores;
            done := done + stores;
        }
        k := k + width;
      }
      assert ts[..|ts|] == ts && ops[..|ops|] == ops && values[..|values|] == values;
      return None;
    }

    /** Compiles a tuple assignment; `layoutsMatch` says whether a field swap may use the swap instruction. */
    method CompileTupleAssign(ts: seq<Target>, rhs: seq<Expr>, refs: seq<bool>, layoutsMatch: bool) returns (error: Option<Error>)
      requires |refs| == |rhs| && Live(scopes, next)
      modifies this
      ensures match TupleLowering.Lower(ts, rhs, refs, layoutsMatch, old(scopes), old(next))
        case Lowered(emitted, free) => error == None && State() == Bound(old(code) + emitted, old(scopes), free)
        case CountMismatch(targets, values) => error == Some(CountMismatch(targets, values)) && State() == old(State())
        case UndefinedVariable(x) => error == Some(UndefinedVariable(x))
    {
      if |rhs| != |ts| {
        return Some(CountMismatch(|ts|, |rhs|));
      }
      if TupleLowering.IsFieldSwap(ts, rhs) && layoutsMatch {
        ghost var c := CompileExpr(ts[0].base, scopes, next);
        var reg := CompileExpression(ts[0].base);
        Emit(SwapFields(reg, ts[0].kind, ts[0].field, ts[1].field));
        assert old(code) + c.code + [SwapFields(reg, ts[0].kind, ts[0].field, ts[1].field)] == old(code) + (c.code + [SwapFields(reg, ts[0].kind, ts[0].field, ts[1].field)]);
        return None;
      }
      error := CompileGeneral(ts, rhs, refs);
    }

    method CompileGeneral(ts: seq<Target>, rhs: seq<Expr>, refs: seq<bool>) returns (error: Option<Error>)
      requires |ts| == |rhs| == |refs| && Live(scopes, next)
      modifies this
      ensures match TupleLowering.LowerGeneral(ts, rhs, refs, old(scopes), old(next))
        case Lowered(emitted, free) => error == None && State() == Bound(old(code) + emitted, old(scopes), free)
        case CountMismatch(_, _) => false
        case UndefinedVariable(x) => error == Some(UndefinedVariable(x))
    {
      hide Live, AllOperands, TupleHeld.AllHolds, TupleHeld.ValueHolds, TupleLowering.Prepare, TupleLowering.StoreCode;
      ghost var p := TupleLowering.Prepare(AllOperands(ts), TupleHeld.AllHolds(ts), scopes, next);
      TupleLowering.PrepareRoom(AllOperands(ts), TupleHeld.AllHolds(ts), scopes, next);
      LiveMore(scopes, next, p.next);
      TupleLowering.ValuesRoom(rhs, refs, scopes, p.next);
      var ops := PrepareTargets(ts);
      ghost var q := TupleLowering.Prepare(rhs, TupleHeld.ValueHolds(rhs, refs), scopes, next);
      var values := CompileValues(rhs, refs);
      ghost var stores := TupleLowering.StoreCode(ts, ops, values, scopes, next);
      var undefined := StoreValues(ts, ops, values);
      for i := 0 to |values|
        invariant next == q.next - i && scopes == old(scopes)
        invariant stores.Stores? ==> code == old(code) + p.code + q.code + stores.code
      {
        next := next - 1;
      }
      if undefined.Some? {
        return Some(UndefinedVariable(undefined.value));
      }
      assert old(code) + p.code + q.code + stores.code == old(code) + (p.code + q.code + stores.code);
      return None;
    }
  }

  lemma {:induction false} OperandsFit(ts: seq<Target>, i: nat)
    requires i <= |ts|
    ensures |AllOperands(ts[..i])| <= |AllOperands(ts)|
    decreases |ts| - i
  {
    if i == |ts| {
      assert ts[..i] == ts;
    } else {
      assert ts[..i + 1][..i] == ts[..i];
      OperandsFit(ts, i + 1);
    }
  }

  /** Once a store is refused, so is the statement, with the same name. */
  lemma {:induction false} UndefinedStays(ts: seq<Target>, i: nat, ops: seq<TupleLowering.Operand>, values: seq<TupleLowering.Operand>, sc: RegScopes, scratch: Reg)
    requires |ops| == |AllOperands(ts)| && |values| == |ts| && i <= |ts| && |AllOperands(ts[..i])| <= |ops|
    requires TupleLowering.StoreCode(ts[..i], ops[..|AllOperands(ts[..i])|], values[..i], sc, scratch).Undefined?
    ensures TupleLowering.StoreCode(ts, ops, values, sc, scratch) == TupleLowering.StoreCode(ts[..i], ops[..|AllOperands(ts[..i])|], values[..i], sc, scratch)
    decreases |ts| - i
  {
    if i == |ts| {
      assert ts[..i] == ts && values[..i] == values && ops[..|ops|] == ops;
    } else {
      hide TupleLowering.StoreOne, Operands;
      OperandsFit(ts, i + 1);
      var k, l := |AllOperands(ts[..i])|, |AllOperands(ts[..i + 1])|;
      StoresSnoc(ts, i, ops[..l], values, sc, scratch);
      assert ops[..l][..k] == ops[..k];
      UndefinedStays(ts, i + 1, ops, values, sc, scratch);
    }
  }
}
