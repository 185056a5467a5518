/** Classification of retired RISC-V instructions (`Instruction` of trace_gen.py). */
module Instructions {
  import opened Wrappers
  import opened Symbols

  /** The mnemonics that the classifiers look at; every other one is `OtherMnem`. */
  datatype Mnem = Jal | Jalr | CJal | CJalr | CJ | CJr | Ret | OtherMnem(text: string)

  /** Register x`num`, an integer, or any operand text that is neither. */
  datatype Operand = Reg(num: nat) | Imm(value: int) | Text(text: string)

  datatype Cat = Plain | Call | Tail | Return

  datatype Instr = Instr(
    mnem: Mnem, operands: seq<Operand>, cycle: int, pc: int, tid: int, pid: int, fn: string)

  datatype Error = IndexError | AssertionError | RuntimeError

  function OperandAt(i: Instr, k: nat): Result<Operand, Error> {
    if k < |i.operands| then Success(i.operands[k]) else Failure(IndexError)
  }

  /** x1 and x5, the two link registers of the calling convention. */
  predicate IsLink(o: Operand) {
    o == Reg(1) || o == Reg(5)
  }

  predicate IsFnStart(o: Operand, syms: seq<Sym>) {
    o.Imm? && o.value in FnStarts(syms)
  }

  function IsCall(i: Instr): Result<bool, Error> {
    match i.mnem
    case Jal =>
      var rd :- OperandAt(i, 0);
      Success(IsLink(rd))
    case Jalr =>
      var rd :- OperandAt(i, 0);
      if !IsLink(rd) then Success(false)
      else
        var rs :- OperandAt(i, 1);
        Success((rd, rs) != (Reg(1), Reg(5)) && (rd, rs) != (Reg(5), Reg(1)))
    case CJalr => Success(Reg(5) !in i.operands)
    case CJal => Success(true)
    case _ => Success(false)
  }

  function IsTailCall(i: Instr, syms: seq<Sym>): Result<bool, Error> {
    match i.mnem
    case Jal =>
      var rd :- OperandAt(i, 0);
      if rd != Reg(0) then Success(false)
      else
        var target :- OperandAt(i, 1);
        Success(IsFnStart(target, syms))
    case CJ =>
      var target :- OperandAt(i, 0);
      Success(IsFnStart(target, syms))
    case Jalr =>
      var rd :- OperandAt(i, 0);
      if rd == Reg(0) then
        var rs :- OperandAt(i, 1);
        Success(!IsLink(rs))
      else if rd == Reg(6) then
        var rs :- OperandAt(i, 1);
        Success(rs == Reg(28) && LookupSym(syms, i.pc) == NOSYM)
      else Success(false)
    case CJr =>
      var rs :- OperandAt(i, 0);
      Success(!IsLink(rs) && IsFnStart(rs, syms))
    case _ => Success(false)
  }

  function IsReturn(i: Instr): Result<bool, Error> {
    match i.mnem
    case Ret => Success(true)
    case Jalr =>
      var rs :- OperandAt(i, 1);
      if !IsLink(rs) then Success(false)
      else
        var rd :- OperandAt(i, 0);
        Success(!IsLink(rd))
    case CJr =>
      var rs :- OperandAt(i, 0);
      Success(rs == Reg(1))
    case _ => Success(false)
  }

  /** The category that `process_instr` assigns, trying call, tail call and return in this order. */
  function Classify(i: Instr, syms: seq<Sym>): Result<Cat, Error> {
    var call :- IsCall(i);
    if call then Success(Call)
    else
      var tail :- IsTailCall(i, syms);
      if tail then Success(Tail)
      else
        var ret :- IsReturn(i);
        Success(if ret then Return else Plain)
  }

  /** The operands every jump needs for the classifiers not to index past the end. */
  predicate WellFormed(i: Instr) {
    match i.mnem
    case Jal => 1 <= |i.operands| && (i.operands[0] == Reg(0) ==> 2 <= |i.operands|)
    case Jalr => 2 <= |i.operands|
    case CJ => 1 <= |i.operands|
    case CJr => 1 <= |i.operands|
    case _ => true
  }

  /** Classification raises exactly on the ill-formed instructions, and then with an IndexError. */
  lemma ClassifyRaises(i: Instr, syms: seq<Sym>)
    ensures Classify(i, syms).Failure? <==> !WellFormed(i)
    ensures Classify(i, syms).Failure? ==> Classify(i, syms).error == IndexError
  {
  }

  /** The three tests exclude each other, so the order in which they are tried does not matter. */
  lemma ClassifyIsOrderFree(i: Instr, syms: seq<Sym>)
    requires WellFormed(i)
    ensures IsCall(i).Success? && IsTailCall(i, syms).Success? && IsReturn(i).Success?
    ensures Classify(i, syms) == Success(Call) <==> IsCall(i) == Success(true)
    ensures Classify(i, syms) == Success(Tail) <==> IsTailCall(i, syms) == Success(true)
    ensures Classify(i, syms) == Success(Return) <==> IsReturn(i) == Success(true)
  {
  }

  // ---- The categories, mnemonic by mnemonic ----

  /** The operand is an immediate at which some symbol starts. */
  ghost predicate StartsSymbol(o: Operand, syms: seq<Sym>) {
    o.Imm? && exists k :: 0 <= k < |syms| && syms[k].start == o.value
  }

  lemma FnStartExactly(o: Operand, syms: seq<Sym>)
    ensures IsFnStart(o, syms) <==> StartsSymbol(o, syms)
  {
    if StartsSymbol(o, syms) {
      var k :| 0 <= k < |syms| && syms[k].start == o.value;
      assert FnStarts(syms)[k] == o.value;
    }
  }

  /** Direct jumps: a call links into x1 or x5, and a tail call does not link and goes to the start of a symbol. */
  lemma DirectJumps(i: Instr, syms: seq<Sym>)
    requires WellFormed(i) && i.mnem in {Jal, CJal, CJ}
    ensures Classify(i, syms) == Success(Call) <==>
      i.mnem == CJal || (i.mnem == Jal && (i.operands[0] == Reg(1) || i.operands[0] == Reg(5)))
    ensures Classify(i, syms) == Success(Tail) <==>
      || (i.mnem == Jal && i.operands[0] == Reg(0) && StartsSymbol(i.operands[1], syms))
      || (i.mnem == CJ && StartsSymbol(i.operands[0], syms))
    ensures Classify(i, syms) != Success(Return)
  {
    if i.mnem == Jal && i.operands[0] == Reg(0) {
      FnStartExactly(i.operands[1], syms);
    }
    if i.mnem == CJ {
      FnStartExactly(i.operands[0], syms);
    }
  }

  /** Indirect jumps `jalr rd, rs`: the link registers decide, and x6 with x28 outside all symbols is a tail call. */
  lemma IndirectJumps(i: Instr, syms: seq<Sym>)
    requires WellFormed(i) && i.mnem == Jalr
    ensures var rd, rs := i.operands[0], i.operands[1];
      && (Classify(i, syms) == Success(Call) <==>
            (rd == Reg(1) && rs != Reg(5)) || (rd == Reg(5) && rs != Reg(1)))
      && (Classify(i, syms) == Success(Return) <==>
            rd != Reg(1) && rd != Reg(5) && (rs == Reg(1) || rs == Reg(5)))
      && (Classify(i, syms) == Success(Tail) <==>
            || (rd == Reg(0) && rs != Reg(1) && rs != Reg(5))
            || (rd == Reg(6) && rs == Reg(28) && LookupSym(syms, i.pc) == NOSYM))
  {
  }

  /** On a table of disjoint symbols, none of which is called `nosym`, x6 with x28 is a tail call outside them all. */
  lemma Trampoline(i: Instr, syms: seq<Sym>)
    requires i.mnem == Jalr && i.operands == [Reg(6), Reg(28)]
    requires SortedSyms(syms) && NonEmpty(syms) && PairwiseDisjoint(syms)
    requires forall k :: 0 <= k < |syms| ==> syms[k].name != NOSYM
    ensures Classify(i, syms) == Success(Tail) <==>
      forall k :: 0 <= k < |syms| ==> i.pc < syms[k].start || syms[k].end <= i.pc
    ensures Classify(i, syms) in {Success(Tail), Success(Plain)}
  {
    LookupDisjoint(syms, i.pc);
  }

  /** Compressed indirect jumps, the pseudo-instruction `ret`, and everything that is no jump. */
  lemma CompressedJumps(i: Instr, syms: seq<Sym>)
    requires WellFormed(i) && i.mnem !in {Jal, CJal, CJ, Jalr}
    ensures Classify(i, syms) == Success(Call) <==> i.mnem == CJalr && Reg(5) !in i.operands
    ensures Classify(i, syms) == Success(Return) <==> i.mnem == Ret || (i.mnem == CJr && i.operands[0] == Reg(1))
    ensures Classify(i, syms) == Success(Tail) <==> i.mnem == CJr && StartsSymbol(i.operands[0], syms)
  {
    if i.mnem == CJr {
      FnStartExactly(i.operands[0], syms);
    }
  }

  // ---- Return-address-stack hints, section 2.5 of the RISC-V Unprivileged ISA manual ----

  datatype RasAction = RasNone | RasPush | RasPop | RasPopThenPush

  /** Table 2.1: the action hinted by an indirect jump that links into `rd` and jumps through `rs`. */
  function RasHint(rd: Operand, rs: Operand): RasAction {
    if !IsLink(rd) then (if IsLink(rs) then RasPop else RasNone)
    else if !IsLink(rs) || rd == rs then RasPush
    else RasPopThenPush
  }

  /** The base-ISA `jalr rd, rs` that an indirect jump stands for. */
  function ExpandIndirect(i: Instr): Option<(Operand, Operand)>
    requires WellFormed(i)
  {
    match i.mnem
    case Jalr => Some((i.operands[0], i.operands[1]))
    case CJr => Some((Reg(0), i.operands[0]))
    case CJalr => if |i.operands| == 1 then Some((Reg(1), i.operands[0])) else None
    case Ret => Some((Reg(0), Reg(1)))
    case _ => None
  }

  /** The one indirect jump on which the classifiers and Table 2.1 disagree: `c.jr x5`. */
  predicate CompressedJumpThroughX5(i: Instr) {
    i.mnem == CJr && 1 <= |i.operands| && i.operands[0] == Reg(5)
  }

  /**
   * On every indirect jump a call is exactly a push-only row of Table 2.1, and a return is exactly a
   * pop-only row unless the instruction is `c.jr x5`, which is popped by the table and missed by the code.
   * A tail call never touches the return-address stack.
   */
  lemma ClassifyFollowsRasHints(i: Instr, syms: seq<Sym>)
    requires WellFormed(i) && ExpandIndirect(i).Some?
    ensures var (rd, rs) := ExpandIndirect(i).value;
      && (IsCall(i) == Success(true) <==> RasHint(rd, rs) == RasPush)
      && (IsReturn(i) == Success(true) <==> RasHint(rd, rs) == RasPop && !CompressedJumpThroughX5(i))
      && (IsTailCall(i, syms) == Success(true) ==> RasHint(rd, rs) == RasNone)
  {
    if i.mnem == CJalr {
      assert i.operands == [i.operands[0]];
    }
  }

  /** `c.jr x5` is a plain instruction to the code although the table pops on it. */
  lemma CompressedJumpThroughX5IsPlain(i: Instr, syms: seq<Sym>)
    requires CompressedJumpThroughX5(i)
    ensures RasHint(Reg(0), i.operands[0]) == RasPop
    ensures Classify(i, syms) == Success(Plain)
  {
  }
}
