/// The interpreter's dispatch (libaleth-interpreter/VM.cpp) on user code and on the optimizer's
/// rewriting of it: both run in lockstep, and neither reads outside its code.
module VmLockstep {
  import opened Bytes
  import opened Numbers
  import opened Options
  import opened VmCode
  import VmGas
  import opened VmOptimizer

  /// Memory, storage, return data, logs: all that only the other operations touch.
  type World(!new)

  datatype Metric = Metric(cost: nat, required: nat, change: int)

  /// The stack holds its top first.
  datatype Machine = Machine(pc: nat, stack: seq<nat>, gas: nat, world: World)

  datatype Halt = OutOfGas | StackUnderflow | OutOfStack | BadJumpDestination | Stopped | Other(status: nat)

  /// Stray stands for a read outside the code or the pool, which the original does not check.
  datatype Outcome = Running(m: Machine) | Halted(why: Halt, gas: nat, world: World) | Stray

  /// What any other operation does before the program counter moves on by one.
  datatype Effect = Go(stack: seq<nat>, gas: nat, world: World) | End(why: Halt, endGas: nat, endWorld: World)

  /// The table of the revision, and all operations but pushes and jumps.
  datatype Schedule = Schedule(table: byte -> Metric, effect: (byte, Machine) -> Effect)

  const STACK_LIMIT: nat := 1024

  /// What is assumed of the table: pushes are alike, and pushes and jumps need and leave what
  /// the EVM says.
  predicate EvmcTable(table: byte -> Metric) {
    && (forall op: byte :: IsPush(op) ==> table(op) == table(PUSH1))
    && table(PUSH1).required == 0 && table(PUSH1).change == 1
    && table(JUMP).required == 1 && table(JUMP).change == -1
    && table(JUMPI).required == 2 && table(JUMPI).change == -2
    && forall op: byte :: table(op).change >= -(table(op).required as int)
  }

  /// What is assumed of the other operations: they leave the stack the size the table says.
  ghost predicate KeepsSizes(s: Schedule) {
    forall op: byte, m: Machine ::
      var e := s.effect(op, m); e.Go? ==> |e.stack| == |m.stack| + s.table(op).change
  }

  /// adjustStack.
  function BadStack(metric: Metric, height: nat): Option<Halt> {
    if height < metric.required then Some(StackUnderflow)
    else if height + metric.change > STACK_LIMIT then Some(OutOfStack)
    else None
  }

  // ---------------------------------------------------------------- two semantics

  /// One instruction of the user's code.
  function StepUser(s: Schedule, code: bytes, m: Machine): Outcome
    requires EvmcTable(s.table)
  {
    var op := UserOp(code, m.pc);
    var metric := s.table(op);
    match BadStack(metric, |m.stack|)
    case Some(why) => Halted(why, m.gas, m.world)
    case None =>
      if IsPush(op) then
        if m.gas < metric.cost then Halted(OutOfGas, m.gas, m.world)
        else Running(Machine(m.pc + Width(code, m.pc), [PushValue(code, m.pc)] + m.stack, m.gas - metric.cost, m.world))
      else if op == JUMP || op == JUMPI then
        if m.gas < metric.cost then Halted(OutOfGas, m.gas, m.world)
        else
          var gas, rest := m.gas - metric.cost, m.stack[if op == JUMP then 1 else 2..];
          if op == JUMPI && m.stack[1] == 0 then Running(Machine(m.pc + 1, rest, gas, m.world))
          else if Verified(code, m.stack[0]) then Running(Machine(m.stack[0], rest, gas, m.world))
          else Halted(BadJumpDestination, gas, m.world)
      else if op == STOP then
        if m.gas < metric.cost then Halted(OutOfGas, m.gas, m.world) else Halted(Stopped, m.gas - metric.cost, m.world)
      else
        match s.effect(op, m)
        case Go(stack, gas, world) => Running(Machine(m.pc + 1, stack, gas, world))
        case End(why, gas, world) => Halted(why, gas, world)
  }

  /// initMetrics: the optimizer's operations cost what those they replace cost.
  function Metrics(table: byte -> Metric, op: byte): Metric {
    if op == PUSHC then table(PUSH1)
    else if op == JUMPC then table(JUMP)
    else if op == JUMPCI then table(JUMPI)
    else table(op)
  }

  /// What the interpreter works with besides the machine.
  datatype Program = Program(code: bytes, pool: seq<nat>, dests: seq<nat>)

  /// One instruction of the rewritten code.
  function StepOptimized(s: Schedule, p: Program, m: Machine): Outcome
    requires EvmcTable(s.table)
  {
    if m.pc >= |p.code| then Stray
    else
      var op := p.code[m.pc];
      var metric := Metrics(s.table, op);
      match BadStack(metric, |m.stack|)
      case Some(why) => Halted(why, m.gas, m.world)
      case None =>
        if op == PUSHC then
          if m.gas < metric.cost then Halted(OutOfGas, m.gas, m.world)
          else if m.pc + 3 >= |p.code| then Stray
          else
            var off := TwoBytes(p.code[m.pc + 1], p.code[m.pc + 2]);
            if off >= |p.pool| then Stray
            else Running(Machine(m.pc + 3 + p.code[m.pc + 3], [p.pool[off]] + m.stack, m.gas - metric.cost, m.world))
        else if IsPush(op) then
          if m.gas < metric.cost then Halted(OutOfGas, m.gas, m.world)
          else if m.pc + PushBytes(op) >= |p.code| then Stray
          else Running(Machine(m.pc + 1 + PushBytes(op), [FromBE(p.code[m.pc + 1..m.pc + 1 + PushBytes(op)])] + m.stack,
                               m.gas - metric.cost, m.world))
        else if op == JUMP || op == JUMPI || op == JUMPC || op == JUMPCI then
          if m.gas < metric.cost then Halted(OutOfGas, m.gas, m.world)
          else
            var cond := op == JUMPI || op == JUMPCI;
            var gas, rest := m.gas - metric.cost, m.stack[if cond then 2 else 1..];
            if cond && m.stack[1] == 0 then Running(Machine(m.pc + 1, rest, gas, m.world))
            else if op == JUMPC || op == JUMPCI then
              Running(Machine(m.stack[0] % U64, rest, gas, m.world))
            else if m.stack[0] <= MAX63 && m.stack[0] in p.dests then Running(Machine(m.stack[0], rest, gas, m.world))
            else Halted(BadJumpDestination, gas, m.world)
        else if op == STOP then
          if m.gas < metric.cost then Halted(OutOfGas, m.gas, m.world) else Halted(Stopped, m.gas - metric.cost, m.world)
        else
          match s.effect(op, m)
          case Go(stack, gas, world) => Running(Machine(m.pc + 1, stack, gas, world))
          case End(why, gas, world) => Halted(why, gas, world)
  }

  // ------------------------------------------------------------------- lockstep

  /// A jump whose destination the instruction before it pushes.
  ghost predicate IsConstJump(code: bytes, pc: nat) {
    (At(code, pc) == JUMP || At(code, pc) == JUMPI) && AfterConst(code, pc)
  }

  /// What holds in every reachable state of the user's program.
  ghost predicate Reachable(code: bytes, m: Machine) {
    && Start(code, m.pc) && m.pc < |code| + EXTRA_BYTES
    && |m.stack| <= STACK_LIMIT
    && (IsConstJump(code, m.pc) ==> m.stack != [] && Verified(code, m.stack[0]))
  }

  ghost predicate IsProgram(code: bytes, p: Program) {
    Optimized(code, p.code) && IsTable(code, p.dests) && p.pool == Pool(code)
  }

  /// Two bytes are enough for the constant's offset, or at least lead to the same constant.
  predicate OffsetFits(code: bytes, pc: nat)
    requires PoolIndex(code, pc) < |Pool(code)|
  {
    Pool(code)[PoolIndex(code, pc) % 0x1_0000] == Pool(code)[PoolIndex(code, pc)]
  }

  /// The data of a push that was left alone.
  lemma {:induction false} SameData(code: bytes, out: bytes, from: nat, n: nat)
    requires from + n <= |out| && forall i :: from <= i < from + n ==> out[i] == At(code, i)
    ensures Data(code, from, n) == out[from..from + n]
  {
    if n > 0 {
      SameData(code, out, from, n - 1);
      assert out[from..from + n] == out[from..from + n - 1] + [out[from + n - 1]];
    }
  }

  lemma {:induction false} BigPushStep(s: Schedule, code: bytes, p: Program, m: Machine)
    requires EvmcTable(s.table) && IsProgram(code, p) && Reachable(code, m) && IsBig(code, m.pc)
    ensures var i := PoolIndex(code, m.pc);
            && i < |p.pool|
            && StepOptimized(s, p, m) == match StepUser(s, code, m) {
                 case Running(n) => Running(n.(stack := [p.pool[i % 0x1_0000]] + m.stack))
                 case halted => halted
               }
  {
    InPool(code, m.pc);
    var op := UserOp(code, m.pc);
    assert IsPush(op) && s.table(op) == s.table(PUSH1);
    assert p.code[m.pc] == NewOp(code, m.pc) && NewData(code, p.code, m.pc);
  }

  /// The two semantics agree on an instruction; on a long push exactly when its offset fits.
  lemma {:induction false} StepAgrees(s: Schedule, code: bytes, p: Program, m: Machine)
    requires EvmcTable(s.table) && IsProgram(code, p) && Reachable(code, m)
    ensures StepUser(s, code, m) != Stray
    ensures IsBig(code, m.pc) ==> PoolIndex(code, m.pc) < |Pool(code)|
    ensures IsBig(code, m.pc) && StepUser(s, code, m).Running? ==>
              (StepOptimized(s, p, m) == StepUser(s, code, m) <==> OffsetFits(code, m.pc))
    ensures !IsBig(code, m.pc) || !StepUser(s, code, m).Running? ==> StepOptimized(s, p, m) == StepUser(s, code, m)
  {
    if IsBig(code, m.pc) {
      BigPushStep(s, code, p, m);
      assert StepUser(s, code, m).Running? ==> StepUser(s, code, m).m.stack == [PushValue(code, m.pc)] + m.stack;
      InPool(code, m.pc);
      var i := PoolIndex(code, m.pc);
      assert ([p.pool[i % 0x1_0000]] + m.stack)[0] == p.pool[i % 0x1_0000];
      assert ([PushValue(code, m.pc)] + m.stack)[0] == PushValue(code, m.pc);
    } else {
      SmallStepAgrees(s, code, p, m);
    }
  }

  lemma {:induction false} SmallStepAgrees(s: Schedule, code: bytes, p: Program, m: Machine)
    requires EvmcTable(s.table) && IsProgram(code, p) && Reachable(code, m) && !IsBig(code, m.pc)
    ensures StepOptimized(s, p, m) == StepUser(s, code, m)
  {
    if IsPush(UserOp(code, m.pc)) {
      PushAgrees(s, code, p, m);
    } else {
      assert p.code[m.pc] == NewOp(code, m.pc);
      TableVerifies(code, p.dests);
    }
  }

  lemma {:induction false} PushAgrees(s: Schedule, code: bytes, p: Program, m: Machine)
    requires EvmcTable(s.table) && IsProgram(code, p) && Reachable(code, m) && !IsBig(code, m.pc)
    requires IsPush(UserOp(code, m.pc))
    ensures StepOptimized(s, p, m) == StepUser(s, code, m)
  {
    hide IsProgram, EvmcTable, Reachable, PushValue, PushBytes, Width, UserOp, At;
    PushReads(code, p, m);
  }

  /// What a push that was left alone finds.
  lemma PushReads(code: bytes, p: Program, m: Machine)
    requires IsProgram(code, p) && Reachable(code, m) && !IsBig(code, m.pc) && IsPush(UserOp(code, m.pc))
    ensures var op, n := UserOp(code, m.pc), PushBytes(UserOp(code, m.pc));
            && op != PUSHC
            && m.pc + n < |p.code| && p.code[m.pc] == op && m.pc + 1 + n == m.pc + Width(code, m.pc)
            && FromBE(p.code[m.pc + 1..m.pc + 1 + n]) == PushValue(code, m.pc)
  {
    assert p.code[m.pc] == NewOp(code, m.pc) && NewData(code, p.code, m.pc);
    SameData(code, p.code, m.pc + 1, PushBytes(UserOp(code, m.pc)));
  }

  lemma TableVerifies(code: bytes, dests: seq<nat>)
    requires IsTable(code, dests)
    ensures forall d: nat :: d <= MAX63 && d in dests <==> Verified(code, d)
  {
  }

  /// A step from a reachable state leads to one.
  lemma {:induction false} StaysReachable(s: Schedule, code: bytes, m: Machine)
    requires EvmcTable(s.table) && KeepsSizes(s) && Reachable(code, m) && StepUser(s, code, m).Running?
    ensures Reachable(code, StepUser(s, code, m).m)
  {
    var n := StepUser(s, code, m).m;
    ReachesNext(code, 0, m.pc);
    AfterThis(code, m.pc);
    if n.pc != m.pc + Width(code, m.pc) {
      assert IsDest(code, n.pc);
    }
  }

  // ------------------------------------------------------------------ whole runs

  function RunUser(s: Schedule, code: bytes, m: Machine, steps: nat): Outcome
    requires EvmcTable(s.table)
    decreases steps
  {
    if steps == 0 then Running(m)
    else match StepUser(s, code, m) { case Running(n) => RunUser(s, code, n, steps - 1) case end => end }
  }

  function RunOptimized(s: Schedule, p: Program, m: Machine, steps: nat): Outcome
    requires EvmcTable(s.table)
    decreases steps
  {
    if steps == 0 then Running(m)
    else match StepOptimized(s, p, m) { case Running(n) => RunOptimized(s, p, n, steps - 1) case end => end }
  }

  function Initial(gas: nat, world: World): Machine {
    Machine(0, [], gas, world)
  }

  lemma InitialReachable(code: bytes, gas: nat, world: World)
    ensures Reachable(code, Initial(gas, world))
  {
    FirstIsNoJump(code);
  }

  /// Every long push finds its own constant.
  ghost predicate PoolFits(code: bytes) {
    forall pc: nat :: Start(code, pc) && IsBig(code, pc) ==>
      PoolIndex(code, pc) < |Pool(code)| && OffsetFits(code, pc)
  }

  /// It does when no more than 65536 constants are pooled.
  lemma SmallPoolFits(code: bytes)
    requires |Pool(code)| <= 0x1_0000
    ensures PoolFits(code)
  {
    forall pc: nat | Start(code, pc) && IsBig(code, pc)
      ensures PoolIndex(code, pc) < |Pool(code)| && OffsetFits(code, pc)
    {
      InPool(code, pc);
    }
  }

  /// The rewritten code runs in lockstep with the user's code: after any number of steps both are
  /// in the same state, or have ended in the same way; and every state on the way is reachable,
  /// so no read leaves the code, and the stack keeps its limit.
  lemma {:induction false} Lockstep(s: Schedule, code: bytes, p: Program, m: Machine, steps: nat)
    requires EvmcTable(s.table) && KeepsSizes(s) && IsProgram(code, p) && PoolFits(code) && Reachable(code, m)
    ensures RunOptimized(s, p, m, steps) == RunUser(s, code, m, steps) != Stray
    ensures RunUser(s, code, m, steps).Running? ==> Reachable(code, RunUser(s, code, m, steps).m)
    decreases steps
  {
    if steps > 0 {
      StepAgrees(s, code, p, m);
      if StepUser(s, code, m).Running? {
        StaysReachable(s, code, m);
        Lockstep(s, code, p, StepUser(s, code, m).m, steps - 1);
      }
    }
  }

  /// A long push parts the two at once if and only if its offset does not fit.
  lemma {:induction false} PartsWhereOffsetWraps(s: Schedule, code: bytes, p: Program, m: Machine)
    requires EvmcTable(s.table) && IsProgram(code, p) && Reachable(code, m)
    requires IsBig(code, m.pc) && StepUser(s, code, m).Running?
    ensures PoolIndex(code, m.pc) < |Pool(code)|
    ensures StepOptimized(s, p, m) != StepUser(s, code, m) <==> !OffsetFits(code, m.pc)
    ensures StepOptimized(s, p, m) != StepUser(s, code, m) ==> PoolIndex(code, m.pc) >= 0x1_0000
  {
    StepAgrees(s, code, p, m);
  }

  /// A long push that is executed finds its own constant.
  predicate PushFits(s: Schedule, code: bytes, m: Machine)
    requires EvmcTable(s.table)
  {
    IsBig(code, m.pc) && StepUser(s, code, m).Running? ==>
      PoolIndex(code, m.pc) < |Pool(code)| && OffsetFits(code, m.pc)
  }

  /// Every long push that the user's run executes does.
  predicate RunFits(s: Schedule, code: bytes, m: Machine, steps: nat)
    requires EvmcTable(s.table)
    decreases steps
  {
    steps == 0 || (PushFits(s, code, m) &&
      match StepUser(s, code, m) { case Running(n) => RunFits(s, code, n, steps - 1) case _ => true })
  }

  /// So does the one in the state that the run gets to.
  lemma {:induction false} FitsThere(s: Schedule, code: bytes, m: Machine, steps: nat, n: Machine)
    requires EvmcTable(s.table) && RunFits(s, code, m, steps + 1) && RunUser(s, code, m, steps) == Running(n)
    ensures PushFits(s, code, n)
    decreases steps
  {
    hide StepUser, PushFits;
    if steps > 0 {
      FitsThere(s, code, StepUser(s, code, m).m, steps - 1, n);
    }
  }

  /// Where all constants' offsets fit, they do on every run.
  lemma {:induction false} PoolFitsRuns(s: Schedule, code: bytes, m: Machine, steps: nat)
    requires EvmcTable(s.table) && KeepsSizes(s) && PoolFits(code) && Reachable(code, m)
    ensures RunFits(s, code, m, steps)
    decreases steps
  {
    hide StepUser, KeepsSizes;
    if steps > 0 && StepUser(s, code, m).Running? {
      StaysReachable(s, code, m);
      PoolFitsRuns(s, code, StepUser(s, code, m).m, steps - 1);
    }
  }

  ghost predicate RunsAgree(s: Schedule, code: bytes, p: Program, m: Machine, steps: nat)
    requires EvmcTable(s.table)
  {
    forall j: nat :: j <= steps ==> RunOptimized(s, p, m, j) == RunUser(s, code, m, j)
  }

  /// Two runs agree step by step, to whatever length, if and only if every long push that is
  /// executed on the way finds its own constant: they part at the first that does not.
  lemma {:induction false} AgreeExactly(s: Schedule, code: bytes, p: Program, m: Machine, steps: nat)
    requires EvmcTable(s.table) && KeepsSizes(s) && IsProgram(code, p) && Reachable(code, m)
    ensures RunsAgree(s, code, p, m, steps) <==> RunFits(s, code, m, steps)
    decreases steps
  {
    if steps > 0 {
      StepAgrees(s, code, p, m);
      if StepUser(s, code, m).Running? {
        StaysReachable(s, code, m);
        var n := StepUser(s, code, m).m;
        AgreeExactly(s, code, p, n, steps - 1);
        if PushFits(s, code, m) {
          AgreeLater(s, code, p, m, n, steps);
        } else {
          AgreeFirst(s, code, p, m);
        }
      } else {
        AgreeEnded(s, code, p, m, steps);
      }
    }
  }

  lemma AgreeLater(s: Schedule, code: bytes, p: Program, m: Machine, n: Machine, steps: nat)
    requires EvmcTable(s.table) && steps > 0
    requires StepUser(s, code, m) == StepOptimized(s, p, m) == Running(n)
    ensures RunsAgree(s, code, p, m, steps) <==> RunsAgree(s, code, p, n, steps - 1)
  {
    hide StepUser, StepOptimized;
    if RunsAgree(s, code, p, m, steps) {
      forall j: nat | j <= steps - 1 ensures RunOptimized(s, p, n, j) == RunUser(s, code, n, j) {
        assert RunOptimized(s, p, m, j + 1) == RunUser(s, code, m, j + 1);
      }
    }
    if RunsAgree(s, code, p, n, steps - 1) {
      forall j: nat | j <= steps ensures RunOptimized(s, p, m, j) == RunUser(s, code, m, j) {
        assert j > 0 ==> RunOptimized(s, p, n, j - 1) == RunUser(s, code, n, j - 1);
      }
    }
  }

  lemma AgreeEnded(s: Schedule, code: bytes, p: Program, m: Machine, steps: nat)
    requires EvmcTable(s.table) && StepUser(s, code, m) == StepOptimized(s, p, m) && !StepUser(s, code, m).Running?
    ensures RunsAgree(s, code, p, m, steps)
  {
    hide StepUser, StepOptimized;
  }

  lemma AgreeFirst(s: Schedule, code: bytes, p: Program, m: Machine)
    requires EvmcTable(s.table) && StepUser(s, code, m) != StepOptimized(s, p, m)
    ensures RunOptimized(s, p, m, 1) != RunUser(s, code, m, 1)
  {
    hide StepUser, StepOptimized;
    var a, b := StepUser(s, code, m), StepOptimized(s, p, m);
    assert RunUser(s, code, m, 1) == match a { case Running(n) => RunUser(s, code, n, 0) case end => end };
    assert RunOptimized(s, p, m, 1) == match b { case Running(n) => RunOptimized(s, p, n, 0) case end => end };
  }

  // -------------------------------------------------------------- the interpreter

  /// What is assumed of the costs: whatever goes on has cost something.
  ghost predicate Charges(s: Schedule) {
    && s.table(PUSH1).cost > 0 && s.table(JUMP).cost > 0 && s.table(JUMPI).cost > 0
    && forall op: byte, m: Machine :: s.effect(op, m).Go? ==> s.effect(op, m).gas < m.gas
  }

  /// An instruction that leaves this gas of that one, with some operands, in memory of some size.
  ghost predicate MeteredStep(rules: VmGas.Rules, op: VmGas.Op, mem: nat, gas: nat, left: nat) {
    && VmGas.Sane(rules, op)
    && VmGas.Spend(rules, op, VmGas.Gauge(gas, mem)).Some?
    && VmGas.Spend(rules, op, VmGas.Gauge(gas, mem)).value.gas == left
  }

  /// Whatever goes on is charged for as VmGas says.
  ghost predicate Metered(s: Schedule) {
    && s.table(PUSH1).cost > 0 && s.table(JUMP).cost > 0 && s.table(JUMPI).cost > 0
    && forall op: byte, m: Machine :: s.effect(op, m).Go? ==>
         exists rules, o, mem :: MeteredStep(rules, o, mem, m.gas, s.effect(op, m).gas)
  }

  /// So the metering is what makes every run end.
  lemma MeteredCharges(s: Schedule)
    requires Metered(s)
    ensures Charges(s)
  {
    forall op: byte, m: Machine | s.effect(op, m).Go? ensures s.effect(op, m).gas < m.gas {
      var rules, o, mem :| MeteredStep(rules, o, mem, m.gas, s.effect(op, m).gas);
      VmGas.SpendLowers(rules, o, VmGas.Gauge(m.gas, mem));
    }
  }

  lemma StepCharges(s: Schedule, code: bytes, m: Machine)
    requires EvmcTable(s.table) && Charges(s) && StepUser(s, code, m).Running?
    ensures StepUser(s, code, m).m.gas < m.gas
  {
    var op := UserOp(code, m.pc);
    assert IsPush(op) ==> s.table(op) == s.table(PUSH1);
  }

  lemma {:induction false} RunSnoc(s: Schedule, code: bytes, m: Machine, steps: nat, n: Machine)
    requires EvmcTable(s.table) && RunUser(s, code, m, steps) == Running(n)
    ensures RunUser(s, code, m, steps + 1) == StepUser(s, code, n)
    decreases steps
  {
    if steps > 0 {
      RunSnoc(s, code, StepUser(s, code, m).m, steps - 1, n);
    } else {
      assert RunUser(s, code, m, 1) == match StepUser(s, code, m) { case Running(n) => RunUser(s, code, n, 0) case end => end };
    }
  }

  class Interpreter {
    const schedule: Schedule
    const vm: VM
    var pc: nat
    var stack: seq<nat>
    var ioGas: nat
    var world: World

    constructor (schedule: Schedule, code: bytes, gas: nat, world: World)
      ensures this.schedule == schedule && vm.pCode == code && fresh(vm)
      ensures vm.jumpDests == [] && vm.pool == [] && State() == Initial(gas, world)
    {
      this.schedule := schedule;
      vm := new VM(code);
      pc, stack, ioGas, this.world := 0, [], gas, world;
    }

    function State(): Machine
      reads this
    {
      Machine(pc, stack, ioGas, world)
    }

    ghost function Code(): Program
      reads vm
    {
      Program(vm.code, vm.pool, vm.jumpDests)
    }

    /// updateIOGas.
    method UpdateIOGas(runGas: nat) returns (ok: bool)
      modifies this`ioGas
      ensures ok <==> old(ioGas) >= runGas
      ensures ioGas == if ok then old(ioGas) - runGas else old(ioGas)
    {
      ok := ioGas >= runGas;
      if ok {
        ioGas := ioGas - runGas;
      }
    }

    /// PUSHC: the constant's offset in two bytes, then the number of bytes to skip.
    method PushConstant(runGas: nat) returns (end: Option<Halt>)
      requires ioGas >= runGas ==> pc + 3 < |vm.code| && TwoBytes(vm.code[pc + 1], vm.code[pc + 2]) < |vm.pool|
      modifies this
      ensures end == if old(ioGas) < runGas then Some(OutOfGas) else None
      ensures end.Some? ==> State() == old(State())
      ensures end.None? ==>
                State() == Machine(old(pc) + 3 + vm.code[old(pc) + 3],
                                   [vm.pool[TwoBytes(vm.code[old(pc) + 1], vm.code[old(pc) + 2])]] + old(stack),
                                   old(ioGas) - runGas, old(world))
    {
      var ok := UpdateIOGas(runGas);
      if !ok {
        return Some(OutOfGas);
      }
      pc := pc + 1;
      var off: nat := vm.code[pc];
      off := off * 256;
      pc := pc + 1;
      off := off + vm.code[pc];
      pc := pc + 1;
      pc := pc + vm.code[pc];
      stack := [vm.pool[off]] + stack;
      end := None;
    }

    /// PUSH1 to PUSH32: a number made of the bytes that follow.
    method PushNumber(runGas: nat, numBytes: nat) returns (end: Option<Halt>)
      requires ioGas >= runGas ==> pc + numBytes < |vm.code|
      modifies this
      ensures end == if old(ioGas) < runGas then Some(OutOfGas) else None
      ensures end.Some? ==> State() == old(State())
      ensures end.None? ==>
                State() == Machine(old(pc) + 1 + numBytes,
                                   [FromBE(vm.code[old(pc) + 1..old(pc) + 1 + numBytes])] + old(stack),
                                   old(ioGas) - runGas, old(world))
    {
      var ok := UpdateIOGas(runGas);
      if !ok {
        return Some(OutOfGas);
      }
      pc := pc + 1;
      var from := pc;
      var value: nat := 0;
      while pc < from + numBytes
        invariant from <= pc <= from + numBytes && value == FromBE(vm.code[from..pc])
        invariant unchanged(this`stack, this`world) && ioGas == old(ioGas) - runGas
      {
        assert vm.code[from..pc + 1][..pc - from] == vm.code[from..pc];
        value := value * 256 + vm.code[pc];
        pc := pc + 1;
      }
      stack := [value] + stack;
      end := None;
    }

    /// JUMP, JUMPI and their verified forms.
    method Jump(op: byte, runGas: nat) returns (end: Option<Halt>)
      requires op == JUMP || op == JUMPI || op == JUMPC || op == JUMPCI
      requires |stack| >= if op == JUMPI || op == JUMPCI then 2 else 1
      requires IsTable(vm.pCode, vm.jumpDests)
      modifies this
      ensures var cond := op == JUMPI || op == JUMPCI;
              var rest := old(stack)[if cond then 2 else 1..];
              if old(ioGas) < runGas then end == Some(OutOfGas) && State() == old(State())
              else if cond && old(stack)[1] == 0 then
                end == None && State() == Machine(old(pc) + 1, rest, old(ioGas) - runGas, old(world))
              else if op == JUMPC || op == JUMPCI then
                end == None && State() == Machine(old(stack)[0] % U64, rest, old(ioGas) - runGas, old(world))
              else if old(stack)[0] <= MAX63 && old(stack)[0] in vm.jumpDests then
                end == None && State() == Machine(old(stack)[0], rest, old(ioGas) - runGas, old(world))
              else end == Some(BadJumpDestination) && ioGas == old(ioGas) - runGas && world == old(world)
    {
      var ok := UpdateIOGas(runGas);
      if !ok {
        return Some(OutOfGas);
      }
      var cond := op == JUMPI || op == JUMPCI;
      if cond && stack[1] == 0 {
        pc := pc + 1;
      } else if op == JUMPC || op == JUMPCI {
        pc := stack[0] % U64;
      } else {
        var dest := vm.VerifyJumpDest(stack[0]);
        if dest < 0 {
          return Some(BadJumpDestination);
        }
        pc := dest;
      }
      stack := stack[if cond then 2 else 1..];
      end := None;
    }

    ghost predicate Ready()
      reads this, vm
    {
      && EvmcTable(schedule.table) && KeepsSizes(schedule) && Charges(schedule)
      && IsProgram(vm.pCode, Code()) && Reachable(vm.pCode, State())
    }

    /// fetchInstruction and the case of the operation.
    method Step() returns (end: Option<Halt>)
      requires EvmcTable(schedule.table) && IsTable(vm.pCode, vm.jumpDests)
      requires StepOptimized(schedule, Code(), State()) != Stray
      modifies this
      ensures StepOptimized(schedule, Code(), old(State()))
           == match end { case None => Running(State()) case Some(why) => Halted(why, ioGas, world) }
    {
      hide IsTable;
      var op := vm.code[pc];
      var metric := Metrics(schedule.table, op);
      var bad := BadStack(metric, |stack|);
      if bad.Some? {
        return bad;
      }
      if op == PUSHC {
        end := PushConstant(metric.cost);
      } else if IsPush(op) {
        end := PushNumber(metric.cost, PushBytes(op));
      } else if op == JUMP || op == JUMPI || op == JUMPC || op == JUMPCI {
        end := Jump(op, metric.cost);
      } else if op == STOP {
        var ok := UpdateIOGas(metric.cost);
        end := Some(if ok then Stopped else OutOfGas);
      } else {
        match schedule.effect(op, State()) {
          case Go(s, gas, w) =>
            stack, ioGas, world := s, gas, w;
            pc := pc + 1;
            end := None;
          case End(why, gas, w) =>
            ioGas, world := gas, w;
            end := Some(why);
        }
      }
    }

    /// exec: optimizes and interprets until something ends the run, which gas makes sure of. If
    /// every long push executed on the way finds its own constant, the end is the one the user's
    /// code has.
    method Exec() returns (why: Halt)
      requires State() == Initial(ioGas, world) && vm.jumpDests == [] && vm.pool == []
      requires EvmcTable(schedule.table) && KeepsSizes(schedule) && Charges(schedule)
      requires forall steps: nat :: RunFits(schedule, vm.pCode, State(), steps)
      modifies this, vm
      ensures exists steps: nat :: RunUser(schedule, vm.pCode, old(State()), steps) == Halted(why, ioGas, world)
    {
      ghost var start, steps: nat := State(), 0;
      vm.Optimize();
      InitialReachable(vm.pCode, ioGas, world);
      var end: Option<Halt> := None;
      while end.None?
        invariant end.None? ==> Ready() && RunUser(schedule, vm.pCode, start, steps) == Running(State())
        invariant EvmcTable(schedule.table)
        invariant end.Some? ==> RunUser(schedule, vm.pCode, start, steps) == Halted(end.value, ioGas, world)
        decreases end.None?, ioGas
      {
        ghost var was := State();
        StepAgrees(schedule, vm.pCode, Code(), was);
        FitsThere(schedule, vm.pCode, start, steps, was);
        end := Step();
        RunSnoc(schedule, vm.pCode, start, steps, was);
        if end.None? {
          StaysReachable(schedule, vm.pCode, was);
          StepCharges(schedule, vm.pCode, was);
        }
        steps := steps + 1;
      }
      why := end.value;
    }
  }
}
