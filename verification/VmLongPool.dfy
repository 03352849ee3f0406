/// A program with more pooled constants than two bytes can count: it jumps over 65536 of them and
/// pushes one more, which the rewritten code mistakes for the first.
module VmLongPool {
  import opened Bytes
  import opened Numbers
  import opened Options
  import opened VmCode
  import opened VmLockstep

  const PUSH3: byte := 0x62
  const PUSH6: byte := 0x65
  const COUNT: nat := 0x1_0000
  const LANDING: nat := 0x7_0005

  /// PUSH3 LANDING, JUMP, 65536 times PUSH6 0, JUMPDEST, PUSH6 1.
  function LongByte(i: nat): byte {
    if i == 0 then PUSH3
    else if i == 1 then 0x07
    else if i == 3 then 0x05
    else if i == 4 then JUMP
    else if 5 <= i < LANDING then (if (i - 5) % 7 == 0 then PUSH6 else 0)
    else if i == LANDING then JUMPDEST
    else if i == LANDING + 1 then PUSH6
    else if i == LANDING + 7 then 1
    else 0
  }

  function LongCode(): bytes {
    seq(LANDING + 8, i requires 0 <= i => LongByte(i))
  }

  /// A code that reads like that.
  ghost predicate IsLong(code: bytes) {
    |code| == LANDING + 8 && forall i :: ReadsAs(code, i)
  }

  predicate ReadsAs(code: bytes, i: int) {
    i >= 0 ==> At(code, i) == LongByte(i)
  }

  lemma LongIs()
    ensures IsLong(LongCode())
  {
    forall i ensures ReadsAs(LongCode(), i) {
    }
  }

  lemma {:induction false} ZeroData(code: bytes, from: nat, n: nat)
    requires forall i :: from <= i < from + n ==> At(code, i) == 0
    ensures FromBE(Data(code, from, n)) == 0
  {
    if n > 0 {
      ZeroData(code, from, n - 1);
      DataSnoc(code, from, n);
    }
  }

  lemma DataSnoc(code: bytes, from: nat, n: nat)
    requires n > 0
    ensures FromBE(Data(code, from, n)) == 256 * FromBE(Data(code, from, n - 1)) + At(code, from + n - 1)
  {
    assert Data(code, from, n)[..n - 1] == Data(code, from, n - 1);
  }

  /// From one instruction to the next.
  lemma Next(code: bytes, pc: nat, next: nat)
    requires Start(code, pc) && next == pc + Width(code, pc)
    ensures Start(code, next)
    ensures PoolFrom(code, 0, next)
         == if IsBig(code, pc) then PoolFrom(code, 0, pc) + [PushValue(code, pc)] else PoolFrom(code, 0, pc)
  {
    ReachesNext(code, 0, pc);
    PoolNext(code, 0, pc);
  }

  lemma Entry(code: bytes)
    requires IsLong(code)
    ensures Start(code, 0) && Start(code, 4) && Start(code, 5) && PoolFrom(code, 0, 5) == []
  {
    assert ReadsAs(code, 0) && ReadsAs(code, 4);
    Next(code, 0, 4);
    Next(code, 4, 5);
  }

  lemma Target(code: bytes)
    requires IsLong(code)
    ensures PushValue(code, 0) == LANDING
  {
    assert ReadsAs(code, 0) && ReadsAs(code, 1) && ReadsAs(code, 2) && ReadsAs(code, 3);
    DataSnoc(code, 1, 1);
    DataSnoc(code, 1, 2);
    DataSnoc(code, 1, 3);
  }

  lemma ZeroPush(code: bytes, k: nat)
    requires IsLong(code) && k < COUNT
    ensures var pc := 5 + 7 * k; IsBig(code, pc) && Width(code, pc) == 7 && PushValue(code, pc) == 0
  {
    var pc := 5 + 7 * k;
    assert ReadsAs(code, pc) && At(code, pc) == PUSH6;
    forall i | pc + 1 <= i < pc + 7 ensures At(code, i) == 0 {
      assert ReadsAs(code, i) && (i - 5) % 7 == i - pc;
    }
    ZeroData(code, pc + 1, 6);
  }

  /// The k-th of the constants that are jumped over.
  lemma {:induction false} Skipped(code: bytes, k: nat)
    requires IsLong(code) && k <= COUNT
    ensures Start(code, 5 + 7 * k) && |PoolFrom(code, 0, 5 + 7 * k)| == k
  {
    hide *;
    if k == 0 {
      Entry(code);
    } else {
      Skipped(code, k - 1);
      ZeroPush(code, k - 1);
      var pc := 5 + 7 * (k - 1);
      Next(code, pc, pc + 7);
    }
  }

  lemma LastValue(code: bytes)
    requires IsLong(code)
    ensures IsBig(code, LANDING + 1) && PushValue(code, LANDING + 1) == 1
  {
    var pc := LANDING + 1;
    assert ReadsAs(code, pc);
    forall i | pc + 1 <= i < pc + 6 ensures At(code, i) == 0 {
      assert ReadsAs(code, i);
    }
    ZeroData(code, pc + 1, 5);
    assert ReadsAs(code, pc + 6);
    DataSnoc(code, pc + 1, 6);
  }

  lemma Landing(code: bytes)
    requires IsLong(code)
    ensures IsDest(code, LANDING) && Start(code, LANDING + 1) && PoolIndex(code, LANDING + 1) == COUNT
  {
    Skipped(code, COUNT);
    assert ReadsAs(code, LANDING);
    Next(code, LANDING, LANDING + 1);
  }

  /// The last push: its constant is 1, its index 65536, and at index 0 there is a 0.
  lemma LastPush(code: bytes)
    requires IsLong(code)
    ensures PoolIndex(code, LANDING + 1) == COUNT < |Pool(code)| && Pool(code)[0] == 0 && !OffsetFits(code, LANDING + 1)
  {
    Landing(code);
    LastValue(code);
    InPool(code, LANDING + 1);
    Entry(code);
    ZeroPush(code, 0);
    InPool(code, 5);
  }

  /// What JUMPDEST does: it costs one unit of gas.
  ghost predicate PlainJumpDest(s: Schedule) {
    && s.table(JUMPDEST) == Metric(1, 0, 0)
    && forall m: Machine :: m.gas > 0 ==> s.effect(JUMPDEST, m) == Go(m.stack, m.gas - 1, m.world)
  }

  /// There are such schedules.
  function PlainSchedule(): Schedule {
    Schedule((op: byte) => if IsPush(op) then Metric(3, 0, 1) else if op == JUMP then Metric(8, 1, -1)
                   else if op == JUMPI then Metric(10, 2, -2) else Metric(1, 0, 0),
             (op: byte, m: Machine) => if op == JUMPDEST && m.gas > 0 then Go(m.stack, m.gas - 1, m.world)
                                 else End(OutOfGas, m.gas, m.world))
  }

  lemma PlainScheduleFits()
    ensures var s := PlainSchedule(); EvmcTable(s.table) && KeepsSizes(s) && Charges(s) && PlainJumpDest(s)
  {
  }

  lemma PushesTarget(s: Schedule, code: bytes, m: Machine)
    requires EvmcTable(s.table) && IsLong(code) && m.pc == 0 && m.stack == [] && m.gas >= s.table(PUSH1).cost
    ensures !IsBig(code, 0)
    ensures StepUser(s, code, m) == Running(Machine(4, [LANDING], m.gas - s.table(PUSH1).cost, m.world))
  {
    assert ReadsAs(code, 0);
    Target(code);
  }

  lemma Jumps(s: Schedule, code: bytes, m: Machine)
    requires EvmcTable(s.table) && IsLong(code) && m.pc == 4 && m.stack == [LANDING] && m.gas >= s.table(JUMP).cost
    ensures !IsBig(code, 4)
    ensures StepUser(s, code, m) == Running(Machine(LANDING, [], m.gas - s.table(JUMP).cost, m.world))
  {
    assert ReadsAs(code, 4);
    Landing(code);
  }

  lemma Lands(s: Schedule, code: bytes, m: Machine)
    requires EvmcTable(s.table) && IsLong(code) && PlainJumpDest(s) && m.pc == LANDING && m.stack == [] && m.gas > 0
    ensures !IsBig(code, LANDING)
    ensures StepUser(s, code, m) == Running(Machine(LANDING + 1, [], m.gas - 1, m.world))
  {
    assert ReadsAs(code, LANDING);
  }

  lemma PushesLast(s: Schedule, code: bytes, p: Program, m: Machine)
    requires EvmcTable(s.table) && IsLong(code) && IsProgram(code, p) && Reachable(code, m)
    requires m.pc == LANDING + 1 && m.stack == [] && m.gas >= s.table(PUSH1).cost
    ensures StepUser(s, code, m) == Running(Machine(LANDING + 8, [1], m.gas - s.table(PUSH1).cost, m.world))
    ensures StepOptimized(s, p, m) == Running(Machine(LANDING + 8, [0], m.gas - s.table(PUSH1).cost, m.world))
  {
    assert ReadsAs(code, LANDING + 1);
    LastValue(code);
    LastPush(code);
    BigPushStep(s, code, p, m);
    hide StepOptimized, Pool, PoolIndex, Reachable, IsLong;
  }

  /// From the start, with gas enough, the user's code has pushed 1 after four instructions and the
  /// rewritten code 0.
  lemma {:induction false} Parts(s: Schedule, p: Program, gas: nat, world: World)
    requires EvmcTable(s.table) && KeepsSizes(s) && PlainJumpDest(s) && IsProgram(LongCode(), p)
    requires gas > 2 * s.table(PUSH1).cost + s.table(JUMP).cost
    ensures var m, left := Initial(gas, world), gas - 2 * s.table(PUSH1).cost - s.table(JUMP).cost - 1;
            && RunUser(s, LongCode(), m, 4) == Running(Machine(LANDING + 8, [1], left, world))
            && RunOptimized(s, p, m, 4) == Running(Machine(LANDING + 8, [0], left, world))
  {
    LongIs();
    PartsLong(s, LongCode(), p, gas, world);
  }

  lemma {:induction false} PartsLong(s: Schedule, code: bytes, p: Program, gas: nat, world: World)
    requires EvmcTable(s.table) && KeepsSizes(s) && PlainJumpDest(s) && IsLong(code) && IsProgram(code, p)
    requires gas > 2 * s.table(PUSH1).cost + s.table(JUMP).cost
    ensures var m, left := Initial(gas, world), gas - 2 * s.table(PUSH1).cost - s.table(JUMP).cost - 1;
            && RunUser(s, code, m, 4) == Running(Machine(LANDING + 8, [1], left, world))
            && RunOptimized(s, p, m, 4) == Running(Machine(LANDING + 8, [0], left, world))
  {
    InitialReachable(code, gas, world);
    var m0 := Initial(gas, world);
    hide IsProgram, IsLong, Reachable, EvmcTable, PlainJumpDest, KeepsSizes, StepUser,
         StepOptimized, IsBig, RunUser, RunOptimized;
    PushesTarget(s, code, m0);
    SameStep(s, code, p, m0);
    var m1 := StepUser(s, code, m0).m;
    Jumps(s, code, m1);
    SameStep(s, code, p, m1);
    var m2 := StepUser(s, code, m1).m;
    Lands(s, code, m2);
    SameStep(s, code, p, m2);
    var m3 := StepUser(s, code, m2).m;
    PushesLast(s, code, p, m3);
    RunFour(s, code, p, m0, m1, m2, m3);
  }

  lemma SameStep(s: Schedule, code: bytes, p: Program, m: Machine)
    requires EvmcTable(s.table) && KeepsSizes(s) && IsProgram(code, p) && Reachable(code, m)
    requires StepUser(s, code, m).Running? && !IsBig(code, m.pc)
    ensures StepOptimized(s, p, m) == StepUser(s, code, m) && Reachable(code, StepUser(s, code, m).m)
  {
    StepAgrees(s, code, p, m);
    StaysReachable(s, code, m);
  }

  lemma RunFour(s: Schedule, code: bytes, p: Program, m0: Machine, m1: Machine, m2: Machine, m3: Machine)
    requires EvmcTable(s.table)
    requires StepUser(s, code, m0) == StepOptimized(s, p, m0) == Running(m1)
    requires StepUser(s, code, m1) == StepOptimized(s, p, m1) == Running(m2)
    requires StepUser(s, code, m2) == StepOptimized(s, p, m2) == Running(m3)
    requires StepUser(s, code, m3).Running? && StepOptimized(s, p, m3).Running?
    ensures RunUser(s, code, m0, 4) == StepUser(s, code, m3)
    ensures RunOptimized(s, p, m0, 4) == StepOptimized(s, p, m3)
  {
    hide StepUser, StepOptimized;
    assert RunUser(s, code, m2, 2) == RunUser(s, code, m3, 1) == StepUser(s, code, m3);
    assert RunOptimized(s, p, m2, 2) == RunOptimized(s, p, m3, 1) == StepOptimized(s, p, m3);
    assert RunUser(s, code, m1, 3) == RunUser(s, code, m2, 2);
    assert RunOptimized(s, p, m1, 3) == RunOptimized(s, p, m2, 2);
  }
}
