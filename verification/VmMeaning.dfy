/// What one instruction of the user's code does, in the numbers of the virtual machine
/// (libaleth-interpreter/VM.cpp), and what codes made of pushes do.
module VmMeaning {
  import opened Bytes
  import opened VmCode
  import opened VmLockstep

  /// A byte that the optimizer uses for its own operations reads as an undefined one, and beyond the
  /// code there is STOP.
  function OpAt(code: bytes, pc: nat): byte {
    if pc >= |code| then 0x00
    else if code[pc] == 0xac || code[pc] == 0xad || code[pc] == 0xae then 0xaf
    else code[pc]
  }

  /// A byte is an instruction if and only if it is no data of a push.
  lemma StartOrData(code: bytes, pc: nat)
    ensures Start(code, pc) <==> !exists q :: DataOf(code, q, pc)
  {
    if Start(code, pc) {
      forall q | DataOf(code, q, pc) ensures false {
        ReachesApart(code, 0, q, pc);
      }
    } else {
      Covered(code, 0, pc);
    }
  }

  /// The byte belongs to the push at q.
  predicate DataOf(code: bytes, q: int, pc: nat) {
    && 0 <= q < |code| && q < pc && Start(code, q)
    && 0x60 <= code[q] <= 0x7f && pc <= q + (code[q] - 0x5f)
  }

  lemma {:induction false} Covered(code: bytes, from: nat, pc: nat)
    requires Start(code, from) && from <= pc
    ensures Start(code, pc) || exists q :: DataOf(code, q, pc)
    decreases pc - from
  {
    var next := from + Width(code, from);
    if from < pc && next <= pc {
      ReachesNext(code, 0, from);
      Covered(code, next, pc);
    } else if from < pc {
      assert DataOf(code, from, pc);
    }
  }

  // ------------------------------------------------------------- one instruction

  /// The instruction takes so many items from the stack, and the stack may hold 1024.
  predicate Bounds(s: Schedule, code: bytes, m: Machine, required: nat, change: int)
    requires EvmcTable(s.table)
  {
    && (StepUser(s, code, m) == Halted(StackUnderflow, m.gas, m.world) <==> |m.stack| < required)
    && (StepUser(s, code, m) == Halted(OutOfStack, m.gas, m.world) <==>
          |m.stack| >= required && |m.stack| + change > 1024)
  }

  lemma StackBounds(s: Schedule, code: bytes, m: Machine)
    requires EvmcTable(s.table)
    ensures var op := OpAt(code, m.pc);
            && (0x60 <= op <= 0x7f ==> Bounds(s, code, m, 0, 1))
            && (op == 0x56 ==> Bounds(s, code, m, 1, -1))
            && (op == 0x57 ==> Bounds(s, code, m, 2, -2))
            && (op == 0x00 ==> Bounds(s, code, m, s.table(0x00).required, s.table(0x00).change))
  {
  }

  /// A push: the bytes that follow, zeros beyond the code, as one number.
  lemma Pushes(s: Schedule, code: bytes, m: Machine)
    requires EvmcTable(s.table) && 0x60 <= OpAt(code, m.pc) <= 0x7f && |m.stack| < 1024
    ensures var n, cost := OpAt(code, m.pc) - 0x5f, s.table(0x60).cost;
            StepUser(s, code, m) ==
              if m.gas < cost then Halted(OutOfGas, m.gas, m.world)
              else Running(Machine(m.pc + 1 + n, [FromBE(Following(code, m.pc + 1, n))] + m.stack, m.gas - cost, m.world))
  {
    DataFollows(code, m.pc + 1, OpAt(code, m.pc) - 0x5f);
  }

  function Following(code: bytes, from: nat, n: nat): (d: bytes)
    ensures |d| == n && forall i :: 0 <= i < n ==> d[i] == if from + i < |code| then code[from + i] else 0
  {
    seq(n, i requires 0 <= i < n => if from + i < |code| then code[from + i] else 0)
  }

  lemma {:induction false} DataFollows(code: bytes, from: nat, n: nat)
    ensures Data(code, from, n) == Following(code, from, n)
  {
    if n > 0 {
      DataFollows(code, from, n - 1);
    }
  }

  /// A jump goes to a JUMPDEST byte below 2^63 that is an instruction.
  predicate MayJump(code: bytes, d: nat) {
    d < 0x8000_0000_0000_0000 && d < |code| && code[d] == 0x5b && Start(code, d)
  }

  lemma Jumps(s: Schedule, code: bytes, m: Machine)
    requires EvmcTable(s.table) && OpAt(code, m.pc) == 0x56 && 1 <= |m.stack| <= 1025
    ensures var cost := s.table(0x56).cost;
            StepUser(s, code, m) ==
              if m.gas < cost then Halted(OutOfGas, m.gas, m.world)
              else if MayJump(code, m.stack[0]) then Running(Machine(m.stack[0], m.stack[1..], m.gas - cost, m.world))
              else Halted(BadJumpDestination, m.gas - cost, m.world)
  {
  }

  /// With a condition, which is the second item, it goes there unless that is zero.
  lemma JumpsIf(s: Schedule, code: bytes, m: Machine)
    requires EvmcTable(s.table) && OpAt(code, m.pc) == 0x57 && 2 <= |m.stack| <= 1026
    ensures var cost := s.table(0x57).cost;
            StepUser(s, code, m) ==
              if m.gas < cost then Halted(OutOfGas, m.gas, m.world)
              else if m.stack[1] == 0 then Running(Machine(m.pc + 1, m.stack[2..], m.gas - cost, m.world))
              else if MayJump(code, m.stack[0]) then Running(Machine(m.stack[0], m.stack[2..], m.gas - cost, m.world))
              else Halted(BadJumpDestination, m.gas - cost, m.world)
  {
  }

  lemma Stops(s: Schedule, code: bytes, m: Machine)
    requires EvmcTable(s.table) && OpAt(code, m.pc) == 0x00
    requires s.table(0x00).required <= |m.stack| && |m.stack| + s.table(0x00).change <= 1024
    ensures var cost := s.table(0x00).cost;
            StepUser(s, code, m) == if m.gas < cost then Halted(OutOfGas, m.gas, m.world)
                                    else Halted(Stopped, m.gas - cost, m.world)
  {
  }

  /// Any other instruction does what the operation does, within the bounds of the table.
  lemma Others(s: Schedule, code: bytes, m: Machine)
    requires EvmcTable(s.table)
    requires var op := OpAt(code, m.pc); op != 0x00 && op != 0x56 && op != 0x57 && !(0x60 <= op <= 0x7f)
    ensures var op, metric := OpAt(code, m.pc), s.table(OpAt(code, m.pc));
            StepUser(s, code, m) ==
              if |m.stack| < metric.required then Halted(StackUnderflow, m.gas, m.world)
              else if |m.stack| + metric.change > 1024 then Halted(OutOfStack, m.gas, m.world)
              else match s.effect(op, m) {
                case Go(stack, gas, world) => Running(Machine(m.pc + 1, stack, gas, world))
                case End(why, gas, world) => Halted(why, gas, world)
              }
  {
  }

  // ------------------------------------------------------------- the rewritten code

  /// The instruction before pushes the number of a place that may be jumped to.
  ghost predicate AfterDestination(code: bytes, pc: nat) {
    exists q :: DestinationAt(code, q, pc)
  }

  predicate DestinationAt(code: bytes, q: int, pc: nat) {
    && 0 <= q < |code| && Start(code, q) && 0x60 <= code[q] <= 0x7f && q + (code[q] - 0x5e) == pc
    && MayJump(code, FromBE(Following(code, q + 1, code[q] - 0x5f)))
  }

  lemma AfterConstMeans(code: bytes, pc: nat)
    ensures AfterConst(code, pc) <==> AfterDestination(code, pc)
  {
    forall q: nat | q < |code| && 0x60 <= code[q] <= 0x7f
      ensures PushValue(code, q) == FromBE(Following(code, q + 1, code[q] - 0x5f))
    {
      DataFollows(code, q + 1, code[q] - 0x5f);
    }
    if AfterConst(code, pc) {
      var q: nat :| EndsAt(code, q, pc) && Verified(code, PushValue(code, q));
      assert DestinationAt(code, q, pc);
    }
    if AfterDestination(code, pc) {
      var q :| DestinationAt(code, q, pc);
      assert EndsAt(code, q, pc);
    }
  }

  /// A push of more than 5 bytes becomes the constant's offset and the bytes to skip, a jump after the
  /// push of its destination its unchecked form, an operation of the optimizer's an undefined one; all
  /// other instructions stay.
  lemma Rewritten(code: bytes, out: bytes, pc: nat)
    requires Optimized(code, out) && Start(code, pc) && pc < |code|
    ensures |out| == |code| + 33
    ensures 0x65 <= code[pc] <= 0x7f ==>
              && out[pc] == 0xac && 256 * (out[pc + 1] as int) + out[pc + 2] == PoolIndex(code, pc) % 65536
              && out[pc + 3] == code[pc] - 0x5f - 2
    ensures 0x60 <= code[pc] < 0x65 ==>
              out[pc] == code[pc] && forall i :: pc < i <= pc + (code[pc] - 0x5f) ==> out[i] == if i < |code| then code[i] else 0
    ensures code[pc] == 0x56 ==> out[pc] == if AfterDestination(code, pc) then 0xad else 0x56
    ensures code[pc] == 0x57 ==> out[pc] == if AfterDestination(code, pc) then 0xae else 0x57
    ensures code[pc] == 0xac || code[pc] == 0xad || code[pc] == 0xae ==> out[pc] == 0xaf
    ensures !(0x60 <= code[pc] <= 0x7f) && code[pc] != 0x56 && code[pc] != 0x57 && !(0xac <= code[pc] <= 0xae) ==>
              out[pc] == code[pc]
  {
    AfterConstMeans(code, pc);
    assert out[pc] == NewOp(code, pc) && NewData(code, out, pc);
  }

  /// The constants are those of the pushes of more than 5 bytes, in the order of the code.
  lemma PoolIsBig(code: bytes, pc: nat)
    requires Start(code, pc) && pc < |code|
    ensures PoolIndex(code, 0) == 0
    ensures var next := pc + if 0x60 <= code[pc] <= 0x7f then code[pc] - 0x5e else 1;
            PoolIndex(code, next) == PoolIndex(code, pc) + if 0x65 <= code[pc] <= 0x7f then 1 else 0
    ensures 0x65 <= code[pc] <= 0x7f ==>
              && PoolIndex(code, pc) < |Pool(code)|
              && Pool(code)[PoolIndex(code, pc)] == FromBE(Following(code, pc + 1, code[pc] - 0x5f))
  {
    PoolNext(code, 0, pc);
    if 0x65 <= code[pc] <= 0x7f {
      InPool(code, pc);
      DataFollows(code, pc + 1, code[pc] - 0x5f);
    }
  }

  // -------------------------------------------------------------- codes of pushes

  predicate Pushable(ds: seq<bytes>) {
    forall d <- ds :: 1 <= |d| <= 32
  }

  /// Pushes of these numbers, of up to 32 bytes each.
  function PushCode(ds: seq<bytes>): bytes
    requires Pushable(ds)
  {
    if ds == [] then [] else PushCode(ds[..|ds| - 1]) + [0x5f + |ds[|ds| - 1]|] + ds[|ds| - 1]
  }

  /// The last one on top.
  function Pushed(ds: seq<bytes>): seq<nat> {
    if ds == [] then [] else [FromBE(ds[|ds| - 1])] + Pushed(ds[..|ds| - 1])
  }

  lemma {:induction false} CodeBegins(ds: seq<bytes>, k: nat)
    requires Pushable(ds) && k <= |ds|
    ensures Pushable(ds[..k])
    ensures PushCode(ds[..k]) <= PushCode(ds)
    decreases |ds|
  {
    if k < |ds| {
      var fewer := ds[..|ds| - 1];
      CodeBegins(fewer, k);
      assert fewer[..k] == ds[..k];
    } else {
      assert ds[..k] == ds;
    }
  }

  lemma CodeSnoc(ds: seq<bytes>, k: nat)
    requires Pushable(ds) && k < |ds|
    ensures Pushable(ds[..k])
    ensures Pushable(ds[..k + 1])
    ensures PushCode(ds[..k + 1]) == PushCode(ds[..k]) + [0x5f + |ds[k]|] + ds[k]
    ensures Pushed(ds[..k + 1]) == [FromBE(ds[k])] + Pushed(ds[..k])
  {
    assert ds[..k + 1][..k] == ds[..k];
  }

  lemma Within(code: bytes, before: bytes, op: byte, d: bytes)
    requires before + [op] + d <= code
    ensures |before| < |code| && code[|before|] == op && Following(code, |before| + 1, |d|) == d
  {
    forall i | 0 <= i < |d| ensures code[|before| + 1 + i] == d[i] {
      assert code[|before| + 1 + i] == (before + [op] + d)[|before| + 1 + i];
    }
    assert code[|before|] == (before + [op] + d)[|before|];
  }

  /// The k-th push stands behind the code of those before it.
  lemma CodeAt(ds: seq<bytes>, k: nat)
    requires Pushable(ds) && k < |ds|
    ensures Pushable(ds[..k])
    ensures Pushable(ds[..k + 1])
    ensures var code, pc := PushCode(ds), |PushCode(ds[..k])|;
            && pc < |code| && code[pc] == 0x5f + |ds[k]| && Following(code, pc + 1, |ds[k]|) == ds[k]
            && |PushCode(ds[..k + 1])| == pc + 1 + |ds[k]| && 1 <= |ds[k]| <= 32
    ensures Pushed(ds[..k + 1]) == [FromBE(ds[k])] + Pushed(ds[..k])
  {
    hide PushCode, Pushed, Following, FromBE;
    CodeBegins(ds, k + 1);
    CodeSnoc(ds, k);
    Within(PushCode(ds), PushCode(ds[..k]), 0x5f + |ds[k]|, ds[k]);
  }

  lemma {:induction false} PushedHeight(ds: seq<bytes>)
    ensures |Pushed(ds)| == |ds|
  {
    if ds != [] {
      PushedHeight(ds[..|ds| - 1]);
    }
  }

  /// What so many pushes cost.
  function CostOf(s: Schedule, k: nat): nat {
    k * s.table(0x60).cost
  }

  /// After k pushes.
  function Having(s: Schedule, ds: seq<bytes>, k: nat, gas: nat, world: World): Machine
    requires Pushable(ds) && k <= |ds| && CostOf(s, k) <= gas
  {
    Machine(|PushCode(ds[..k])|, Pushed(ds[..k]), gas - CostOf(s, k), world)
  }

  lemma PushesThis(s: Schedule, code: bytes, d: bytes, m: Machine)
    requires EvmcTable(s.table) && 1 <= |d| <= 32 && m.pc < |code| && code[m.pc] == 0x5f + |d|
    requires Following(code, m.pc + 1, |d|) == d && |m.stack| < 1024 && s.table(0x60).cost <= m.gas
    ensures StepUser(s, code, m)
         == Running(Machine(m.pc + 1 + |d|, [FromBE(d)] + m.stack, m.gas - s.table(0x60).cost, m.world))
  {
    hide StepUser, Following, FromBE, EvmcTable;
    Pushes(s, code, m);
  }

  lemma PushStep(s: Schedule, ds: seq<bytes>, k: nat, gas: nat, world: World)
    requires EvmcTable(s.table) && Pushable(ds)
    requires k < |ds| && k < 1024 && CostOf(s, k + 1) <= gas
    ensures CostOf(s, k) <= gas
    ensures StepUser(s, PushCode(ds), Having(s, ds, k, gas, world)) == Running(Having(s, ds, k + 1, gas, world))
  {
    hide *;
    CostGrows(s, k, gas);
    HavingNext(s, ds, k, gas, world);
    PushesThis(s, PushCode(ds), ds[k], Having(s, ds, k, gas, world));
  }

  lemma HavingNext(s: Schedule, ds: seq<bytes>, k: nat, gas: nat, world: World)
    requires Pushable(ds) && k < |ds| && k < 1024 && CostOf(s, k + 1) <= gas
    ensures CostOf(s, k) <= gas && 1 <= |ds[k]| <= 32
    ensures var m, code := Having(s, ds, k, gas, world), PushCode(ds);
            && m.pc < |code| && code[m.pc] == 0x5f + |ds[k]| && Following(code, m.pc + 1, |ds[k]|) == ds[k]
            && |m.stack| < 1024 && s.table(0x60).cost <= m.gas
            && Having(s, ds, k + 1, gas, world)
               == Machine(m.pc + 1 + |ds[k]|, [FromBE(ds[k])] + m.stack, m.gas - s.table(0x60).cost, m.world)
  {
    hide PushCode, Following, FromBE, Pushed, CostOf, Pushable;
    OneMore(s, k);
    CodeAt(ds, k);
    PushedHeight(ds[..k]);
  }

  lemma {:induction false} RunHas(s: Schedule, ds: seq<bytes>, k: nat, gas: nat, world: World)
    requires EvmcTable(s.table) && Pushable(ds) && k <= |ds| && k <= 1024 && CostOf(s, k) <= gas
    ensures RunUser(s, PushCode(ds), Initial(gas, world), k) == Running(Having(s, ds, k, gas, world))
  {
    if k == 0 {
      HasNone(s, ds, gas, world);
    } else {
      hide *;
      CostGrows(s, k - 1, gas);
      PushStep(s, ds, k - 1, gas, world);
      RunHas(s, ds, k - 1, gas, world);
      RunSnoc(s, PushCode(ds), Initial(gas, world), k - 1, Having(s, ds, k - 1, gas, world));
    }
  }

  lemma HasNone(s: Schedule, ds: seq<bytes>, gas: nat, world: World)
    requires EvmcTable(s.table) && Pushable(ds)
    ensures CostOf(s, 0) <= gas
    ensures RunUser(s, PushCode(ds), Initial(gas, world), 0) == Running(Having(s, ds, 0, gas, world))
  {
    assert ds[..0] == [];
  }

  lemma CostGrows(s: Schedule, k: nat, gas: nat)
    requires CostOf(s, k + 1) <= gas
    ensures CostOf(s, k) <= gas
  {
    OneMore(s, k);
  }

  /// Up to 1024 pushes, given gas, leave all their numbers on the stack.
  lemma {:induction false} PushRun(s: Schedule, ds: seq<bytes>, k: nat, gas: nat, world: World)
    requires EvmcTable(s.table) && Pushable(ds) && k <= |ds| && k <= 1024 && CostOf(s, k) <= gas
    ensures Pushable(ds[..k]) && |Pushed(ds[..k])| == k
    ensures RunUser(s, PushCode(ds), Initial(gas, world), k)
         == Running(Machine(|PushCode(ds[..k])|, Pushed(ds[..k]), gas - CostOf(s, k), world))
  {
    hide RunUser, PushCode, Pushed;
    RunHas(s, ds, k, gas, world);
    PushedHeight(ds[..k]);
  }

  lemma OneMore(s: Schedule, k: nat)
    ensures CostOf(s, k + 1) == CostOf(s, k) + s.table(0x60).cost
  {
  }

  /// One push more is too many.
  lemma {:induction false} PushTooMany(s: Schedule, ds: seq<bytes>, gas: nat, world: World)
    requires EvmcTable(s.table) && Pushable(ds) && |ds| > 1024 && CostOf(s, 1024) <= gas
    ensures RunUser(s, PushCode(ds), Initial(gas, world), 1025) == Halted(OutOfStack, gas - CostOf(s, 1024), world)
  {
    hide StepUser, PushCode, Following, FromBE, Pushed;
    PushRun(s, ds, 1024, gas, world);
    CodeAt(ds, 1024);
    PushedHeight(ds[..1024]);
    var m := Machine(|PushCode(ds[..1024])|, Pushed(ds[..1024]), gas - CostOf(s, 1024), world);
    StackBounds(s, PushCode(ds), m);
    RunSnoc(s, PushCode(ds), Initial(gas, world), 1024, m);
  }

  /// Otherwise the run stops behind the last one.
  lemma {:induction false} PushesStop(s: Schedule, ds: seq<bytes>, gas: nat, world: World)
    requires EvmcTable(s.table) && Pushable(ds) && |ds| <= 1024
    requires s.table(0x00).required == 0 && s.table(0x00).change == 0
    requires CostOf(s, |ds|) + s.table(0x00).cost <= gas
    ensures RunUser(s, PushCode(ds), Initial(gas, world), |ds| + 1)
         == Halted(Stopped, gas - CostOf(s, |ds|) - s.table(0x00).cost, world)
  {
    hide StepUser, PushCode, Following, FromBE, Pushed;
    PushRun(s, ds, |ds|, gas, world);
    assert ds[..|ds|] == ds;
    PushedHeight(ds);
    var m := Machine(|PushCode(ds)|, Pushed(ds), gas - CostOf(s, |ds|), world);
    Stops(s, PushCode(ds), m);
    RunSnoc(s, PushCode(ds), Initial(gas, world), |ds|, m);
  }
}
