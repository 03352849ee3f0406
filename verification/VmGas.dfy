/// Gas and memory metering (libaleth-interpreter/VM.cpp, VMCalls.cpp, VM.h): 64-bit counters with
/// 63-bit checks, against what the same charges are over unbounded numbers.
module VmGas {
  import opened Numbers
  import opened Options

  const SHA3_GAS: nat := 30
  const SHA3_WORD_GAS: nat := 6
  const STEP_GAS5: nat := 10
  const STEP_GAS6: nat := 20
  const SSTORE_SET_GAS: nat := 20000
  const SSTORE_RESET_GAS: nat := 5000
  const JUMPDEST_GAS: nat := 1
  const LOG_GAS: nat := 375
  const LOG_DATA_GAS: nat := 8
  const LOG_TOPIC_GAS: nat := 375
  const CREATE_GAS: nat := 32000
  const MEMORY_GAS: nat := 3
  const QUAD_COEFF_DIV: nat := 512
  const COPY_GAS: nat := 3
  const VALUE_TRANSFER_GAS: nat := 9000
  const CALL_STIPEND: nat := 2300
  const CALL_NEW_ACCOUNT: nat := 25000
  const CALL_SELF_GAS: nat := 40

  const TANGERINE_WHISTLE: nat := 2
  const SPURIOUS_DRAGON: nat := 3
  const CONSTANTINOPLE: nat := 5
  const ISTANBUL: nat := 7
  const BERLIN: nat := 8

  // --------------------------------------------------- charges over unbounded numbers

  function Words(n: nat): nat {
    (n + 31) / 32
  }

  /// What memory of a size costs in all.
  function MemGas(size: nat): nat {
    var w := size / 32;
    MEMORY_GAS * w + Square(w) / QUAD_COEFF_DIV
  }

  /// The square of a number, as the sum of the first odd numbers.
  function Square(w: nat): nat {
    if w == 0 then 0 else Square(w - 1) + 2 * w - 1
  }

  lemma {:induction false} SquareIs(w: nat)
    ensures Square(w) == w * w
  {
    if w > 0 {
      SquareIs(w - 1);
      assert (w - 1) * (w - 1) == w * w - 2 * w + 1;
    }
  }

  /// Memory grows by whole words and never shrinks.
  function Grown(mem: nat, need: nat): nat {
    Max(mem, Words(need) * 32)
  }

  /// The gas left and the size of the memory.
  datatype Gauge = Gauge(gas: nat, mem: nat)

  function MemCharge(mem: nat, need: nat): nat {
    MemGasUp(mem, Grown(mem, need));
    MemGas(Grown(mem, need)) - MemGas(mem)
  }

  function Total(mem: nat, base: nat, need: nat, copy: nat): nat {
    base + MemCharge(mem, need) + COPY_GAS * Words(copy)
  }

  function Pay(g: Gauge, base: nat, need: nat, copy: nat): Option<Gauge> {
    var total := Total(g.mem, base, need, copy);
    if g.gas < total then None else Some(Gauge(g.gas - total, Grown(g.mem, need)))
  }

  datatype Status = Added | Modified | Unchanged

  /// An instruction that goes on, with the operands its charge depends on, and the host's answers:
  /// reply says how much of the gas sent comes back.
  datatype Op =
    | Plain
    | BlockHash
    | JumpDest
    | Exp(exponentBytes: nat)
    | MWord(offset: nat)
    | MByte(offset: nat)
    | Sha3(offset: nat, size: nat)
    | Log(topics: nat, offset: nat, size: nat)
    | Copy(offset: nat, size: nat)
    | SStore(status: Status)
    | Create(two: bool, offset: nat, size: nat, allowed: bool, reply: nat -> nat)
    | Call(self: bool, newAccount: bool, hasValue: bool, gas: nat,
           inOffset: nat, inSize: nat, outOffset: nat, outSize: nat, allowed: bool, reply: nat -> nat)

  /// The revision, and the cost the table has for the instruction and for SLOAD.
  datatype Rules = Rules(rev: nat, cost: nat, sload: nat)

  /// What is assumed: the table's costs are small and, but for SSTORE, which the table leaves to its
  /// own rules, positive; and the host returns no more gas than it was given.
  ghost predicate Sane(rules: Rules, op: Op) {
    && rules.cost < 0x8000 && (op.SStore? || 0 < rules.cost) && 0 < rules.sload < 0x8000
    && (op.Exp? ==> op.exponentBytes <= 32)
    && (op.Log? ==> op.topics <= 4)
    && (op.Create? || op.Call? ==> forall sent: nat :: op.reply(sent) <= sent)
  }

  function MemNeed(offset: nat, size: nat): nat {
    if size == 0 then 0 else offset + size
  }

  /// All but one 64th, since Tangerine Whistle.
  function AllButOne64th(rules: Rules, gas: nat): nat {
    if rules.rev >= TANGERINE_WHISTLE then gas - gas / 64 else gas
  }

  function StoreCost(rules: Rules, status: Status): nat {
    match status
    case Added => SSTORE_SET_GAS
    case Modified => SSTORE_RESET_GAS
    case Unchanged =>
      if rules.rev == CONSTANTINOPLE || rules.rev >= ISTANBUL then rules.sload else SSTORE_RESET_GAS
  }

  /// The gas that goes along with a call.
  function CallGas(rules: Rules, requested: nat, gas: nat): nat {
    if rules.rev >= TANGERINE_WHISTLE && AllButOne64th(rules, gas) < requested then AllButOne64th(rules, gas) else requested
  }

  /// What an instruction costs besides memory and copying.
  function Base(rules: Rules, op: Op): nat {
    match op
    case Plain => rules.cost
    case BlockHash => STEP_GAS6
    case JumpDest => JUMPDEST_GAS
    case Exp(n) => STEP_GAS5 + (if rules.rev >= SPURIOUS_DRAGON then 50 else 10) * n
    case MWord(_) => rules.cost
    case MByte(_) => rules.cost
    case Sha3(_, size) => SHA3_GAS + Words(size) * SHA3_WORD_GAS
    case Log(n, _, size) => LOG_GAS + LOG_TOPIC_GAS * n + LOG_DATA_GAS * size
    case Copy(_, _) => rules.cost
    case SStore(status) => StoreCost(rules, status)
    case Create(two, _, size, _, _) => CREATE_GAS + (if two then Words(size) * SHA3_WORD_GAS else 0)
    case Call(self, newAccount, hasValue, _, _, _, _, _, _, _) =>
      (if rules.rev >= BERLIN && self then CALL_SELF_GAS else rules.cost)
      + (if newAccount then CALL_NEW_ACCOUNT else 0)
      + (if hasValue then VALUE_TRANSFER_GAS else 0)
  }

  /// How far into memory it reaches.
  function Need(op: Op): nat {
    match op
    case MWord(offset) => offset + 32
    case MByte(offset) => offset + 1
    case Sha3(offset, size) => MemNeed(offset, size)
    case Log(_, offset, size) => MemNeed(offset, size)
    case Copy(offset, size) => MemNeed(offset, size)
    case Create(_, offset, size, _, _) => MemNeed(offset, size)
    case Call(_, _, _, _, inOffset, inSize, outOffset, outSize, _, _) =>
      Max(MemNeed(inOffset, inSize), MemNeed(outOffset, outSize))
    case _ => 0
  }

  function CopySize(op: Op): nat {
    if op.Copy? then op.size else 0
  }

  /// What becomes of the gas that is left when a contract is created or called.
  function CallOut(rules: Rules, op: Op, gas: nat): Option<nat> {
    match op
    case Create(_, _, _, allowed, reply) =>
      var sent := AllButOne64th(rules, gas);
      Some(if allowed then gas - sent + reply(sent) else gas)
    case Call(_, _, hasValue, requested, _, _, _, _, allowed, reply) =>
      var callGas := CallGas(rules, requested, gas);
      if gas < callGas then None
      else
        var sent := callGas + if hasValue then CALL_STIPEND else 0;
        Some(gas - callGas + (if allowed then reply(sent) else sent))
    case _ => Some(gas)
  }

  /// The charge of one instruction that goes on, without a bound on any number; None is out of gas.
  function Spend(rules: Rules, op: Op, g: Gauge): Option<Gauge> {
    if op.SStore? && rules.rev >= ISTANBUL && g.gas <= CALL_STIPEND then None
    else
      match Pay(g, Base(rules, op), Need(op), CopySize(op))
      case None => None
      case Some(h) =>
        match CallOut(rules, op, h.gas)
        case None => None
        case Some(gas) => Some(Gauge(gas, h.mem))
  }

  // -------------------------------------------------------------------- arithmetic

  lemma {:induction false} SquareUp(a: nat, b: nat)
    requires a <= b
    ensures Square(a) <= Square(b)
    decreases b - a
  {
    if a < b {
      SquareUp(a, b - 1);
    }
  }

  lemma MemGasUp(a: nat, b: nat)
    requires a <= b
    ensures MemGas(a) <= MemGas(b)
  {
    SquareUp(a / 32, b / 32);
  }

  /// Memory of 2^37 words costs more than 63 bits of gas.
  lemma MemGasBig(size: nat)
    requires size / 32 >= 0x20_0000_0000
    ensures MemGas(size) > MAX63
  {
    var w := size / 32;
    SquareUp(0x20_0000_0000, w);
    SquareIs(0x20_0000_0000);
  }

  /// Every instruction that goes on lowers the gas, also with the stipend of a call and with what
  /// comes back of a failed one; and with it the gas and the worth of the memory together.
  lemma {:induction false} SpendLowers(rules: Rules, op: Op, g: Gauge)
    requires Sane(rules, op) && Spend(rules, op, g).Some?
    ensures var h := Spend(rules, op, g).value;
            && h.gas < g.gas && h.gas + MemGas(h.mem) < g.gas + MemGas(g.mem)
            && h.mem == Grown(g.mem, Need(op))
  {
    var gas := Pay(g, Base(rules, op), Need(op), CopySize(op)).value.gas;
    if op.Call? {
      var sent := CallGas(rules, op.gas, gas) + if op.hasValue then CALL_STIPEND else 0;
      assert op.reply(sent) <= sent;
    } else if op.Create? {
      assert op.reply(AllButOne64th(rules, gas)) <= AllButOne64th(rules, gas);
    }
  }

  // -------------------------------------------------------------------------- runs

  datatype Step = Step(rules: Rules, op: Op)

  ghost predicate AllSane(steps: seq<Step>) {
    forall i :: 0 <= i < |steps| ==> Sane(steps[i].rules, steps[i].op)
  }

  /// A run of instructions that all go on.
  function Run(steps: seq<Step>, g: Gauge): Option<Gauge> {
    if steps == [] then Some(g)
    else match Spend(steps[0].rules, steps[0].op, g) { case None => None case Some(h) => Run(steps[1..], h) }
  }

  /// The interpreter's loop ends: no run is longer than the gas it started with.
  lemma {:induction false} RunEnds(steps: seq<Step>, g: Gauge)
    requires AllSane(steps) && Run(steps, g).Some?
    ensures Run(steps, g).value.gas + |steps| <= g.gas
  {
    if steps != [] {
      assert Sane(steps[0].rules, steps[0].op);
      SpendLowers(steps[0].rules, steps[0].op, g);
      RunEnds(steps[1..], Spend(steps[0].rules, steps[0].op, g).value);
    }
  }

  /// The memory charges of a run, added up.
  function MemPaid(steps: seq<Step>, mem: nat): nat {
    if steps == [] then 0
    else MemCharge(mem, Need(steps[0].op)) + MemPaid(steps[1..], Grown(mem, Need(steps[0].op)))
  }

  /// They come to what the memory it ends with is worth: growing in small steps costs what
  /// growing at once would have.
  lemma {:induction false} RunPaysMemory(steps: seq<Step>, g: Gauge)
    requires AllSane(steps) && Run(steps, g).Some?
    ensures MemPaid(steps, g.mem) == MemGas(Run(steps, g).value.mem) - MemGas(g.mem)
    ensures Run(steps, g).value.mem >= g.mem
  {
    if steps != [] {
      assert Sane(steps[0].rules, steps[0].op);
      SpendLowers(steps[0].rules, steps[0].op, g);
      RunPaysMemory(steps[1..], Spend(steps[0].rules, steps[0].op, g).value);
    }
  }

  /// From gas of 63 bits and no memory on, gas and memory stay worth no more than 63 bits.
  lemma {:induction false} RunKeepsWorth(steps: seq<Step>, g: Gauge)
    requires AllSane(steps) && Run(steps, g).Some?
    ensures var h := Run(steps, g).value; h.gas + MemGas(h.mem) <= g.gas + MemGas(g.mem)
  {
    if steps != [] {
      assert Sane(steps[0].rules, steps[0].op);
      SpendLowers(steps[0].rules, steps[0].op, g);
      RunKeepsWorth(steps[1..], Spend(steps[0].rules, steps[0].op, g).value);
    }
  }

  // ------------------------------------------------------------ the 64-bit machine

  /// Addition of 64-bit numbers.
  function Add64(a: nat, b: nat): nat {
    (a + b) % U64
  }

  /// toInt63: out of gas if a number does not fit.
  function ToInt63(v: nat): Option<nat> {
    if v > MAX63 then None else Some(v)
  }

  /// A memory charge that 63 bits cannot hold is more than any gas that may be left.
  lemma {:induction false} TooFar(g: Gauge, need: nat)
    requires g.gas + MemGas(g.mem) <= MAX63 && need > MAX63
    ensures MemCharge(g.mem, need) > g.gas
  {
    MemGasBig(Words(need) * 32);
    MemGasUp(Words(need) * 32, Grown(g.mem, need));
  }

  /// What is asked of the 64-bit registers before memory is charged: the sum cannot wrap, or the
  /// memory alone is more than 63 bits.
  predicate Roomy(runGas: nat, need: nat, copy: nat) {
    && need < U64 - 31 && copy < U64 - 31
    && (runGas + MAX63 + COPY_GAS * Words(copy) < U64 || (runGas < U64 && MemGas(Words(need) * 32) > MAX63))
  }

  lemma NoWrap(a: nat, b: nat)
    ensures a + b < U64 ==> Add64(a, b) == a + b
  {
  }

  lemma CopyWords(size: nat)
    requires size < U64 - 31
    ensures Add64(size, 31) / 32 == Words(size)
  {
  }

  lemma {:induction false} ChargeIs(mem: nat, need: nat)
    ensures var words := Words(need) * 32;
            && MemCharge(mem, need) == (if words <= mem then 0 else MemGas(words) - MemGas(mem))
            && (words <= mem ==> MemGas(words) <= MemGas(mem))
  {
    MemGasUp(mem, Grown(mem, need));
    if Words(need) * 32 <= mem {
      MemGasUp(Words(need) * 32, mem);
    }
  }

  class Meter {
    var ioGas: nat
    var runGas: nat
    var newMemSize: nat
    var copyMemSize: nat
    var memSize: nat

    constructor (gas: nat)
      requires gas <= 0x7fff_ffff_ffff_ffff
      ensures Valid() && Reading() == Gauge(gas, 0)
    {
      ioGas, runGas, newMemSize, copyMemSize, memSize := gas, 0, 0, 0, 0;
    }

    function Reading(): Gauge
      reads this
    {
      Gauge(ioGas, memSize)
    }

    predicate Valid()
      reads this
    {
      memSize % 32 == 0 && ioGas + MemGas(memSize) <= MAX63
    }

    method UpdateIOGas() returns (ok: bool)
      modifies this`ioGas
      ensures ok <==> runGas <= old(ioGas)
      ensures ioGas == if ok then old(ioGas) - runGas else old(ioGas)
    {
      if ioGas < runGas {
        return false;
      }
      ioGas := ioGas - runGas;
      ok := true;
    }

    /// updateGas: false is out of gas.
    method UpdateGas() returns (ok: bool)
      requires ioGas + MemGas(memSize) <= MAX63 && copyMemSize < U64 - 31
      requires newMemSize > memSize ==> MemGas(memSize) <= MemGas(newMemSize)
      requires (newMemSize > memSize && MemGas(newMemSize) > MAX63)
            || runGas + MAX63 + COPY_GAS * Words(copyMemSize) < U64
      modifies this`runGas
      ensures var charge := if newMemSize > memSize then MemGas(newMemSize) - MemGas(memSize) else 0;
              var total := old(runGas) + charge + COPY_GAS * Words(copyMemSize);
              (ok <==> total <= ioGas) && (ok ==> runGas == total)
    {
      hide MemGas, Words, Add64;
      ghost var charge := if newMemSize > memSize then MemGas(newMemSize) - MemGas(memSize) else 0;
      CopyWords(copyMemSize);
      NoWrap(runGas, charge);
      NoWrap(runGas, COPY_GAS * Words(copyMemSize));
      NoWrap(runGas + charge, COPY_GAS * Words(copyMemSize));
      if newMemSize > memSize {
        if ToInt63(MemGas(newMemSize)).None? || ToInt63(MemGas(memSize)).None? {
          return false;
        }
        runGas := Add64(runGas, MemGas(newMemSize) - MemGas(memSize));
      }
      runGas := Add64(runGas, COPY_GAS * (Add64(copyMemSize, 31) / 32));
      ok := ioGas >= runGas;
    }

    /// updateMem: false is out of gas.
    method UpdateMem(newMem: nat) returns (ok: bool)
      requires Valid() && Roomy(runGas, newMem, copyMemSize)
      modifies this`runGas, this`newMemSize, this`memSize
      ensures ok <==> Total(old(memSize), old(runGas), newMem, copyMemSize) <= ioGas
      ensures ok ==> runGas == Total(old(memSize), old(runGas), newMem, copyMemSize)
      ensures ok ==> memSize == Grown(old(memSize), newMem)
    {
      hide MemGas;
      newMemSize := Add64(newMem, 31) / 32 * 32;
      ChargeIs(memSize, newMem);
      assert newMemSize == Words(newMem) * 32;
      MemGasUp(memSize, Max(memSize, newMemSize));
      ok := UpdateGas();
      if ok && newMemSize > memSize {
        memSize := newMemSize;
      }
    }

    /// The charges of an instruction whose operands passed the 63-bit checks.
    method Charge(need: nat) returns (ok: bool)
      requires Valid() && Roomy(runGas, need, copyMemSize)
      modifies this
      ensures match Pay(old(Reading()), old(runGas), need, old(copyMemSize)) {
                case None => !ok
                case Some(h) => ok && Reading() == h
              }
    {
      ok := UpdateMem(need);
      if ok {
        ok := UpdateIOGas();
      }
    }

    /// caseCreate, after the charges.
    method CallCreate(rules: Rules, op: Op)
      requires op.Create? && Sane(rules, op) && ioGas <= MAX63
      modifies this`ioGas
      ensures CallOut(rules, op, old(ioGas)) == Some(ioGas)
    {
      if op.allowed {
        var msgGas := ioGas;
        if rules.rev >= TANGERINE_WHISTLE {
          msgGas := msgGas - msgGas / 64;
        }
        var gasLeft := op.reply(msgGas);
        ioGas := ioGas - (msgGas - gasLeft);
      }
    }

    /// caseCallSetup and caseCall, after the static charges. The gas of the message is a signed
    /// 64-bit number, and the register never wraps.
    method CallContract(rules: Rules, op: Op) returns (ok: bool, msgGas: nat)
      requires op.Call? && Sane(rules, op) && ioGas <= MAX63 - (if op.hasValue then VALUE_TRANSFER_GAS else 0)
      modifies this`ioGas, this`runGas
      ensures match CallOut(rules, op, old(ioGas)) {
                case None => !ok
                case Some(gas) => ok && ioGas == gas
              }
      ensures ok ==> msgGas == CallGas(rules, op.gas, old(ioGas)) + (if op.hasValue then CALL_STIPEND else 0)
      ensures msgGas <= MAX63
    {
      hide Add64;
      msgGas := 0;
      var callGas := op.gas;
      if rules.rev >= TANGERINE_WHISTLE {
        var maxAllowedCallGas := ioGas - ioGas / 64;
        if maxAllowedCallGas < callGas {
          callGas := maxAllowedCallGas;
        }
      }
      if ToInt63(callGas).None? {
        return false, msgGas;
      }
      msgGas := callGas;
      runGas := msgGas;
      ok := UpdateIOGas();
      if !ok {
        return;
      }
      if op.hasValue {
        msgGas := msgGas + CALL_STIPEND;
      }
      var back := if op.allowed then op.reply(msgGas) else msgGas;
      assert back <= msgGas;
      NoWrap(ioGas, back);
      ioGas := Add64(ioGas, back);
    }

    /// The part of an instruction's case that sets runGas and copyMemSize and checks the operands:
    /// how far into memory it reaches, or out of gas.
    method Operands(rules: Rules, op: Op) returns (need: Option<nat>)
      requires Valid() && Sane(rules, op)
      modifies this`runGas, this`copyMemSize
      ensures match need {
                case None => Spend(rules, op, Reading()) == None
                case Some(n) => n == Need(op) && runGas == Base(rules, op) && copyMemSize == CopySize(op)
                                && Roomy(runGas, n, copyMemSize)
                                && !(op.SStore? && rules.rev >= ISTANBUL && ioGas <= CALL_STIPEND)
              }
    {
      hide MemGas, Spend, Pay, Add64, AllButOne64th, CallGas, CallOut;
      BigOperands(rules, op, Reading());
      NoStipend(rules, op, Reading());
      runGas, copyMemSize := rules.cost, 0;
      match op
      case Plain => need := Some(0);
      case BlockHash =>
        runGas := STEP_GAS6;
        need := Some(0);
      case JumpDest =>
        runGas := JUMPDEST_GAS;
        need := Some(0);
      case Exp(n) =>
        runGas := STEP_GAS5 + (if rules.rev >= SPURIOUS_DRAGON then 50 else 10) * n;
        need := Some(0);
      case MWord(offset) =>
        need := ToInt63(offset);
        if need.Some? {
          need := Some(need.value + 32);
        }
      case MByte(offset) =>
        need := ToInt63(offset);
        if need.Some? {
          need := Some(need.value + 1);
        }
      case Sha3(offset, size) =>
        need := Checked(SHA3_GAS + Words(size) * SHA3_WORD_GAS, offset, size);
      case Log(n, offset, size) =>
        need := Checked(LOG_GAS + LOG_TOPIC_GAS * n + LOG_DATA_GAS * size, offset, size);
      case Copy(offset, size) =>
        if ToInt63(size).None? {
          return None;
        }
        copyMemSize := size;
        need := ToInt63(MemNeed(offset, size));
      case SStore(status) =>
        if rules.rev >= ISTANBUL && ioGas <= CALL_STIPEND {
          return None;
        }
        runGas := StoreCost(rules, status);
        need := Some(0);
      case Create(two, offset, size, _, _) =>
        need := CreateOperands(two, offset, size);
      case Call(self, newAccount, hasValue, _, inOffset, inSize, outOffset, outSize, _, _) =>
        need := CallOperands(rules, self, newAccount, hasValue, MemNeed(inOffset, inSize), MemNeed(outOffset, outSize));
    }

    method CreateOperands(two: bool, offset: nat, size: nat) returns (need: Option<nat>)
      requires copyMemSize == 0
      modifies this`runGas
      ensures var words := if two then Words(size) * SHA3_WORD_GAS else 0;
              && (need.None? <==> words > MAX63 || MemNeed(offset, size) > MAX63)
              && (need.Some? ==> need.value == MemNeed(offset, size)
                                  && runGas == CREATE_GAS + words && Roomy(runGas, need.value, 0))
    {
      runGas := CREATE_GAS;
      if two {
        var words := ToInt63(Words(size) * SHA3_WORD_GAS);
        if words.None? {
          return None;
        }
        NoWrap(runGas, words.value);
        runGas := Add64(runGas, words.value);
      }
      need := ToInt63(MemNeed(offset, size));
      CreateRoom(offset, size);
    }

    method CallOperands(rules: Rules, self: bool, newAccount: bool, hasValue: bool, input: nat, output: nat)
        returns (need: Option<nat>)
      requires runGas == rules.cost < 0x8000
      modifies this`runGas
      ensures need == if input > MAX63 || output > MAX63 then None else Some(Max(input, output))
      ensures runGas == (if rules.rev >= BERLIN && self then CALL_SELF_GAS else rules.cost)
                        + (if newAccount then CALL_NEW_ACCOUNT else 0) + (if hasValue then VALUE_TRANSFER_GAS else 0)
    {
      if rules.rev >= BERLIN && self {
        runGas := CALL_SELF_GAS;
      }
      if newAccount {
        runGas := runGas + CALL_NEW_ACCOUNT;
      }
      if hasValue {
        runGas := runGas + VALUE_TRANSFER_GAS;
      }
      var inputMemNeed, outputMemNeed := ToInt63(input), ToInt63(output);
      need := if inputMemNeed.None? || outputMemNeed.None? then None
              else Some(Max(inputMemNeed.value, outputMemNeed.value));
    }

    /// A special charge and a memory range, each within 63 bits.
    method Checked(charge: nat, offset: nat, size: nat) returns (need: Option<nat>)
      requires copyMemSize == 0
      modifies this`runGas
      ensures need == if charge > MAX63 then None else ToInt63(MemNeed(offset, size))
      ensures need.Some? ==> runGas == charge && Roomy(runGas, need.value, copyMemSize)
    {
      if ToInt63(charge).None? {
        return None;
      }
      runGas := charge;
      need := ToInt63(MemNeed(offset, size));
    }

    /// One instruction that goes on: the 64-bit registers and the 63-bit checks charge exactly what
    /// unbounded numbers would, and false is exactly out of gas.
    method Execute(rules: Rules, op: Op) returns (ok: bool)
      requires Valid() && Sane(rules, op)
      modifies this
      ensures match Spend(rules, op, old(Reading())) {
                case None => !ok
                case Some(h) => ok && Valid() && Reading() == h
              }
    {
      ghost var was := Reading();
      var need := Operands(rules, op);
      if need.None? {
        return false;
      }
      PayLowers(was, runGas, need.value, copyMemSize);
      ok := Charge(need.value);
      if ok {
        if op.Create? {
          CallCreate(rules, op);
        } else if op.Call? {
          var msgGas;
          ok, msgGas := CallContract(rules, op);
        }
        if ok {
          SpendLowers(rules, op, was);
        }
      }
    }
  }

  /// Paying leaves at most what there was less the base charge.
  lemma PayLowers(g: Gauge, base: nat, need: nat, copy: nat)
    requires g.gas + MemGas(g.mem) <= MAX63 && g.mem % 32 == 0
    ensures match Pay(g, base, need, copy) {
              case None => true
              case Some(h) => h.gas <= MAX63 - base && h.mem % 32 == 0
            }
  {
    hide MemGas, Words;
  }

  /// Operands that fail a 63-bit check cost more than there is.
  lemma {:induction false} BigOperands(rules: Rules, op: Op, g: Gauge)
    requires g.gas + MemGas(g.mem) <= MAX63
    ensures Need(op) > MAX63 || Base(rules, op) > MAX63 || CopySize(op) > MAX63 ==> Spend(rules, op, g) == None
  {
    if Need(op) > MAX63 {
      TooFar(g, Need(op));
    }
    if op.Copy? && op.size > MAX63 {
      assert MemNeed(op.offset, op.size) > MAX63;
    }
  }

  lemma NoStipend(rules: Rules, op: Op, g: Gauge)
    ensures op.SStore? && rules.rev >= ISTANBUL && g.gas <= CALL_STIPEND ==> Spend(rules, op, g) == None
  {
  }

  /// What CREATE2 adds for hashing cannot make the sum wrap unless the memory alone is too much.
  lemma {:induction false} CreateRoom(offset: nat, size: nat)
    ensures var need, charge := MemNeed(offset, size), CREATE_GAS + Words(size) * SHA3_WORD_GAS;
            need <= MAX63 && Words(size) * SHA3_WORD_GAS <= MAX63 ==> Roomy(charge, need, 0) && charge < U64
    ensures MemNeed(offset, size) <= MAX63 ==> Roomy(CREATE_GAS, MemNeed(offset, size), 0)
  {
    var need := MemNeed(offset, size);
    if Words(need) >= 0x20_0000_0000 {
      MemGasBig(Words(need) * 32);
    }
  }
}
