/// What instructions cost and how far memory grows, told of their operands in the numbers of the
/// Yellow Paper, section 9 and Appendix G (libaleth-interpreter/VM.cpp, VMCalls.cpp).
module VmPrices {
  import opened Options
  import opened VmGas

  /// The bytes of memory that an instruction reads or writes.
  predicate Touches(op: Op, b: int) {
    match op
    case MWord(offset) => offset <= b < offset + 32
    case MByte(offset) => b == offset
    case Sha3(offset, size) => offset <= b < offset + size
    case Log(_, offset, size) => offset <= b < offset + size
    case Copy(offset, size) => offset <= b < offset + size
    case Create(_, offset, size, _, _) => offset <= b < offset + size
    case Call(_, _, _, _, inOffset, inSize, outOffset, outSize, _, _) =>
      inOffset <= b < inOffset + inSize || outOffset <= b < outOffset + outSize
    case _ => false
  }

  /// So many words of memory hold all of them.
  ghost predicate Hold(op: Op, words: nat) {
    forall b :: Touches(op, b) ==> b < 32 * words
  }

  /// The least number of words, not below w, that do.
  ghost predicate Least(op: Op, w: nat, v: nat) {
    w <= v && Hold(op, v) && forall u: nat :: w <= u && Hold(op, u) ==> v <= u
  }

  lemma NeedHolds(op: Op, words: nat)
    ensures Hold(op, words) <==> Need(op) <= 32 * words
  {
    var need := Need(op);
    if need > 0 {
      assert Touches(op, need - 1);
    }
    forall b | Touches(op, b) ensures b < need {
    }
  }

  lemma GrownIsLeast(op: Op, w: nat)
    ensures Grown(32 * w, Need(op)) % 32 == 0 && Least(op, w, Grown(32 * w, Need(op)) / 32)
  {
    var v := Grown(32 * w, Need(op)) / 32;
    NeedHolds(op, v);
    forall u: nat | w <= u && Hold(op, u) ensures v <= u {
      NeedHolds(op, u);
    }
  }

  /// After an instruction, memory is the least number of words, not less than before, that holds all
  /// bytes the instruction touches.
  lemma MemoryIsLeast(rules: Rules, op: Op, g: Gauge)
    requires Spend(rules, op, g).Some? && g.mem % 32 == 0
    ensures var h := Spend(rules, op, g).value;
            && h.mem % 32 == 0 && Least(op, g.mem / 32, h.mem / 32)
            && forall b :: Touches(op, b) ==> b < h.mem
  {
    var h := Spend(rules, op, g).value;
    GrownIsLeast(op, g.mem / 32);
    assert h.mem == Grown(g.mem, Need(op));
    assert Hold(op, h.mem / 32);
  }

  lemma LeastIsOne(op: Op, w: nat, v: nat)
    requires Least(op, w, v)
    ensures Grown(32 * w, Need(op)) == 32 * v
  {
    GrownIsLeast(op, w);
  }

  // ----------------------------------------------------------------------- prices

  /// So many words of memory cost in all.
  function MemoryPrice(words: nat): nat {
    3 * words + words * words / 512
  }

  /// An instruction without its memory.
  function Price(rules: Rules, op: Op): nat {
    match op
    case Plain => rules.cost
    case BlockHash => 20
    case JumpDest => 1
    case Exp(n) => 10 + (if rules.rev >= 3 then 50 * n else 10 * n)
    case MWord(_) => rules.cost
    case MByte(_) => rules.cost
    case Sha3(_, size) => 30 + 6 * ((size + 31) / 32)
    case Log(topics, _, size) => 375 + 375 * topics + 8 * size
    case Copy(_, size) => rules.cost + 3 * ((size + 31) / 32)
    case SStore(Added) => 20000
    case SStore(Modified) => 5000
    case SStore(Unchanged) => if rules.rev == 5 || rules.rev >= 7 then rules.sload else 5000
    case Create(two, _, size, _, _) => if two then 32000 + 6 * ((size + 31) / 32) else 32000
    case Call(self, newAccount, hasValue, _, _, _, _, _, _, _) =>
      (if rules.rev >= 8 && self then 40 else rules.cost)
      + (if newAccount then 25000 else 0) + (if hasValue then 9000 else 0)
  }

  /// What creating or calling a contract leaves of the gas: all but a 64th may go along, a call with
  /// value adds 2300, and what is not used comes back.
  function Afterwards(rules: Rules, op: Op, gas: nat): Option<nat> {
    var most := if rules.rev >= 2 then gas - gas / 64 else gas;
    match op
    case Create(_, _, _, allowed, reply) => Some(if allowed then gas - most + reply(most) else gas)
    case Call(_, _, hasValue, requested, _, _, _, _, allowed, reply) =>
      if rules.rev < 2 && requested > gas then None
      else
        var sent := if requested < most then requested else most;
        var with := if hasValue then sent + 2300 else sent;
        Some(gas - sent + (if allowed then reply(with) else with))
    case _ => Some(gas)
  }

  /// An instruction goes on exactly if the gas pays for it and for the memory it adds, and leaves
  /// exactly what is left then. Since Istanbul SSTORE wants more gas than a stipend.
  lemma SpendIs(rules: Rules, op: Op, g: Gauge, w: nat, v: nat)
    requires g.mem == 32 * w && Least(op, w, v)
    ensures MemoryPrice(w) <= MemoryPrice(v)
    ensures var price := Price(rules, op) + MemoryPrice(v) - MemoryPrice(w);
            Spend(rules, op, g) ==
              if g.gas < price || (op.SStore? && rules.rev >= 7 && g.gas <= 2300) then None
              else match Afterwards(rules, op, g.gas - price) {
                case None => None
                case Some(gas) => Some(Gauge(gas, 32 * v))
              }
  {
    LeastIsOne(op, w, v);
    MemGasIs(w);
    MemGasIs(v);
    MemGasUp(32 * w, 32 * v);
    PaysPrice(rules, op, g, v);
    if g.gas >= Price(rules, op) + MemoryPrice(v) - MemoryPrice(w) {
      CallsOut(rules, op, g.gas - (Price(rules, op) + MemoryPrice(v) - MemoryPrice(w)));
    }
    hide Pay, CallOut, Price, Afterwards, MemoryPrice, Base, Need;
  }

  lemma MemGasIs(w: nat)
    ensures MemGas(32 * w) == MemoryPrice(w)
  {
    SquareIs(w);
    assert 32 * w / 32 == w;
  }

  lemma PaysPrice(rules: Rules, op: Op, g: Gauge, v: nat)
    requires Grown(g.mem, Need(op)) == 32 * v && MemGas(g.mem) <= MemGas(32 * v)
    ensures var price := Price(rules, op) + MemGas(32 * v) - MemGas(g.mem);
            Pay(g, Base(rules, op), Need(op), CopySize(op)) ==
              if g.gas < price then None else Some(Gauge(g.gas - price, 32 * v))
  {
    hide MemGas, Grown;
  }

  lemma CallsOut(rules: Rules, op: Op, gas: nat)
    ensures CallOut(rules, op, gas) == Afterwards(rules, op, gas)
  {
  }
}
