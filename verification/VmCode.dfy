/// EVM byte code and the optimizer's rewriting of it (libaleth-interpreter/VMOpt.cpp): where
/// instructions start, which of them are jump destinations, and what becomes of the code.
module VmCode {
  import opened Bytes
  import opened Numbers

  const STOP: byte := 0x00
  const JUMP: byte := 0x56
  const JUMPI: byte := 0x57
  const JUMPDEST: byte := 0x5b
  const PUSH1: byte := 0x60
  const PUSH32: byte := 0x7f
  const PUSHC: byte := 0xac
  const JUMPC: byte := 0xad
  const JUMPCI: byte := 0xae
  const UNDEFINED: byte := 0xaf

  const EXTRA_BYTES: nat := 33

  // ------------------------------------------------------------- the user's code

  /// Code reads as zero past its end.
  function At(code: bytes, i: nat): byte {
    if i < |code| then code[i] else 0
  }

  predicate IsPush(op: byte) {
    PUSH1 <= op <= PUSH32
  }

  predicate IsSynthetic(op: byte) {
    op == PUSHC || op == JUMPC || op == JUMPCI
  }

  /// What an operation byte of the user's code means: the optimizer's own operations mean nothing.
  function UserOp(code: bytes, pc: nat): byte {
    if IsSynthetic(At(code, pc)) then UNDEFINED else At(code, pc)
  }

  /// The number of bytes that follow the operation as its data.
  function PushBytes(op: byte): (n: nat)
    ensures n <= 32
  {
    if IsPush(op) then op - PUSH1 + 1 else 0
  }

  function Width(code: bytes, pc: nat): (w: nat)
    ensures 1 <= w <= 33
  {
    1 + PushBytes(At(code, pc))
  }

  /// Going on from instruction to instruction leads from one place to another.
  predicate Reaches(code: bytes, from: nat, pc: nat)
    decreases if from < pc then pc - from else 0
  {
    from == pc || (from < pc && Reaches(code, from + Width(code, from), pc))
  }

  /// An instruction starts here.
  predicate Start(code: bytes, pc: nat) {
    Reaches(code, 0, pc)
  }

  predicate IsDest(code: bytes, pc: nat) {
    pc < |code| && Start(code, pc) && At(code, pc) == JUMPDEST
  }

  /// verifyJumpDest: fits 63 bits and is a jump destination.
  predicate Verified(code: bytes, dest: nat) {
    dest <= MAX63 && IsDest(code, dest)
  }

  /// The bytes from one place on, and the value a push operation carries in them.
  function Data(code: bytes, from: nat, n: nat): (d: bytes)
    ensures |d| == n
  {
    if n == 0 then [] else Data(code, from, n - 1) + [At(code, from + n - 1)]
  }

  function PushValue(code: bytes, pc: nat): nat {
    FromBE(Data(code, pc + 1, PushBytes(At(code, pc))))
  }

  lemma {:induction false} ReachesNext(code: bytes, from: nat, pc: nat)
    requires Reaches(code, from, pc)
    ensures Reaches(code, from, pc + Width(code, pc))
    decreases if from < pc then pc - from else 0
  {
    if from < pc {
      ReachesNext(code, from + Width(code, from), pc);
    } else {
      assert Reaches(code, pc + Width(code, pc), pc + Width(code, pc));
    }
  }

  /// Instructions do not overlap.
  lemma {:induction false} ReachesApart(code: bytes, from: nat, p: nat, q: nat)
    requires Reaches(code, from, p) && Reaches(code, from, q) && p < q
    ensures p + Width(code, p) <= q
    decreases if from < p then p - from else 0
  {
    if from < p {
      ReachesApart(code, from + Width(code, from), p, q);
    } else {
      assert Reaches(code, p + Width(code, p), q);
    }
  }

  /// The only instruction that ends where the next one starts is the one before it.
  lemma {:induction false} OneBefore(code: bytes, p: nat, q: nat)
    requires Start(code, p) && Start(code, q) && p + Width(code, p) == q + Width(code, q)
    ensures p == q
  {
    if p < q {
      ReachesApart(code, 0, p, q);
    } else if q < p {
      ReachesApart(code, 0, q, p);
    }
  }

  // ------------------------------------------------------------ what is to become of it

  predicate IsBig(code: bytes, pc: nat) {
    pc < |code| && PushBytes(At(code, pc)) > 5
  }

  /// The constants of the big pushes from one instruction on, in order.
  function PoolFrom(code: bytes, from: nat, to: nat): seq<nat>
    decreases if from < to then to - from else 0
  {
    if from >= to then []
    else (if IsBig(code, from) then [PushValue(code, from)] else []) + PoolFrom(code, from + Width(code, from), to)
  }

  function Pool(code: bytes): seq<nat> {
    PoolFrom(code, 0, |code|)
  }

  /// Where the constant of a big push lands in the pool.
  function PoolIndex(code: bytes, pc: nat): nat {
    |PoolFrom(code, 0, pc)|
  }

  lemma {:induction false} PoolNext(code: bytes, from: nat, pc: nat)
    requires Reaches(code, from, pc)
    ensures PoolFrom(code, from, pc + Width(code, pc))
         == PoolFrom(code, from, pc) + (if IsBig(code, pc) then [PushValue(code, pc)] else [])
    decreases if from < pc then pc - from else 0
  {
    var one := if IsBig(code, from) then [PushValue(code, from)] else [];
    if from < pc {
      var next := from + Width(code, from);
      PoolNext(code, next, pc);
      assert one + (PoolFrom(code, next, pc) + (if IsBig(code, pc) then [PushValue(code, pc)] else []))
          == one + PoolFrom(code, next, pc) + (if IsBig(code, pc) then [PushValue(code, pc)] else []);
    }
  }

  /// The pool of a part of the code is where the pool of more of it begins.
  lemma {:induction false} PoolGrows(code: bytes, from: nat, to: nat, end: nat)
    requires Reaches(code, from, to) && to <= end
    ensures PoolFrom(code, from, to) <= PoolFrom(code, from, end)
    decreases if from < to then to - from else 0
  {
    if from < to {
      PoolGrows(code, from + Width(code, from), to, end);
    }
  }

  /// The constant of a big push is in the pool at its index.
  lemma {:induction false} InPool(code: bytes, pc: nat)
    requires Start(code, pc) && IsBig(code, pc)
    ensures PoolIndex(code, pc) < |Pool(code)| && Pool(code)[PoolIndex(code, pc)] == PushValue(code, pc)
  {
    var next := pc + Width(code, pc);
    PoolNext(code, 0, pc);
    if next <= |code| {
      ReachesNext(code, 0, pc);
      PoolGrows(code, 0, next, |code|);
    } else {
      PoolShort(code, 0, pc, next, |code|);
    }
    assert PoolFrom(code, 0, next)[PoolIndex(code, pc)] == PushValue(code, pc);
  }

  /// Between the last instruction of the code and its end there are no more constants.
  lemma {:induction false} PoolShort(code: bytes, from: nat, pc: nat, next: nat, end: nat)
    requires Reaches(code, from, pc) && next == pc + Width(code, pc) && pc < end <= next
    ensures PoolFrom(code, from, end) == PoolFrom(code, from, next)
    decreases if from < pc then pc - from else 0
  {
    if from < pc {
      PoolShort(code, from + Width(code, from), pc, next, end);
    } else {
      assert PoolFrom(code, next, end) == [] == PoolFrom(code, next, next);
    }
  }

  /// The instruction just before is a push of a verified jump destination.
  ghost predicate AfterConst(code: bytes, pc: nat) {
    exists q :: EndsAt(code, q, pc) && Verified(code, PushValue(code, q))
  }

  predicate EndsAt(code: bytes, q: nat, pc: nat) {
    q < |code| && Start(code, q) && IsPush(At(code, q)) && q + Width(code, q) == pc
  }

  /// The operation an instruction ends up with.
  ghost function NewOp(code: bytes, pc: nat): byte {
    if IsBig(code, pc) then PUSHC
    else if UserOp(code, pc) == JUMP && AfterConst(code, pc) then JUMPC
    else if UserOp(code, pc) == JUMPI && AfterConst(code, pc) then JUMPCI
    else UserOp(code, pc)
  }

  /// A number in two bytes, the high one first.
  function TwoBytes(high: byte, low: byte): nat {
    var h: int := high;
    h * 256 + low
  }

  /// The data of a rewritten push: its pool index in two bytes, which is all the room there is,
  /// and the number of data bytes left to skip; of any other instruction: as it was.
  ghost predicate NewData(code: bytes, out: bytes, pc: nat) {
    pc + Width(code, pc) <= |out| &&
    if IsBig(code, pc) then
      && TwoBytes(out[pc + 1], out[pc + 2]) == PoolIndex(code, pc) % 0x1_0000
      && out[pc + 3] == PushBytes(At(code, pc)) - 2
    else
      forall i :: pc < i < pc + Width(code, pc) ==> out[i] == At(code, i)
  }

  /// The rewritten code, instruction by instruction.
  ghost predicate Optimized(code: bytes, out: bytes) {
    && |out| == |code| + EXTRA_BYTES
    && forall pc :: 0 <= pc < |out| && Start(code, pc) ==> out[pc] == NewOp(code, pc) && NewData(code, out, pc)
  }

  /// The table of jump destinations, sorted as the binary search wants it.
  ghost predicate IsTable(code: bytes, dests: seq<nat>) {
    && (forall i, j :: 0 <= i < j < |dests| ==> dests[i] < dests[j])
    && (forall d: nat :: d in dests <==> IsDest(code, d))
  }
}
