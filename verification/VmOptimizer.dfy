/// The optimizer (libaleth-interpreter/VMOpt.cpp): copies the code, lists the jump destinations,
/// and rewrites pushes and constant jumps in place.
module VmOptimizer {
  import opened Bytes
  import opened Numbers
  import opened VmCode

  /// std::binary_search.
  method BinarySearch(s: seq<nat>, x: nat) returns (found: bool)
    requires forall i, j :: 0 <= i < j < |s| ==> s[i] < s[j]
    ensures found <==> x in s
  {
    var lo, hi := 0, |s|;
    while lo < hi
      invariant lo <= hi <= |s|
      invariant forall i :: 0 <= i < lo ==> s[i] < x
      invariant forall i :: hi <= i < |s| ==> x <= s[i]
    {
      var mid := (lo + hi) / 2;
      if s[mid] < x {
        lo := mid + 1;
      } else {
        hi := mid;
      }
    }
    found := lo < |s| && s[lo] == x;
  }

  /// The copy after the first pass.
  predicate Marked(code: bytes, c: bytes, done: nat) {
    && |c| == |code| + EXTRA_BYTES
    && forall i :: 0 <= i < |c| ==> c[i] == if i < done && Start(code, i) then UserOp(code, i) else At(code, i)
  }

  /// The jump destinations up to a place.
  ghost predicate TableTo(code: bytes, dests: seq<nat>, done: nat) {
    && (forall i, j :: 0 <= i < j < |dests| ==> dests[i] < dests[j])
    && (forall d: nat :: d in dests <==> d < done && IsDest(code, d))
  }

  /// No instruction starts inside another.
  lemma NoStartInside(code: bytes, pc: nat)
    requires Start(code, pc)
    ensures forall i: nat :: pc < i < pc + Width(code, pc) ==> !Start(code, i)
    ensures Start(code, pc + Width(code, pc))
  {
    ReachesNext(code, 0, pc);
    forall i: nat | pc < i < pc + Width(code, pc) ensures !Start(code, i) {
      if Start(code, i) {
        ReachesApart(code, 0, pc, i);
      }
    }
  }

  lemma TableStep(code: bytes, dests: seq<nat>, pc: nat)
    requires Start(code, pc) && pc < |code| && TableTo(code, dests, pc)
    ensures TableTo(code, if At(code, pc) == JUMPDEST then dests + [pc] else dests, pc + Width(code, pc))
  {
    NoStartInside(code, pc);
    var more := if At(code, pc) == JUMPDEST then dests + [pc] else dests;
    forall d: nat ensures d in more <==> d < pc + Width(code, pc) && IsDest(code, d) {
      assert d in dests <==> d < pc && IsDest(code, d);
    }
    forall i | 0 <= i < |dests| ensures dests[i] < pc {
      assert dests[i] in dests;
    }
  }

  /// The copy during the second pass: before pc all is rewritten, from pc on only the jump that
  /// may stand at pc itself.
  ghost predicate Rewritten(code: bytes, c: bytes, pc: nat) {
    && |c| == |code| + EXTRA_BYTES
    && (forall s :: 0 <= s < |c| && s < pc && Start(code, s) ==> c[s] == NewOp(code, s) && NewData(code, c, s))
    && (pc < |c| ==> c[pc] == Ahead(code, pc))
    && (forall i :: pc < i < |c| ==> c[i] == if Start(code, i) then UserOp(code, i) else At(code, i))
  }

  /// What stands at the next instruction while it waits for its own turn.
  ghost function Ahead(code: bytes, pc: nat): byte {
    if IsBig(code, pc) then At(code, pc) else NewOp(code, pc)
  }

  lemma FirstIsNoJump(code: bytes)
    ensures !AfterConst(code, 0)
  {
  }

  /// What follows an instruction is a constant jump exactly when the instruction is a push of a
  /// verified destination.
  lemma AfterThis(code: bytes, pc: nat)
    requires Start(code, pc)
    ensures AfterConst(code, pc + Width(code, pc)) <==>
            pc < |code| && IsPush(At(code, pc)) && Verified(code, PushValue(code, pc))
  {
    var next := pc + Width(code, pc);
    if AfterConst(code, next) {
      var q :| EndsAt(code, q, next) && Verified(code, PushValue(code, q));
      OneBefore(code, pc, q);
    }
    if pc < |code| && IsPush(At(code, pc)) && Verified(code, PushValue(code, pc)) {
      assert EndsAt(code, pc, next);
    }
  }

  /// What a jump becomes after a push.
  function ConstOp(op: byte, verified: bool): byte {
    if verified && op == JUMP then JUMPC else if verified && op == JUMPI then JUMPCI else op
  }

  class VM {
    const pCode: bytes
    var code: bytes
    var jumpDests: seq<nat>
    var pool: seq<nat>

    constructor (pCode: bytes)
      ensures this.pCode == pCode && jumpDests == [] && pool == []
    {
      this.pCode, code, jumpDests, pool := pCode, [], [], [];
    }

    method CopyCode(extraBytes: nat)
      modifies this`code
      ensures |code| == |pCode| + extraBytes && forall i :: 0 <= i < |code| ==> code[i] == At(pCode, i)
    {
      code := pCode + seq(extraBytes, _ => 0);
    }

    /// verifyJumpDest without the throw: the destination, or -1.
    method VerifyJumpDest(dest: nat) returns (r: int)
      requires IsTable(pCode, jumpDests)
      ensures r == if Verified(pCode, dest) then dest else -1
    {
      if dest <= MAX63 {
        var found := BinarySearch(jumpDests, dest);
        if found {
          return dest;
        }
      }
      return -1;
    }

    /// The first loop: user code must not contain the optimizer's own operations, and the jump
    /// destinations are listed.
    method BuildTable()
      requires Marked(pCode, code, 0) && jumpDests == []
      modifies this`code, this`jumpDests
      ensures Marked(pCode, code, |code|) && IsTable(pCode, jumpDests)
    {
      var nBytes := |pCode|;
      var pc := 0;
      while pc < nBytes
        invariant Start(pCode, pc) && Marked(pCode, code, pc) && TableTo(pCode, jumpDests, pc)
        invariant pc <= nBytes + 32
        decreases nBytes - pc
      {
        var op := code[pc];
        TableStep(pCode, jumpDests, pc);
        NoStartInside(pCode, pc);
        if op == PUSHC || op == JUMPC || op == JUMPCI {
          code := code[pc := UNDEFINED];
        }
        if op == JUMPDEST {
          jumpDests := jumpDests + [pc];
        } else if PUSH1 <= op <= PUSH32 {
          pc := pc + (op - PUSH1 + 1);
        }
        pc := pc + 1;
      }
    }

    /// Decodes the data of a push to its value.
    method Decode(pc: nat, nPush: nat) returns (val: nat)
      requires nPush > 0 && pc + nPush < |code|
      requires forall i :: pc < i <= pc + nPush ==> code[i] == At(pCode, i)
      ensures val == FromBE(Data(pCode, pc + 1, nPush))
    {
      val := code[pc + 1];
      assert Data(pCode, pc + 1, 1) == [At(pCode, pc + 1)];
      assert [At(pCode, pc + 1)][..0] == [];
      var i := pc + 2;
      while i <= pc + nPush
        invariant pc + 2 <= i <= pc + nPush + 1
        invariant val == FromBE(Data(pCode, pc + 1, i - pc - 1))
      {
        var d := Data(pCode, pc + 1, i - pc - 1);
        assert (d + [At(pCode, i)])[..|d|] == d;
        val := val * 256 + code[i];
        i := i + 1;
      }
    }

    /// A constant goes to the pool, and its offset, which has two bytes, into the code.
    method Stash(pc: nat, nPush: nat, val: nat)
      requires 5 < nPush <= 32 && pc + 3 < |code|
      modifies this`code, this`pool
      ensures pool == old(pool) + [val]
      ensures |code| == |old(code)| && code[pc] == PUSHC
      ensures TwoBytes(code[pc + 1], code[pc + 2]) == |old(pool)| % 0x1_0000 && code[pc + 3] == nPush - 2
      ensures forall i :: 0 <= i < |code| && !(pc <= i <= pc + 3) ==> code[i] == old(code)[i]
    {
      var poolOff := |pool| % 0x1_0000;
      pool := pool + [val];
      code := code[pc := PUSHC];
      code := code[pc + 3 := nPush - 2];
      code := code[pc + 2 := poolOff % 256];
      code := code[pc + 1 := poolOff / 256];
    }

    /// A jump after a push of the constant.
    method ConstJump(i: nat, val: nat)
      requires i < |code| && IsTable(pCode, jumpDests)
      modifies this`code
      ensures code == old(code)[i := ConstOp(old(code)[i], Verified(pCode, val))]
    {
      var op := code[i];
      if op == JUMP {
        var r := VerifyJumpDest(val);
        if 0 <= r {
          code := code[i := JUMPC];
        }
      } else if op == JUMPI {
        var r := VerifyJumpDest(val);
        if 0 <= r {
          code := code[i := JUMPCI];
        }
      }
    }

    /// One turn of the second loop.
    method Turn(pc: nat) returns (next: nat)
      requires Start(pCode, pc) && pc < |pCode|
      requires Rewritten(pCode, code, pc) && pool == PoolFrom(pCode, 0, pc) && IsTable(pCode, jumpDests)
      modifies this`code, this`pool
      ensures next == pc + Width(pCode, pc) && Start(pCode, next)
      ensures Rewritten(pCode, code, next) && pool == PoolFrom(pCode, 0, next)
    {
      hide *;
      TurnStarts(pCode, code, pc);
      next := pc;
      var op := code[pc];
      if PUSH1 <= op <= PUSH32 {
        TurnPush(pc, op - PUSH1 + 1);
        next := next + (op - PUSH1 + 1);
      } else {
        OtherTurned(pCode, code, pc);
      }
      next := next + 1;
    }

    /// The turn of a push.
    method TurnPush(pc: nat, nPush: nat)
      requires Start(pCode, pc) && pc < |pCode| && IsPush(At(pCode, pc)) && nPush == PushBytes(At(pCode, pc))
      requires Rewritten(pCode, code, pc) && |pool| == PoolIndex(pCode, pc) && IsTable(pCode, jumpDests)
      modifies this`code, this`pool
      ensures Rewritten(pCode, code, pc + nPush + 1)
      ensures pool == old(pool) + if IsBig(pCode, pc) then [PushValue(pCode, pc)] else []
    {
      ghost var was := code;
      SameOp(pCode, code, pc);
      assert pc + nPush + 1 < |code|;
      hide Start, Reaches, PoolFrom, FromBE, Data, Verified, IsDest, IsTable, Rewritten;
      var val := Decode(pc, nPush);
      if 5 < nPush {
        Stash(pc, nPush, val);
      }
      ConstJump(pc + nPush + 1, val);
      PushTurned(pCode, was, code, pc);
    }

    /// The second loop: long pushes take their constant from the pool, and jumps to a constant
    /// that was just pushed are verified here once and for all.
    method Rewrite()
      requires Marked(pCode, code, |code|) && IsTable(pCode, jumpDests) && pool == []
      modifies this`code, this`pool
      ensures Optimized(pCode, code) && pool == Pool(pCode)
    {
      var nBytes := |pCode|;
      var pc := 0;
      FirstIsNoJump(pCode);
      while pc < nBytes
        invariant Start(pCode, pc) && pc <= nBytes + 32
        invariant Rewritten(pCode, code, pc) && pool == PoolFrom(pCode, 0, pc)
        decreases nBytes - pc
      {
        pc := Turn(pc);
      }
      if pc > nBytes {
        PoolEnds(pCode, pc);
      }
      RestIsZero(pCode, code, pc);
    }

    method Optimize()
      requires jumpDests == [] && pool == []
      modifies this
      ensures Optimized(pCode, code) && IsTable(pCode, jumpDests) && pool == Pool(pCode)
    {
      CopyCode(EXTRA_BYTES);
      BuildTable();
      Rewrite();
    }
  }

  /// What a turn finds.
  lemma TurnStarts(code: bytes, c: bytes, pc: nat)
    requires Rewritten(code, c, pc) && Start(code, pc) && pc < |code|
    ensures pc < |c| && Start(code, pc + Width(code, pc)) && |PoolFrom(code, 0, pc)| == PoolIndex(code, pc)
    ensures PUSH1 <= c[pc] <= PUSH32 <==> IsPush(At(code, pc))
    ensures PUSH1 <= c[pc] <= PUSH32 ==>
              c[pc] - PUSH1 + 1 == PushBytes(At(code, pc)) && pc + Width(code, pc) == pc + 1 + (c[pc] - PUSH1 + 1)
    ensures !(PUSH1 <= c[pc] <= PUSH32) ==> pc + Width(code, pc) == pc + 1 && !IsBig(code, pc)
    ensures PoolFrom(code, 0, pc + Width(code, pc))
         == if IsBig(code, pc) then PoolFrom(code, 0, pc) + [PushValue(code, pc)] else PoolFrom(code, 0, pc)
  {
    ReachesNext(code, 0, pc);
    PoolNext(code, 0, pc);
    SameOp(code, c, pc);
    hide Reaches, PoolFrom, FromBE, Data, PushValue;
  }

  /// One turn rewrites one instruction and settles what the next one starts as.
  lemma TurnDone(code: bytes, was: bytes, c: bytes, pc: nat)
    requires Rewritten(code, was, pc) && Start(code, pc) && pc < |code| && |c| == |was|
    requires c[pc] == NewOp(code, pc) && NewData(code, c, pc)
    requires forall i :: 0 <= i < pc ==> c[i] == was[i]
    requires var next := pc + Width(code, pc);
             c[next] == Ahead(code, next) && forall i :: next < i < |c| ==> c[i] == was[i]
    ensures Rewritten(code, c, pc + Width(code, pc))
  {
    var next := pc + Width(code, pc);
    NoStartInside(code, pc);
    forall s | 0 <= s < next && Start(code, s) ensures c[s] == NewOp(code, s) && NewData(code, c, s) {
      if s < pc {
        ReachesApart(code, 0, s, pc);
      }
    }
  }

  /// An operation is still seen as it was when its turn comes, unless it is a constant jump.
  lemma SameOp(code: bytes, c: bytes, pc: nat)
    requires Rewritten(code, c, pc) && Start(code, pc) && pc < |code|
    ensures IsPush(c[pc]) <==> IsPush(At(code, pc))
    ensures IsPush(c[pc]) ==> c[pc] == At(code, pc)
    ensures forall i :: pc < i < pc + Width(code, pc) ==> c[i] == At(code, i)
  {
    NoStartInside(code, pc);
  }

  lemma PushTurned(code: bytes, was: bytes, c: bytes, pc: nat)
    requires Rewritten(code, was, pc) && Start(code, pc) && pc < |code| && IsPush(At(code, pc)) && |c| == |was|
    requires var next := pc + Width(code, pc);
             && c[next] == ConstOp(was[next], Verified(code, PushValue(code, pc)))
             && (forall i :: 0 <= i < |c| && i != next && !(IsBig(code, pc) && pc <= i <= pc + 3) ==> c[i] == was[i])
    requires IsBig(code, pc) ==>
               && c[pc] == PUSHC && TwoBytes(c[pc + 1], c[pc + 2]) == PoolIndex(code, pc) % 0x1_0000
               && c[pc + 3] == PushBytes(At(code, pc)) - 2
    ensures Rewritten(code, c, pc + Width(code, pc))
  {
    NoStartInside(code, pc);
    AfterThis(code, pc);
    SameOp(code, was, pc);
    TurnDone(code, was, c, pc);
  }

  lemma OtherTurned(code: bytes, c: bytes, pc: nat)
    requires Rewritten(code, c, pc) && Start(code, pc) && pc < |code| && !IsPush(At(code, pc))
    ensures Rewritten(code, c, pc + 1)
  {
    NoStartInside(code, pc);
    AfterThis(code, pc);
    TurnDone(code, c, c, pc);
  }

  /// Past the code there is nothing to rewrite.
  lemma RestIsZero(code: bytes, c: bytes, pc: nat)
    requires |code| <= pc && Rewritten(code, c, pc) && Start(code, pc)
    ensures Optimized(code, c)
  {
    forall s | pc <= s < |c| && Start(code, s) ensures c[s] == NewOp(code, s) && NewData(code, c, s) {
    }
  }

  lemma {:induction false} PoolEnds(code: bytes, pc: nat)
    requires |code| < pc <= |code| + 32 && Start(code, pc)
    ensures PoolFrom(code, 0, pc) == Pool(code)
  {
    PoolEndsFrom(code, 0, pc);
  }

  lemma {:induction false} PoolEndsFrom(code: bytes, from: nat, pc: nat)
    requires |code| <= pc && from <= pc
    ensures PoolFrom(code, from, pc) == PoolFrom(code, from, |code|)
    decreases if from < pc then pc - from else 0
  {
    if from < pc {
      var next := from + Width(code, from);
      if next <= pc {
        PoolEndsFrom(code, next, pc);
      }
      if from >= |code| {
        assert Width(code, from) == 1;
      }
    }
  }
}
