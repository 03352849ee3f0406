/// The gas limit of a child block and the window a verified block must keep to
/// (libethashseal/Ethash.cpp).
module GasLimit {
  /// u256 arithmetic wraps around here.
  const U256: nat := 0x1_0000000000000000_0000000000000000_0000000000000000_0000000000000000

  /// Stands for no target given.
  const INVALID256: nat := U256 - 1

  const DEFAULT_FLOOR: nat := 3141562

  datatype Params = Params(minGasLimit: nat, maxGasLimit: nat, divisor: nat)

  function Floor(target: nat): nat {
    if target == INVALID256 then DEFAULT_FLOOR else target
  }

  function Wrap(x: int): nat {
    x % U256
  }

  /// childGasLimit. Subtracting one from a limit and its share, or a share from a limit, wraps
  /// around only where the limit is zero.
  function ChildGasLimit(p: Params, gasLimit: nat, gasUsed: nat, target: nat): nat
    requires p.divisor > 0
  {
    var floor, share := Floor(target), Share(gasLimit, p.divisor);
    if gasLimit < floor then
      var up := Wrap(gasLimit + share - 1);
      if floor < up then floor else up
    else
      var next := Wrap(gasLimit - share + 1 + Share(Wrap(gasUsed * 6) / 5, p.divisor));
      if floor > next then floor else next
  }

  /// The check of a block against its parent.
  predicate Accepts(p: Params, parentGasLimit: nat, gasLimit: nat)
    requires p.divisor > 0
  {
    var share := Share(parentGasLimit, p.divisor);
    && p.minGasLimit <= gasLimit <= p.maxGasLimit
    && gasLimit > Wrap(parentGasLimit - share)
    && gasLimit < Wrap(parentGasLimit + share)
  }

  /// No product or sum of the rule wraps around.
  predicate Small(gasLimit: nat) {
    6 * gasLimit < U256
  }

  /// A share of a limit.
  function Share(n: nat, d: nat): nat
    requires d > 0
  {
    n / d
  }

  lemma ShareIs(n: nat, d: nat)
    requires d > 0
    ensures Share(n, d) <= n && Share(n, d) * d <= n < (Share(n, d) + 1) * d
  {
    var q := n / d;
    assert n == q * d + n % d;
    Distribute(q, 1, d);
    Scale(d, 1, q);
  }

  lemma Distribute(a: nat, b: nat, d: nat)
    ensures (a + b) * d == a * d + b * d
  {
  }

  lemma Scale(a: nat, b: nat, d: nat)
    requires a >= b
    ensures a * d >= b * d
  {
  }

  /// Six fifths of what was used is less than six fifths of one share more than the limit's.
  lemma UsedShare(gasLimit: nat, gasUsed: nat, d: nat)
    requires d > 0 && gasUsed <= gasLimit
    ensures 5 * Share(gasUsed * 6 / 5, d) < 6 * (Share(gasLimit, d) + 1)
    ensures Share(gasUsed * 6 / 5, d) <= 2 * gasLimit
  {
    var y, q := Share(gasUsed * 6 / 5, d), Share(gasLimit, d);
    ShareIs(gasUsed * 6 / 5, d);
    ShareIs(gasLimit, d);
    UsedBound(gasLimit, gasUsed, y * d, (q + 1) * d);
    if 5 * y >= 6 * (q + 1) {
      Scale(5 * y, 6 * (q + 1), d);
      Times(5, y, d);
      Times(6, q + 1, d);
    }
  }

  lemma UsedBound(gasLimit: nat, gasUsed: nat, used: nat, next: nat)
    requires gasUsed <= gasLimit && used <= gasUsed * 6 / 5 && gasLimit < next
    ensures 5 * used < 6 * next
  {
  }

  lemma Times(a: nat, b: nat, d: nat)
    ensures a * b * d == a * (b * d)
  {
  }

  lemma WrapSmall(x: int)
    requires 0 <= x < U256
    ensures Wrap(x) == x
  {
  }

  /// The rule without any wrapping around.
  lemma ChildIs(p: Params, gasLimit: nat, gasUsed: nat, target: nat)
    requires p.divisor > 0 && gasUsed <= gasLimit && Small(gasLimit) && 0 < gasLimit
    ensures var floor, q, y := Floor(target), Share(gasLimit, p.divisor), Share(gasUsed * 6 / 5, p.divisor);
            ChildGasLimit(p, gasLimit, gasUsed, target) ==
              if gasLimit < floor then (if floor < gasLimit + q - 1 then floor else gasLimit + q - 1)
              else if floor > gasLimit - q + 1 + y then floor else gasLimit - q + 1 + y
  {
    hide Share, Wrap, Floor;
    ShareIs(gasLimit, p.divisor);
    UsedShare(gasLimit, gasUsed, p.divisor);
    var q, y := Share(gasLimit, p.divisor), Share(gasUsed * 6 / 5, p.divisor);
    WrapSmall(gasUsed * 6);
    WrapSmall(gasLimit + q - 1);
    WrapSmall(gasLimit - q + 1 + y);
  }

  /// The same in plain numbers.
  lemma ChildInNumbers(p: Params, gasLimit: nat, gasUsed: nat, target: nat)
    requires p.divisor > 0 && gasUsed <= gasLimit && 0 < gasLimit
    requires 6 * gasLimit < 0x1_0000000000000000_0000000000000000_0000000000000000_0000000000000000
    ensures var floor := if target == 0xffffffffffffffff_ffffffffffffffff_ffffffffffffffff_ffffffffffffffff then 3141562 else target;
            var up, down := gasLimit + gasLimit / p.divisor - 1,
                            gasLimit - gasLimit / p.divisor + 1 + gasUsed * 6 / 5 / p.divisor;
            ChildGasLimit(p, gasLimit, gasUsed, target) ==
              if gasLimit < floor then (if floor < up then floor else up) else (if floor > down then floor else down)
  {
    ChildIs(p, gasLimit, gasUsed, target);
  }

  /// A limit is accepted within the absolute bounds and strictly less than a share from the parent's.
  lemma AcceptsInNumbers(p: Params, parentGasLimit: nat, gasLimit: nat)
    requires p.divisor > 0
    requires 2 * parentGasLimit < 0x1_0000000000000000_0000000000000000_0000000000000000_0000000000000000
    ensures var share := parentGasLimit / p.divisor;
            Accepts(p, parentGasLimit, gasLimit) <==>
              p.minGasLimit <= gasLimit <= p.maxGasLimit && parentGasLimit - share < gasLimit < parentGasLimit + share
  {
    ShareIs(parentGasLimit, p.divisor);
    var share := Share(parentGasLimit, p.divisor);
    hide Share;
    WrapSmall(parentGasLimit - share);
    WrapSmall(parentGasLimit + share);
  }

  /// The child's limit lies inside its parent's window if and only if the limit is at least the
  /// divisor and, where it is at or above the target, the use does not raise it as far as the window's end.
  lemma {:induction false} InWindow(p: Params, gasLimit: nat, gasUsed: nat, target: nat)
    requires p.divisor > 0 && gasUsed <= gasLimit && Small(gasLimit) && 0 < gasLimit
    ensures var child, q := ChildGasLimit(p, gasLimit, gasUsed, target), Share(gasLimit, p.divisor);
            gasLimit - q < child < gasLimit + q <==>
              q > 0 && (gasLimit >= Floor(target) ==> 1 + Share(gasUsed * 6 / 5, p.divisor) < 2 * q)
  {
    hide *;
    ChildIs(p, gasLimit, gasUsed, target);
  }

  /// For a parent within the rules, a least limit of three divisors and a target no lower than the
  /// least limit, the child's limit is accepted, unless it is above the greatest limit.
  lemma {:induction false} ChildAccepted(p: Params, gasLimit: nat, gasUsed: nat, target: nat)
    requires p.divisor > 0 && p.minGasLimit >= 3 * p.divisor && Floor(target) >= p.minGasLimit
    requires gasUsed <= gasLimit && p.minGasLimit <= gasLimit && Small(gasLimit)
    ensures var child := ChildGasLimit(p, gasLimit, gasUsed, target);
            Accepts(p, gasLimit, child) <==> child <= p.maxGasLimit
  {
    hide Share, Wrap, ChildGasLimit, Floor;
    ThreeShares(gasLimit, p.divisor);
    UsedShare(gasLimit, gasUsed, p.divisor);
    InWindow(p, gasLimit, gasUsed, target);
    AtLeast(p, gasLimit, gasUsed, target);
    WindowIs(p, gasLimit);
  }

  /// The ends of the window do not wrap around.
  lemma WindowIs(p: Params, gasLimit: nat)
    requires p.divisor > 0 && Small(gasLimit)
    ensures var q := Share(gasLimit, p.divisor);
            Wrap(gasLimit - q) == gasLimit - q && Wrap(gasLimit + q) == gasLimit + q
  {
    ShareIs(gasLimit, p.divisor);
    hide Share;
  }

  lemma ThreeShares(gasLimit: nat, d: nat)
    requires d > 0 && gasLimit >= 3 * d
    ensures Share(gasLimit, d) >= 3
  {
    ShareIs(gasLimit, d);
    var q := Share(gasLimit, d);
    if q + 1 <= 3 {
      Scale(3, q + 1, d);
    }
  }

  lemma AtLeast(p: Params, gasLimit: nat, gasUsed: nat, target: nat)
    requires p.divisor > 0 && gasUsed <= gasLimit && Small(gasLimit) && gasLimit >= p.minGasLimit
    requires Share(gasLimit, p.divisor) > 0 && 0 < gasLimit && Floor(target) >= p.minGasLimit
    ensures ChildGasLimit(p, gasLimit, gasUsed, target) >= p.minGasLimit
  {
    hide *;
    ChildIs(p, gasLimit, gasUsed, target);
  }

  /// Two divisors are not enough: the child of a full block is rejected by the very rule.
  lemma TwoSharesRejected()
    ensures var p := Params(2048, 0x7fffffffffffffff, 1024);
            ChildGasLimit(p, 2560, 2560, 2048) == 2560 + 2560 / 1024
            && !Accepts(p, 2560, ChildGasLimit(p, 2560, 2560, 2048))
  {
    assert Share(2560, 1024) == 2 && Share(2560 * 6 / 5, 1024) == 3;
  }
}
