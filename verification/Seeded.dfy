/**
 * The seeded arithmetic of the engine: the string hash, the random generator, and the outcome simulation drawn from
 * them. Machine words are numbers below 2^32, and every product and sum wraps around.
 */
module Seeded {
  import opened Rounding

  const MODULUS: nat := 0x1_0000_0000

  type Word = x: nat | x < 0x1_0000_0000

  /** A UTF-16 code unit, as charCodeAt returns it. */
  type CodeUnit = x: nat | x < 0x1_0000

  // ---- words as bits ----

  function Pow2(n: nat): nat {
    if n == 0 then 1 else 2 * Pow2(n - 1)
  }

  lemma WordSize()
    ensures Pow2(32) == 0x1_0000_0000
  {
    assert Pow2(2) == 4 && Pow2(4) == 16 && Pow2(6) == 64 && Pow2(8) == 256;
    assert Pow2(10) == 0x400 && Pow2(12) == 0x1000 && Pow2(14) == 0x4000 && Pow2(16) == 0x1_0000;
    assert Pow2(18) == 0x4_0000 && Pow2(20) == 0x10_0000 && Pow2(22) == 0x40_0000 && Pow2(24) == 0x100_0000;
    assert Pow2(26) == 0x400_0000 && Pow2(28) == 0x1000_0000 && Pow2(30) == 0x4000_0000;
  }

  type Bit = x: nat | x < 2

  type Gate = (Bit, Bit) -> Bit

  /** Combines the lowest n bits of x and y, bit by bit. */
  function Bitwise(gate: Gate, x: nat, y: nat, n: nat): (r: nat)
    ensures r < Pow2(n)
  {
    if n == 0 then 0
    else gate(x % 2, y % 2) + 2 * Bitwise(gate, x / 2, y / 2, n - 1)
  }

  const XOR: Gate := (a, b) => if a == b then 0 else 1
  const OR: Gate := (a, b) => if a == 0 && b == 0 then 0 else 1

  function Xor(x: nat, y: nat): Word {
    WordSize();
    Bitwise(XOR, x, y, 32)
  }

  function Or(x: nat, y: nat): Word {
    WordSize();
    Bitwise(OR, x, y, 32)
  }

  function ShiftRight(x: Word, n: nat): Word {
    if n == 0 then x else ShiftRight(x / 2, n - 1)
  }

  function Times(x: Word, y: Word): Word {
    (x * y) % MODULUS
  }

  lemma {:induction false} XorUndoesItself(x: nat, y: nat, n: nat)
    requires x < Pow2(n)
    ensures Bitwise(XOR, Bitwise(XOR, x, y, n), y, n) == x
  {
    if n > 0 {
      var z, low, high := Bitwise(XOR, x, y, n), XOR(x % 2, y % 2), Bitwise(XOR, x / 2, y / 2, n - 1);
      HalvesOf(low, high);
      assert z % 2 == low && z / 2 == high;
      XorUndoesItself(x / 2, y / 2, n - 1);
      assert Bitwise(XOR, z, y, n) == XOR(low, y % 2) + 2 * (x / 2);
    }
  }

  lemma HalvesOf(low: nat, high: nat)
    requires low < 2
    ensures (low + 2 * high) % 2 == low && (low + 2 * high) / 2 == high
  {
  }

  lemma {:induction false} XorCommutes(x: nat, y: nat, n: nat)
    ensures Bitwise(XOR, x, y, n) == Bitwise(XOR, y, x, n)
  {
    if n > 0 {
      XorCommutes(x / 2, y / 2, n - 1);
    }
  }

  lemma {:induction false} OrWithNothing(y: nat, n: nat)
    requires y < Pow2(n)
    ensures Bitwise(OR, 0, y, n) == y
  {
    if n > 0 {
      OrWithNothing(y / 2, n - 1);
    }
  }

  /** `1 | a` is the odd one of a and its successor. */
  lemma OrWithOne(a: Word)
    ensures Or(1, a) == if a % 2 == 1 then a else a + 1
  {
    WordSize();
    OrWithNothing(a / 2, 31);
    assert Bitwise(OR, 1, a, 32) == OR(1, a % 2) + 2 * Bitwise(OR, 0, a / 2, 31);
  }

  lemma {:induction false} ShiftIsDivision(x: Word, n: nat)
    ensures ShiftRight(x, n) * Pow2(n) <= x < (ShiftRight(x, n) + 1) * Pow2(n)
  {
    if n > 0 {
      ShiftIsDivision(x / 2, n - 1);
      TwiceAsMuch(x, ShiftRight(x / 2, n - 1), Pow2(n - 1));
    }
  }

  lemma TwiceAsMuch(x: nat, q: nat, p: nat)
    requires q * p <= x / 2 < (q + 1) * p
    ensures q * (2 * p) <= x < (q + 1) * (2 * p)
  {
    assert q * (2 * p) == 2 * (q * p) && (q + 1) * (2 * p) == 2 * ((q + 1) * p);
  }

  // ---- hashStr ----

  const HASH_START: Word := 2166136261
  const HASH_PRIME: Word := 16777619

  function HashStep(h: Word, c: CodeUnit): Word {
    Times(Xor(h, c), HASH_PRIME)
  }

  function HashFrom(h: Word, s: seq<CodeUnit>): Word
    decreases |s|
  {
    if s == [] then h else HashFrom(HashStep(h, s[0]), s[1..])
  }

  method HashStr(s: seq<CodeUnit>) returns (h: Word)
    ensures h == HashFrom(HASH_START, s)
  {
    h := HASH_START;
    for i := 0 to |s|
      invariant HashFrom(h, s[i..]) == HashFrom(HASH_START, s)
    {
      assert s[i..][1..] == s[i + 1..];
      h := Xor(h, s[i]);
      h := Times(h, HASH_PRIME);
    }
  }

  /** The hash prime is odd: it has an inverse modulo 2^32, so its products tell any two words apart. */
  lemma ProductTellsApart(a: Word, b: Word)
    requires Times(a, HASH_PRIME) == Times(b, HASH_PRIME)
    ensures a == b
  {
    var m := a * 16777619 / MODULUS - b * 16777619 / MODULUS;
    var q := (16777619 * 899433627 - 1) / MODULUS;
    assert (a - b) * 16777619 == m * MODULUS;
    assert 16777619 * 899433627 == q * MODULUS + 1;
    assert a - b == MODULUS * (m * 899433627 - (a - b) * q);
  }

  /** One step is a bijection of the state for each code unit, and tells any two code units apart. */
  lemma HashStepIsInjective(h: Word, k: Word, c: CodeUnit, d: CodeUnit)
    ensures HashStep(h, c) == HashStep(k, c) ==> h == k
    ensures HashStep(h, c) == HashStep(h, d) ==> c == d
  {
    WordSize();
    if HashStep(h, c) == HashStep(k, c) {
      ProductTellsApart(Xor(h, c), Xor(k, c));
      XorUndoesItself(h, c, 32);
      XorUndoesItself(k, c, 32);
    }
    if HashStep(h, c) == HashStep(h, d) {
      ProductTellsApart(Xor(h, c), Xor(h, d));
      XorCommutes(h, c, 32);
      XorCommutes(h, d, 32);
      XorUndoesItself(c, h, 32);
      XorUndoesItself(d, h, 32);
    }
  }

  /** Hashing the same text from two different states never brings them together. */
  lemma {:induction false} SameTextKeepsStatesApart(h: Word, k: Word, s: seq<CodeUnit>)
    requires h != k
    ensures HashFrom(h, s) != HashFrom(k, s)
    decreases |s|
  {
    if s != [] {
      HashStepIsInjective(h, k, s[0], s[0]);
      SameTextKeepsStatesApart(HashStep(h, s[0]), HashStep(k, s[0]), s[1..]);
    }
  }

  /** Two texts of equal length that differ in exactly one character never collide, from any common state. */
  lemma {:induction false} OneCharacterNeverCollides(h: Word, s: seq<CodeUnit>, t: seq<CodeUnit>, i: nat)
    requires |s| == |t| && i < |s| && s[i] != t[i]
    requires forall j :: 0 <= j < |s| && j != i ==> s[j] == t[j]
    ensures HashFrom(h, s) != HashFrom(h, t)
    decreases |s|
  {
    if i == 0 {
      HashStepIsInjective(h, h, s[0], t[0]);
      assert s[1..] == t[1..];
      SameTextKeepsStatesApart(HashStep(h, s[0]), HashStep(h, t[0]), s[1..]);
    } else {
      OneCharacterNeverCollides(HashStep(h, s[0]), s[1..], t[1..], i - 1);
    }
  }

  // ---- rng: the state walks through all 2^32 words ----

  /** The output mix of one draw. */
  function Scramble(a: Word): Word {
    var t := Times(Xor(a, ShiftRight(a, 15)), Or(1, a));
    var u := Xor((t + Times(Xor(t, ShiftRight(t, 7)), Or(61, t))) % 0x1_0000_0000, t);
    Xor(u, ShiftRight(u, 14))
  }

  /** The generator's state after n draws. */
  function StateAfter(seed: Word, n: nat): Word {
    (seed + n * 0x6D2B79F5) % 0x1_0000_0000
  }

  /** The value drawn in a state: the scrambled word as a fraction of 2^32. */
  function Value(a: Word): (r: real)
    ensures 0.0 <= r < 1.0
  {
    Scramble(a) as real / 0x1_0000_0000 as real
  }

  class Rng {
    var a: Word

    constructor (seed: Word)
      ensures a == StateAfter(seed, 0)
    {
      a := seed;
    }

    method Draw(ghost seed: Word, ghost n: nat) returns (r: real)
      requires a == StateAfter(seed, n)
      modifies this
      ensures a == StateAfter(seed, n + 1) && r == Value(a)
    {
      NextState(seed, n);
      a := (a + 0x6D2B79F5) % 0x1_0000_0000;
      r := Value(a);
    }
  }

  lemma RemainderIs(x: int, q: int, r: int)
    requires x == q * 0x1_0000_0000 + r && 0 <= r < 0x1_0000_0000
    ensures x % 0x1_0000_0000 == r
  {
  }

  lemma NextState(seed: Word, n: nat)
    ensures (StateAfter(seed, n) + 0x6D2B79F5) % 0x1_0000_0000 == StateAfter(seed, n + 1)
  {
    var x, y := seed + n * 0x6D2B79F5, StateAfter(seed, n) + 0x6D2B79F5;
    var q, p := x / 0x1_0000_0000, y / 0x1_0000_0000;
    RemainderIs(seed + (n + 1) * 0x6D2B79F5, q + p, y % 0x1_0000_0000);
  }

  /** Within 2^32 draws no state repeats, and after 2^32 draws the generator is back where it started. */
  lemma StatesAreDistinct(seed: Word, i: nat, j: nat)
    requires i < j
    ensures j - i < 0x1_0000_0000 ==> StateAfter(seed, i) != StateAfter(seed, j)
    ensures j - i == 0x1_0000_0000 ==> StateAfter(seed, i) == StateAfter(seed, j)
  {
    var k, x, y := j - i, seed + i * 0x6D2B79F5, seed + j * 0x6D2B79F5;
    var p, q := x / 0x1_0000_0000, y / 0x1_0000_0000;
    if k < 0x1_0000_0000 && StateAfter(seed, i) == StateAfter(seed, j) {
      assert k * 0x6D2B79F5 == (q - p) * 0x1_0000_0000;
      OnlyMultiplesVanish(k, q - p);
    }
    if k == 0x1_0000_0000 {
      RemainderIs(y, p + 0x6D2B79F5, StateAfter(seed, i));
    }
  }

  /** The increment is odd: it has an inverse modulo 2^32, so only multiples of 2^32 are sent to 0. */
  lemma OnlyMultiplesVanish(k: int, m: int)
    requires k * 0x6D2B79F5 == m * 0x1_0000_0000
    ensures k % 0x1_0000_0000 == 0
  {
    assert 3696798301 * 0x6D2B79F5 == 1576479847 * 0x1_0000_0000 + 1;
    assert k == 0x1_0000_0000 * (m * 3696798301 - k * 1576479847);
  }

  /** pick: a draw scaled to a nonempty list is an index into it. */
  lemma PickIsInRange(r: real, n: nat)
    requires 0.0 <= r < 1.0 && n > 0
    ensures 0 <= (r * n as real).Floor < n
  {
    assert 0.0 <= r * n as real < n as real;
  }

  // ---- the simulated outcome of a rated task ----

  datatype Role = Role(earnFactor: real, leadFactor: real)

  /** The shipped roles, and the default for a role that is not in the table. */
  const ROLES: seq<Role> := [
    Role(1.0, 0.8), Role(0.4, 1.4), Role(0.9, 1.1), Role(1.2, 0.6), Role(1.1, 0.5), Role(0.5, 1.2), Role(0.7, 0.8)]

  function Leads(rating: int, r: real, role: Role): int {
    var n := Round((1.0 + r * 3.0 + rating as real) * role.leadFactor);
    if n < 0 then 0 else n
  }

  function Earnings(rating: int, r: real, role: Role): int {
    if rating >= 3 then Round((rating - 2) as real * (35.0 + r * 70.0) * role.earnFactor) else 0
  }

  /** One rated task: the generator seeded with its text is drawn from once for leads, and again for earnings. */
  method Simulate(text: seq<CodeUnit>, rating: int, role: Role) returns (leads: int, earnings: int)
    ensures var seed := HashFrom(HASH_START, text);
      && leads == Leads(rating, Value(StateAfter(seed, 1)), role)
      && earnings == if rating >= 3 then Earnings(rating, Value(StateAfter(seed, 2)), role) else 0
  {
    var seed := HashStr(text);
    var r := new Rng(seed);
    var first := r.Draw(seed, 0);
    leads := Leads(rating, first, role);
    earnings := 0;
    if rating >= 3 {
      var second := r.Draw(seed, 1);
      earnings := Earnings(rating, second, role);
    }
  }

  lemma FactorKeepsOrder(x: real, y: real, f: real)
    requires x <= y && f >= 0.0
    ensures x * f <= y * f
  {
  }

  lemma RoundKeepsOrder(x: real, y: real)
    requires x <= y
    ensures Round(x) <= Round(y)
  {
  }

  /** The leads before rounding, and the earnings. */
  function RawLeads(rating: int, r: real): real {
    rating as real + (1.0 + 3.0 * r)
  }

  function RawEarnings(rating: int, r: real): real {
    (rating as real - 2.0) * (35.0 * (1.0 + 2.0 * r))
  }

  lemma LeadsAre(rating: int, r: real, role: Role)
    requires rating >= 1 && r >= 0.0 && role in ROLES
    ensures Leads(rating, r, role) == Round(RawLeads(rating, r) * role.leadFactor)
    ensures RawLeads(rating, r) * role.leadFactor >= 0.0
  {
    FactorKeepsOrder(0.0, RawLeads(rating, r), role.leadFactor);
    assert 1.0 + r * 3.0 + rating as real == RawLeads(rating, r);
  }

  lemma EarningsAre(rating: int, r: real, role: Role)
    ensures Earnings(rating, r, role) == if rating >= 3 then Round(RawEarnings(rating, r) * role.earnFactor) else 0
  {
    assert (rating - 2) as real * (35.0 + r * 70.0) == RawEarnings(rating, r);
  }

  /**
   * A draw of 0 gives 1 + rating leads and 35 for each rating point above 2, scaled by the role; half of the range adds
   * 1.5 leads, and 35 for each of these points again.
   */
  lemma OutcomeAtDraws(rating: int, role: Role)
    requires 1 <= rating <= 5 && role in ROLES
    ensures Leads(rating, 0.0, role) == Round((rating + 1) as real * role.leadFactor)
    ensures Leads(rating, 0.5, role) == Round((rating as real + 2.5) * role.leadFactor)
    ensures rating >= 3 ==> Earnings(rating, 0.0, role) == Round((35 * (rating - 2)) as real * role.earnFactor)
    ensures rating >= 3 ==> Earnings(rating, 0.5, role) == Round((70 * (rating - 2)) as real * role.earnFactor)
  {
    LeadsAre(rating, 0.0, role);
    LeadsAre(rating, 0.5, role);
    EarningsAre(rating, 0.0, role);
    EarningsAre(rating, 0.5, role);
    assert RawEarnings(rating, 0.0) == (35 * (rating - 2)) as real;
    assert RawEarnings(rating, 0.5) == (70 * (rating - 2)) as real;
  }

  lemma RawEarningsGrow(rating: int, r: real, more: int, higher: real)
    requires 2 <= rating <= more && 0.0 <= r <= higher
    ensures 0.0 <= RawEarnings(rating, r) <= RawEarnings(more, higher)
  {
    ProductGrows(rating as real - 2.0, more as real - 2.0, 35.0 * (1.0 + 2.0 * r), 35.0 * (1.0 + 2.0 * higher));
  }

  lemma ProductGrows(a: real, b: real, x: real, y: real)
    requires 0.0 <= a <= b && 0.0 <= x <= y
    ensures 0.0 <= a * x <= b * y
  {
    assert 0.0 <= a * x <= a * y <= b * y;
  }

  /** A better rating, or a higher draw, never gives less. */
  lemma OutcomeGrows(rating: int, r: real, more: int, higher: real, role: Role)
    requires 1 <= rating <= more && 0.0 <= r <= higher < 1.0 && role in ROLES
    ensures Leads(rating, r, role) <= Leads(more, higher, role)
    ensures Earnings(rating, r, role) <= Earnings(more, higher, role)
  {
    LeadsAre(rating, r, role);
    LeadsAre(more, higher, role);
    FactorKeepsOrder(RawLeads(rating, r), RawLeads(more, higher), role.leadFactor);
    RoundKeepsOrder(RawLeads(rating, r) * role.leadFactor, RawLeads(more, higher) * role.leadFactor);
    EarningsGrow(rating, r, more, higher, role);
  }

  lemma EarningsGrow(rating: int, r: real, more: int, higher: real, role: Role)
    requires 1 <= rating <= more && 0.0 <= r <= higher < 1.0 && role in ROLES
    ensures Earnings(rating, r, role) <= Earnings(more, higher, role)
  {
    var low := if rating >= 3 then rating else 2;
    EarningsAre(rating, r, role);
    EarningsAre(more, higher, role);
    if more >= 3 {
      RawEarningsGrow(low, r, more, higher);
      FactorKeepsOrder(0.0, RawEarnings(low, r), role.earnFactor);
      FactorKeepsOrder(RawEarnings(low, r), RawEarnings(more, higher), role.earnFactor);
      RoundKeepsOrder(RawEarnings(low, r) * role.earnFactor, RawEarnings(more, higher) * role.earnFactor);
    }
  }

  lemma ProductBounds(x: real, lo: real, hi: real, f: real, flo: real, fhi: real)
    requires 0.0 <= lo <= x <= hi && 0.0 <= flo <= f <= fhi
    ensures lo * flo <= x * f <= hi * fhi
  {
    assert lo * flo <= x * flo <= x * f <= hi * f <= hi * fhi;
  }

  /**
   * For ratings 1 to 5 and every shipped role, leads lie in 1..13 and earnings in 0..378, with no earnings exactly
   * below rating 3.
   */
  lemma OutcomeBounds(rating: int, r: real, role: Role)
    requires 1 <= rating <= 5 && 0.0 <= r < 1.0 && role in ROLES
    ensures 1 <= Leads(rating, r, role) <= 13
    ensures 0 <= Earnings(rating, r, role) <= 378
    ensures Earnings(rating, r, role) == 0 <==> rating < 3
  {
    assert 0.4 <= role.earnFactor <= 1.2 && 0.5 <= role.leadFactor <= 1.4;
    ProductBounds(1.0 + r * 3.0 + rating as real, 2.0, 9.0, role.leadFactor, 0.5, 1.4);
    if rating >= 3 {
      ProductBounds((rating - 2) as real, 1.0, 3.0, 35.0 + r * 70.0, 35.0, 105.0);
      ProductBounds((rating - 2) as real * (35.0 + r * 70.0), 35.0, 315.0, role.earnFactor, 0.4, 1.2);
    }
  }
}
