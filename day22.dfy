/**
 * Day 22: monkey market. Each buyer's secret number evolves by a fixed
 * mix-and-prune step. Part 1 adds up every buyer's 2000th secret; part 2
 * finds the run of four price changes that earns the most bananas when
 * every buyer sells at its first occurrence.
 *
 * Secrets are `i64` values in the source; they are modelled by their 64 bits
 * (`bv64`, two's complement). A seed lies in -2^57 .. 2^57 - 1, where the
 * first product does not overflow; every secret after the first step is
 * non-negative and below 2^24, where the bit operations are the `i64` ones.
 */
module Day22 {
  import opened Wrappers
  import opened Text

  const MODULUS: bv64 := 16777216
  const STEPS: nat := 2000

  /** Below this bound no product in a step leaves the range of `i64`. */
  const SEED_LIMIT: bv64 := 0x200_0000_0000_0000
  const SIGN_BIT: bv64 := 0x8000_0000_0000_0000

  /** The bits of an `i64` in -2^57 .. 2^57 - 1. */
  predicate InSeedRange(secret: bv64)
  {
    secret < SEED_LIMIT || secret >= 0 - SEED_LIMIT
  }

  // ----- Secrets -----

  function Mix(secret: bv64, salt: bv64): bv64
  {
    secret ^ salt
  }

  /** Mixing the same salt in twice gives the secret back. */
  lemma MixInvolution(secret: bv64, salt: bv64)
    ensures Mix(Mix(secret, salt), salt) == secret
  {
  }

  lemma MixExample()
    ensures Mix(42, 15) == 37
  {
  }

  /**
   * The remainder by 2^24. For the non-negative secrets that occur it is
   * the low 24 bits, which is how it is written here.
   */
  function Prune(secret: bv64): (r: bv64)
    ensures r < MODULUS
    ensures secret < MODULUS ==> r == secret
  {
    secret & (MODULUS - 1)
  }

  lemma PruneExample()
    ensures Prune(100000000) == 16113920
  {
  }

  /** Multiply by 64, divide by 32, multiply by 2048, mixing in and pruning after each. */
  function NextSecret(secret: bv64): (r: bv64)
    requires InSeedRange(secret)
    ensures r < MODULUS
  {
    var s1 := Prune(Mix(secret, secret * 64));
    var s2 := Prune(Mix(s1, s1 / 32));
    Prune(Mix(s2, s2 * 2048))
  }

  /** No product of a step leaves the range of `i64`: a non-negative seed
    * times 64 stays below 2^63; a negative one stays negative and keeps its
    * low bits, shifting back. Mixing makes the secret non-negative, so the
    * source's remainder by 2^24 is taking its low 24 bits, as `Prune` does. */
  lemma NoOverflow(secret: bv64)
    requires InSeedRange(secret)
    ensures secret < SEED_LIMIT ==> secret * 64 < SIGN_BIT
    ensures secret >= SIGN_BIT ==> secret * 64 >= SIGN_BIT && (secret * 64) / 64 == secret & 0x03FF_FFFF_FFFF_FFFF
    ensures Mix(secret, secret * 64) < SIGN_BIT
    ensures var s1 := Prune(Mix(secret, secret * 64));
            s1 / 32 < MODULUS && s1 * 2048 < SIGN_BIT
  {
  }

  /** The secret after `n` steps. */
  function Iterate(secret: bv64, n: nat): (r: bv64)
    requires InSeedRange(secret)
    ensures InSeedRange(r)
    ensures n > 0 ==> r < MODULUS
    decreases n
  {
    if n == 0 then secret
    else Iterate(NextSecret(secret), n - 1)
  }

  lemma {:induction false} IterateLast(secret: bv64, n: nat)
    requires InSeedRange(secret)
    ensures Iterate(secret, n + 1) == NextSecret(Iterate(secret, n))
    decreases n
  {
    if n > 0 {
      IterateLast(NextSecret(secret), n - 1);
    }
  }

  /** The first ten secrets after 123. */
  lemma Example123()
    ensures NextSecret(123) == 15887950
    ensures NextSecret(15887950) == 16495136
    ensures NextSecret(16495136) == 527345
    ensures NextSecret(527345) == 704524
    ensures NextSecret(704524) == 1553684
    ensures NextSecret(1553684) == 12683156
    ensures NextSecret(12683156) == 11100544
    ensures NextSecret(11100544) == 12249484
    ensures NextSecret(12249484) == 7753432
    ensures NextSecret(7753432) == 5908254
  {
  }

  // ----- Parsing and part 1 -----

  /**
   * A seed: `i64::from_str`, an optional sign and decimal digits, for a
   * value in -2^57 .. 2^57 - 1. A larger `i64` makes the first product
   * overflow, a panic in a debug build; a value outside `i64` fails to
   * parse. A negative seed is kept as its two's complement bits.
   */
  function ParseSeed(line: string): (r: Option<bv64>)
    ensures r.Some? ==> InSeedRange(r.value)
    ensures r.Some? <==> ParseSigned(line).Some? && -(SEED_LIMIT as int) <= ParseSigned(line).value < SEED_LIMIT as int
  {
    var negative := |line| > 0 && line[0] == '-';
    var digits := if |line| > 0 && (line[0] == '-' || line[0] == '+') then line[1..] else line;
    match ParseNat(digits)
    case None => None
    case Some(n) =>
      if negative && n <= SEED_LIMIT as nat then Some(Negated(n))
      else if !negative && n < SEED_LIMIT as nat then Some(Below(n))
      else None
  }

  /** The value an optional sign and decimal digits stand for. */
  function ParseSigned(line: string): Option<int>
  {
    var digits := if |line| > 0 && (line[0] == '-' || line[0] == '+') then line[1..] else line;
    match ParseNat(digits)
    case None => None
    case Some(n) => if |line| > 0 && line[0] == '-' then Some(-(n as int)) else Some(n as int)
  }

  /** Signs are read as `i64::from_str` reads them. */
  lemma SignedSeeds()
    ensures ParseSeed("+5") == Some(5)
    ensures ParseSeed("-5") == Some(0 - 5)
    ensures ParseSeed("-") == None
  {
    assert ParseNat("5") == Some(5) by {
      assert DigitsValue("5") == 5 by {
        assert "5"[..0] == "";
      }
    }
    assert "+5"[1..] == "5" && "-5"[1..] == "5";
  }

  function Below(n: nat): (r: bv64)
    requires n < SEED_LIMIT as nat
    ensures r < SEED_LIMIT
  {
    n as bv64
  }

  /** The two's complement bits of `-n`. */
  function Negated(n: nat): (r: bv64)
    requires n <= SEED_LIMIT as nat
    ensures InSeedRange(r)
    ensures n > 0 ==> r >= SIGN_BIT && 0 - r == Magnitude(n)
  {
    var m := Magnitude(n);
    NegatedRange(m);
    0 - m
  }

  function Magnitude(n: nat): (r: bv64)
    requires n <= SEED_LIMIT as nat
    ensures r <= SEED_LIMIT && (n > 0 ==> r > 0)
  {
    if n == SEED_LIMIT as nat then SEED_LIMIT else Below(n)
  }

  lemma NegatedRange(m: bv64)
    requires m <= SEED_LIMIT
    ensures InSeedRange(0 - m)
    ensures m > 0 ==> 0 - m >= SIGN_BIT && 0 - (0 - m) == m
  {
  }

  function ParseSeeds(lines: seq<string>): (r: Option<seq<bv64>>)
    ensures r.Some? ==> |r.value| == |lines| && forall i :: 0 <= i < |lines| ==> InSeedRange(r.value[i])
  {
    if forall i :: 0 <= i < |lines| ==> ParseSeed(lines[i]).Some? then
      Some(seq(|lines|, i requires 0 <= i < |lines| => ParseSeed(lines[i]).value))
    else None
  }

  /** Each buyer's secret after `steps` steps, added up. */
  function SumOfSecrets(seeds: seq<bv64>, steps: nat): (r: int)
    requires forall i :: 0 <= i < |seeds| ==> InSeedRange(seeds[i])
    ensures 0 <= r && (steps > 0 ==> r <= |seeds| * (MODULUS as int - 1))
  {
    if seeds == [] then 0
    else
      var k := |seeds| - 1;
      var last := Iterate(seeds[k], steps) as int;
      assert steps > 0 ==> last <= MODULUS as int - 1;
      assert k * (MODULUS as int - 1) + (MODULUS as int - 1) == |seeds| * (MODULUS as int - 1);
      SumOfSecrets(seeds[..k], steps) + last
  }

  /** Part 1: the sum of every buyer's 2000th secret. Each is below 2^24,
    * so the `i64` sum cannot overflow. */
  function Part1(lines: seq<string>): (r: Option<int>)
    ensures r.Some? <==> ParseSeeds(lines).Some?
    ensures r.Some? ==> 0 <= r.value <= |lines| * (MODULUS as int - 1)
  {
    match ParseSeeds(lines)
    case None => None
    case Some(seeds) => Some(SumOfSecrets(seeds, STEPS))
  }

  // ----- Part 2 -----

  /** The price: `secret % 10` on the `i64`, the last digit of a
    * non-negative secret and, since Rust's remainder takes the sign of the
    * dividend, minus the last digit of a negative seed's magnitude. */
  function Price(secret: bv64): (r: int)
    ensures -9 <= r <= 9
    ensures secret < SIGN_BIT ==> 0 <= r
  {
    if secret < SIGN_BIT then (secret as int) % 10 else -(((0 - secret) as int) % 10)
  }

  /** The prices of the `steps` secrets after the seed. */
  function Prices(seed: bv64, steps: nat): (nums: seq<int>)
    requires InSeedRange(seed)
    ensures |nums| == steps
    ensures forall i :: 0 <= i < steps ==> nums[i] == Price(Iterate(seed, i + 1))
  {
    if steps == 0 then [] else Prices(seed, steps - 1) + [Price(Iterate(seed, steps))]
  }

  /** Each price minus the one before it, the seed's price coming first. */
  function Changes(seed: bv64, nums: seq<int>): (diffs: seq<int>)
    ensures |diffs| == |nums|
    ensures forall i :: 0 <= i < |nums| ==> diffs[i] == nums[i] - (if i == 0 then Price(seed) else nums[i - 1])
  {
    seq(|nums|, i requires 0 <= i < |nums| => nums[i] - (if i == 0 then Price(seed) else nums[i - 1]))
  }

  /** Prices after the seed stay between 0 and 9, so every change after the
    * first lies between -9 and 9, and so does the first for a non-negative
    * seed; a negative seed's first change can reach 18. */
  lemma ChangesBound(seed: bv64, nums: seq<int>)
    requires forall i :: 0 <= i < |nums| ==> 0 <= nums[i] <= 9
    ensures forall i :: 1 <= i < |nums| ==> -9 <= Changes(seed, nums)[i] <= 9
    ensures |nums| > 0 ==> -9 <= Changes(seed, nums)[0] <= 18
    ensures |nums| > 0 && seed < SIGN_BIT ==> Changes(seed, nums)[0] <= 9
  {
  }

  /** A buyer: the prices and the changes that lead to them. */
  datatype Buyer = Buyer(nums: seq<int>, diffs: seq<int>)

  predicate WellFormed(b: Buyer)
  {
    |b.nums| == |b.diffs|
  }

  function MakeBuyer(seed: bv64, steps: nat): (b: Buyer)
    requires InSeedRange(seed)
    ensures WellFormed(b)
  {
    var nums := Prices(seed, steps);
    Buyer(nums, Changes(seed, nums))
  }

  /** The number of runs of four consecutive changes. */
  function WindowCount(diffs: seq<int>): nat
  {
    if |diffs| >= 4 then |diffs| - 3 else 0
  }

  function Window(diffs: seq<int>, i: nat): seq<int>
    requires i < WindowCount(diffs)
  {
    diffs[i..i + 4]
  }

  /** The runs starting before `k`. */
  function WindowSet(diffs: seq<int>, k: nat): set<seq<int>>
    requires k <= WindowCount(diffs)
  {
    set j | 0 <= j < k :: Window(diffs, j)
  }

  /** Where the run `w` first starts among the first `k` positions. */
  function FirstWindow(diffs: seq<int>, w: seq<int>, k: nat): (r: Option<nat>)
    requires k <= WindowCount(diffs)
    ensures r.Some? ==> r.value < k && Window(diffs, r.value) == w
    ensures r.Some? <==> w in WindowSet(diffs, k)
  {
    if k == 0 then None
    else if FirstWindow(diffs, w, k - 1).Some? then FirstWindow(diffs, w, k - 1)
    else if Window(diffs, k - 1) == w then Some(k - 1)
    else None
  }

  /** What the buyer pays for run `w` among its first `k` runs: the price where the run first ends, or nothing. */
  function Gain(b: Buyer, w: seq<int>, k: nat): int
    requires WellFormed(b) && k <= WindowCount(b.diffs)
  {
    match FirstWindow(b.diffs, w, k)
    case Some(j) => b.nums[j + 3]
    case None => 0
  }

  /** The buyer sells at the first occurrence only: later occurrences of a run add nothing. */
  lemma GainFirst(b: Buyer, w: seq<int>, j: nat)
    requires WellFormed(b) && j < WindowCount(b.diffs) && Window(b.diffs, j) == w
    requires forall i :: 0 <= i < j ==> Window(b.diffs, i) != w
    ensures Gain(b, w, WindowCount(b.diffs)) == b.nums[j + 3]
  {
    var r := FirstWindow(b.diffs, w, WindowCount(b.diffs));
    assert r.Some? by {
      assert w in WindowSet(b.diffs, WindowCount(b.diffs));
    }
    FirstWindowAt(b.diffs, w, WindowCount(b.diffs), j);
  }

  lemma {:induction false} FirstWindowAt(diffs: seq<int>, w: seq<int>, k: nat, j: nat)
    requires j < k <= WindowCount(diffs) && Window(diffs, j) == w
    requires forall i :: 0 <= i < j ==> Window(diffs, i) != w
    ensures FirstWindow(diffs, w, k) == Some(j)
  {
    if k - 1 > j {
      FirstWindowAt(diffs, w, k - 1, j);
    } else {
      assert w !in WindowSet(diffs, k - 1);
    }
  }

  function Lookup(m: map<seq<int>, int>, w: seq<int>): int
  {
    if w in m then m[w] else 0
  }

  /** Adds what the buyer pays for each run to the totals, once per run, as the source's loop does. */
  method AddBuyer(b: Buyer, totals: map<seq<int>, int>) returns (totals': map<seq<int>, int>)
    requires WellFormed(b)
    ensures totals'.Keys == totals.Keys + WindowSet(b.diffs, WindowCount(b.diffs))
    ensures forall w :: w in totals' ==> totals'[w] == Lookup(totals, w) + Gain(b, w, WindowCount(b.diffs))
  {
    var visited: set<seq<int>> := {};
    totals' := totals;
    for i := 0 to WindowCount(b.diffs)
      invariant visited == WindowSet(b.diffs, i)
      invariant totals'.Keys == totals.Keys + visited
      invariant forall w :: w in totals' ==> totals'[w] == Lookup(totals, w) + Gain(b, w, i)
    {
      visited, totals' := VisitRun(b, i, totals, visited, totals');
    }
  }

  /** The body of the loop in `AddBuyer`: run `i` is counted once, the first time it is seen. */
  method VisitRun(b: Buyer, i: nat, base: map<seq<int>, int>, visited: set<seq<int>>, totals: map<seq<int>, int>)
    returns (visited': set<seq<int>>, totals': map<seq<int>, int>)
    requires WellFormed(b) && i < WindowCount(b.diffs)
    requires visited == WindowSet(b.diffs, i)
    requires totals.Keys == base.Keys + visited
    requires forall w :: w in totals ==> totals[w] == Lookup(base, w) + Gain(b, w, i)
    ensures visited' == WindowSet(b.diffs, i + 1)
    ensures totals'.Keys == base.Keys + visited'
    ensures forall w :: w in totals' ==> totals'[w] == Lookup(base, w) + Gain(b, w, i + 1)
  {
    var window := b.diffs[i..i + 4];
    assert window == Window(b.diffs, i);
    assert WindowSet(b.diffs, i + 1) == WindowSet(b.diffs, i) + {window};
    visited', totals' := visited, totals;
    if window !in visited {
      visited' := visited + {window};
      totals' := totals[window := Lookup(totals, window) + b.nums[i + 3]];
    }
    forall w | w in totals'
      ensures totals'[w] == Lookup(base, w) + Gain(b, w, i + 1)
    {
      GainStep(b, w, i);
      if w != window {
        assert totals'[w] == totals[w];
      }
    }
  }

  /** One more run adds its final price exactly when it is the first occurrence of `w`. */
  lemma GainStep(b: Buyer, w: seq<int>, i: nat)
    requires WellFormed(b) && i < WindowCount(b.diffs)
    ensures Gain(b, w, i + 1) ==
            Gain(b, w, i) + (if Window(b.diffs, i) == w && w !in WindowSet(b.diffs, i) then b.nums[i + 3] else 0)
  {
  }

  /** Every run of four changes any buyer sees. */
  function AllWindows(buyers: seq<Buyer>): set<seq<int>>
    requires forall i :: 0 <= i < |buyers| ==> WellFormed(buyers[i])
  {
    if buyers == [] then {}
    else
      var b := buyers[|buyers| - 1];
      AllWindows(buyers[..|buyers| - 1]) + WindowSet(b.diffs, WindowCount(b.diffs))
  }

  /** The bananas the run `w` earns over all buyers. */
  function Bananas(buyers: seq<Buyer>, w: seq<int>): int
    requires forall i :: 0 <= i < |buyers| ==> WellFormed(buyers[i])
  {
    if buyers == [] then 0
    else
      var b := buyers[|buyers| - 1];
      Bananas(buyers[..|buyers| - 1], w) + Gain(b, w, WindowCount(b.diffs))
  }

  /** The totals of every run seen, buyer by buyer. */
  method BananaTotals(buyers: seq<Buyer>) returns (totals: map<seq<int>, int>)
    requires forall i :: 0 <= i < |buyers| ==> WellFormed(buyers[i])
    ensures totals.Keys == AllWindows(buyers)
    ensures forall w :: w in totals ==> totals[w] == Bananas(buyers, w)
  {
    totals := map[];
    for i := 0 to |buyers|
      invariant totals.Keys == AllWindows(buyers[..i])
      invariant forall w :: w in totals ==> totals[w] == Bananas(buyers[..i], w)
    {
      assert buyers[..i + 1][..i] == buyers[..i];
      var before := totals;
      totals := AddBuyer(buyers[i], totals);
      forall w | w in totals
        ensures totals[w] == Bananas(buyers[..i + 1], w)
      {
        if w !in before {
          assert w !in AllWindows(buyers[..i]);
          BananasUnseen(buyers[..i], w);
        }
      }
    }
    assert buyers[..|buyers|] == buyers;
  }

  /** A run no buyer sees earns nothing. */
  lemma {:induction false} BananasUnseen(buyers: seq<Buyer>, w: seq<int>)
    requires forall i :: 0 <= i < |buyers| ==> WellFormed(buyers[i])
    requires w !in AllWindows(buyers)
    ensures Bananas(buyers, w) == 0
  {
    if buyers != [] {
      BananasUnseen(buyers[..|buyers| - 1], w);
    }
  }

  /** The largest value of the map, or `None` for an empty map. */
  method MaxValue(m: map<seq<int>, int>) returns (r: Option<int>)
    ensures r.None? <==> m == map[]
    ensures r.Some? ==> (exists w :: w in m && m[w] == r.value) && forall w :: w in m ==> m[w] <= r.value
  {
    var keys := m.Keys;
    r := None;
    while keys != {}
      invariant keys <= m.Keys
      invariant r.None? <==> keys == m.Keys
      invariant r.Some? ==> (exists w :: w in m && m[w] == r.value) &&
                            forall w :: w in m && w !in keys ==> m[w] <= r.value
      decreases keys
    {
      var w :| w in keys;
      if r.None? || m[w] > r.value {
        r := Some(m[w]);
      }
      keys := keys - {w};
    }
    if r.None? {
      assert m.Keys == {};
    }
  }

  /**
   * Part 2: the most bananas one run of four changes earns, or `None` where
   * the source panics: a line that does not parse, or no run at all.
   */
  method Part2(lines: seq<string>) returns (r: Option<int>)
    ensures ParseSeeds(lines).None? ==> r.None?
    ensures ParseSeeds(lines).Some? ==>
              var buyers := seq(|lines|, i requires 0 <= i < |lines| => MakeBuyer(ParseSeeds(lines).value[i], STEPS));
              (r.None? <==> AllWindows(buyers) == {}) &&
              (r.Some? ==> (exists w :: w in AllWindows(buyers) && Bananas(buyers, w) == r.value) &&
                           forall w :: w in AllWindows(buyers) ==> Bananas(buyers, w) <= r.value)
  {
    var seeds := ParseSeeds(lines);
    if seeds.None? {
      return None;
    }
    var buyers := seq(|lines|, i requires 0 <= i < |lines| => MakeBuyer(seeds.value[i], STEPS));
    var totals := BananaTotals(buyers);
    r := MaxValue(totals);
  }
}
