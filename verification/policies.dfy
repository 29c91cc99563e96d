/** The arithmetic of the scheduling policies: lottery draws and epoch recharges. */
module Policies {

  // ---------------------------------------------------------------- lottery

  /** The tickets that count for a process: one at least. */
  function Weight(tickets: int): (w: nat)
    ensures 1 <= w
  {
    if tickets > 0 then tickets else 1
  }

  function Total(tickets: seq<int>): nat {
    if tickets == [] then 0 else Total(tickets[..|tickets| - 1]) + Weight(tickets[|tickets| - 1])
  }

  /** The holder of ticket number w, when the tickets are numbered from the front of the queue. */
  function Winner(tickets: seq<int>, w: nat): (i: nat)
    requires w < Total(tickets)
    ensures i < |tickets|
  {
    if Total(tickets[..|tickets| - 1]) <= w then |tickets| - 1 else Winner(tickets[..|tickets| - 1], w)
  }

  lemma {:induction false} TotalGrows(tickets: seq<int>, i: nat, j: nat)
    requires i <= j <= |tickets|
    ensures Total(tickets[..i]) + (j - i) <= Total(tickets[..j])
  {
    if i < j {
      TotalGrows(tickets, i, j - 1);
      assert tickets[..j][..j - 1] == tickets[..j - 1];
    }
  }

  /** The tickets of a holder are the numbers from the tickets before it up to the tickets including its own. */
  lemma {:induction false} WinnerRange(tickets: seq<int>, w: nat, i: nat)
    requires w < Total(tickets) && i < |tickets|
    ensures Winner(tickets, w) == i <==> Total(tickets[..i]) <= w < Total(tickets[..i + 1])
  {
    var n := |tickets| - 1;
    if Total(tickets[..n]) <= w {
      if i < n {
        TotalGrows(tickets, i + 1, n);
      } else {
        assert tickets[..n + 1] == tickets;
      }
    } else if i < n {
      WinnerRange(tickets[..n], w, i);
      assert tickets[..n][..i] == tickets[..i] && tickets[..n][..i + 1] == tickets[..i + 1];
    }
  }

  ghost function WinningNumbers(tickets: seq<int>, i: nat): set<nat> {
    set w: nat | w < Total(tickets) && Winner(tickets, w) == i
  }

  predicate InRange(w: nat, a: nat, b: nat) {
    a <= w < b
  }

  ghost function Range(a: nat, b: nat): set<nat> {
    set w: nat | w < b && InRange(w, a, b)
  }

  lemma {:induction false} RangeSize(a: nat, b: nat)
    requires a <= b
    ensures |Range(a, b)| == b - a
  {
    if a < b {
      RangeSize(a, b - 1);
      assert Range(a, b) == Range(a, b - 1) + {b - 1};
    } else {
      assert Range(a, b) == {};
    }
  }

  /** Of all winning numbers, a process gets exactly as many as it has tickets, and one if it has none. */
  lemma LotteryExact(tickets: seq<int>, i: nat)
    requires i < |tickets|
    ensures |WinningNumbers(tickets, i)| == Weight(tickets[i])
  {
    var a, b := Total(tickets[..i]), Total(tickets[..i + 1]);
    assert tickets[..i + 1][..i] == tickets[..i];
    TotalGrows(tickets, i + 1, |tickets|);
    assert tickets[..|tickets|] == tickets;
    assert WinningNumbers(tickets, i) == Range(a, b) by {
      forall w: nat | w < Total(tickets)
        ensures Winner(tickets, w) == i <==> a <= w < b
      {
        WinnerRange(tickets, w, i);
      }
    }
    RangeSize(a, b);
  }

  // ---------------------------------------------------------------- the random number generator

  /** A 64-bit word, lowest bit first. */
  type Word = w: seq<bool> | |w| == 64 witness seq(64, _ => false)

  function Zero(): Word {
    seq(64, _ => false)
  }

  function Xor(a: Word, b: Word): Word {
    seq(64, i requires 0 <= i < 64 => a[i] != b[i])
  }

  function ShiftLeft(a: Word, n: nat): Word {
    seq(64, i requires 0 <= i < 64 => n <= i && a[i - n])
  }

  function ShiftRight(a: Word, n: nat): Word {
    seq(64, i requires 0 <= i < 64 => i + n < 64 && a[i + n])
  }

  function Value(w: seq<bool>): nat {
    if w == [] then 0 else (if w[0] then 1 else 0) + 2 * Value(w[1..])
  }

  /** The word of a number; numbers too large wrap around. */
  function Bits(v: nat, n: nat): (w: seq<bool>)
    ensures |w| == n
  {
    if n == 0 then [] else [v % 2 == 1] + Bits(v / 2, n - 1)
  }

  function Seed(): Word {
    Bits(88172645463325252, 64)
  }

  /** A number that fits into n bits is the value of its word. */
  lemma {:induction false} BitsRead(v: nat, n: nat)
    requires v < Power(n)
    ensures Value(Bits(v, n)) == v
  {
    if n > 0 {
      BitsRead(v / 2, n - 1);
      assert Bits(v, n)[1..] == Bits(v / 2, n - 1);
    }
  }

  lemma BitsStep(v: nat, n: nat, q: nat, r: nat)
    requires 1 <= n && v == 2 * q + r && r < 2
    ensures Bits(v, n) == [r == 1] + Bits(q, n - 1)
  {
  }

  lemma SeedNotZero()
    ensures Seed() != Zero()
  {
    hide Bits;
    BitsStep(88172645463325252, 64, 44086322731662626, 0);
    BitsStep(44086322731662626, 63, 22043161365831313, 0);
    BitsStep(22043161365831313, 62, 11021580682915656, 1);
    assert Seed()[2];
  }

  /** A word and its shift, up or down by n, combined. */
  function Mix(x: Word, n: nat, up: bool): Word {
    Xor(x, if up then ShiftLeft(x, n) else ShiftRight(x, n))
  }

  /** The three rounds of xorshift. */
  function XorShift(x: Word): Word {
    Mix(Mix(Mix(x, 13, true), 7, false), 17, true)
  }

  /** The word with only bit 0 set. */
  function One(): Word {
    seq(64, i => i == 0)
  }

  lemma OneRound(j: nat)
    requires j < 64
    ensures Mix(One(), 13, true)[j] <==> j == 0 || j == 13
  {
    MixAt(One(), 13, true, j);
  }

  lemma TwoRounds(j: nat)
    requires j < 64
    ensures Mix(Mix(One(), 13, true), 7, false)[j] <==> j == 0 || j == 6 || j == 13
  {
    hide Mix, One;
    MixAt(Mix(One(), 13, true), 7, false, j);
    OneRound(j);
    if j + 7 < 64 {
      OneRound(j + 7);
    }
  }

  /** One step takes the word with only bit 0 to the one with bits 0, 6, 13, 17, 23 and 30. */
  lemma XorShiftOfOne(j: nat)
    requires j < 64
    ensures XorShift(One())[j] <==> j == 0 || j == 6 || j == 13 || j == 17 || j == 23 || j == 30
  {
    hide Mix, One;
    MixAt(Mix(Mix(One(), 13, true), 7, false), 17, true, j);
    TwoRounds(j);
    if 17 <= j {
      TwoRounds(j - 17);
    }
  }

  /** Undoes a round: the round taken twice is the round of twice the distance. */
  function Unmix(y: Word, n: nat, up: bool): Word
    requires 1 <= n
    decreases 64 - n
  {
    if 64 <= n then y else Unmix(Mix(y, n, up), 2 * n, up)
  }

  function UnXorShift(y: Word): Word {
    Unmix(Unmix(Unmix(y, 17, true), 7, false), 13, true)
  }

  /** Bit i of a word that is shifted up or down by n. */
  predicate BitFrom(x: Word, n: nat, up: bool, i: nat)
    requires i < 64
  {
    if up then n <= i && x[i - n] else i + n < 64 && x[i + n]
  }

  lemma MixAt(x: Word, n: nat, up: bool, i: nat)
    requires i < 64
    ensures Mix(x, n, up)[i] == (x[i] != BitFrom(x, n, up, i))
  {
  }

  lemma MixTwice(x: Word, n: nat, up: bool)
    ensures Mix(Mix(x, n, up), n, up) == Mix(x, 2 * n, up)
  {
    hide Mix;
    var a := Mix(x, n, up);
    forall i | 0 <= i < 64
      ensures Mix(a, n, up)[i] == Mix(x, 2 * n, up)[i]
    {
      MixAt(a, n, up, i);
      MixAt(x, n, up, i);
      MixAt(x, 2 * n, up, i);
      var j := if up then i - n else i + n;
      if 0 <= j < 64 { MixAt(x, n, up, j); }
    }
  }

  lemma MixSwaps(x: Word, n: nat, m: nat, up: bool)
    ensures Mix(Mix(x, n, up), m, up) == Mix(Mix(x, m, up), n, up)
  {
    hide Mix;
    var a, b := Mix(x, n, up), Mix(x, m, up);
    forall i | 0 <= i < 64
      ensures Mix(a, m, up)[i] == Mix(b, n, up)[i]
    {
      MixAt(a, m, up, i);
      MixAt(b, n, up, i);
      MixAt(x, n, up, i);
      MixAt(x, m, up, i);
      var j, k := if up then i - m else i + m, if up then i - n else i + n;
      if 0 <= j < 64 { MixAt(x, n, up, j); }
      if 0 <= k < 64 { MixAt(x, m, up, k); }
    }
  }

  lemma {:induction false} UnmixSwaps(y: Word, n: nat, m: nat, up: bool)
    requires 1 <= n
    ensures Unmix(Mix(y, m, up), n, up) == Mix(Unmix(y, n, up), m, up)
    decreases 64 - n
  {
    hide Mix;
    if n < 64 {
      MixSwaps(y, m, n, up);
      UnmixSwaps(Mix(y, n, up), 2 * n, m, up);
    }
  }

  lemma {:induction false} UnmixMix(x: Word, n: nat, up: bool)
    requires 1 <= n
    ensures Unmix(Mix(x, n, up), n, up) == x
    decreases 64 - n
  {
    if n < 64 {
      MixTwice(x, n, up);
      hide Mix;
      UnmixMix(x, 2 * n, up);
    } else {
      assert Mix(x, n, up) == x;
    }
  }

  /** Each round is a bijection. */
  lemma MixBijection(x: Word, n: nat, up: bool)
    requires 1 <= n
    ensures Unmix(Mix(x, n, up), n, up) == x && Mix(Unmix(x, n, up), n, up) == x
  {
    hide Mix, Unmix;
    UnmixMix(x, n, up);
    UnmixSwaps(x, n, n, up);
  }

  /** The step is a bijection of the 64-bit words: it has an inverse on both sides. */
  lemma XorShiftBijection(x: Word)
    ensures UnXorShift(XorShift(x)) == x && XorShift(UnXorShift(x)) == x
  {
    hide Mix, Unmix;
    MixBijection(x, 13, true);
    MixBijection(Mix(x, 13, true), 7, false);
    MixBijection(Mix(Mix(x, 13, true), 7, false), 17, true);
    MixBijection(x, 17, true);
    MixBijection(Unmix(x, 17, true), 7, false);
    MixBijection(Unmix(Unmix(x, 17, true), 7, false), 13, true);
  }

  /** The generator: the timer is mixed in, zero is replaced, and one step is taken. */
  function NextState(state: Word, timer: Word): Word {
    var mixed := Xor(state, timer);
    XorShift(if mixed == Zero() then Seed() else mixed)
  }

  /** The generator's state r after n draws from state r0, whatever the timer said at each of them. */
  ghost predicate Rolled(r0: Word, r: Word, n: int)
    decreases n
  {
    if n <= 0 then r == r0 else exists m: Word, timer: Word :: Rolled(r0, m, n - 1) && r == NextState(m, timer)
  }

  /** From one moment to the next there was a draw, and k became one less, or none. */
  ghost predicate Rolls(r: Word, r': Word, k: nat, k': nat) {
    (r' == r && k' == k) || (k' == k - 1 && exists timer: Word :: r' == NextState(r, timer))
  }

  lemma RollsMean(r: Word, timer: Word, k: nat)
    ensures Rolls(r, r, k, k) && (0 < k ==> Rolls(r, NextState(r, timer), k, k - 1))
  {
  }

  lemma RolledNot(r: Word)
    ensures Rolled(r, r, 0)
  {
  }

  lemma RollsOn(r0: Word, r: Word, r': Word, n: nat, k: nat, k': nat)
    requires k <= n && Rolled(r0, r, n - k) && Rolls(r, r', k, k')
    ensures k' <= n && Rolled(r0, r', n - k')
  {
    hide NextState;
    if k' != k {
      var timer: Word :| r' == NextState(r, timer);
      assert Rolled(r0, r, n - k' - 1);
    }
  }

  lemma MixZero(n: nat, up: bool)
    ensures Mix(Zero(), n, up) == Zero()
  {
  }

  /** Whatever the timer says, the state of the generator is never zero. */
  lemma NextStateNotZero(state: Word, timer: Word)
    ensures NextState(state, timer) != Zero()
  {
    hide Mix, Unmix, Seed, Zero, Xor, UnXorShift;
    SeedNotZero();
    var mixed := Xor(state, timer);
    XorShiftBijection(if mixed == Zero() then Seed() else mixed);
    MixZero(13, true);
    MixZero(7, false);
    MixZero(17, true);
    XorShiftBijection(Zero());
  }

  // ---------------------------------------------------------------- epochs

  /** The recharge at the end of an epoch; halving rounds down. */
  function Recharged(counter: int, priority: int): int {
    counter / 2 + priority
  }

  /** r is half of the counter plus the priority, in whole numbers. */
  predicate Refilled(counter: int, priority: int, r: int) {
    2 * (r - priority) <= counter <= 2 * (r - priority) + 1
  }

  /** This is the recharge and nothing else is. */
  lemma RechargeIs(counter: int, priority: int, r: int)
    ensures Refilled(counter, priority, r) <==> r == Recharged(counter, priority)
  {
  }

  /** The counter after n recharges. */
  function Epochs(counter: int, priority: int, n: nat): int {
    if n == 0 then counter else Recharged(Epochs(counter, priority, n - 1), priority)
  }

  /** An exhausted counter rises at every recharge, even a negative one. */
  lemma RechargeRises(counter: int, priority: int, r: int)
    requires Refilled(counter, priority, r) && 1 <= priority
    ensures counter <= 0 ==> counter < r
  {
  }

  /** Over any number of recharges a counter stays within twice the priority, or where it started. */
  lemma {:induction false} EpochsBound(counter: int, priority: int, n: nat)
    requires 1 <= priority
    ensures Epochs(counter, priority, n) <= if counter <= 2 * priority then 2 * priority else counter
    ensures counter <= 2 * priority - 1 ==> Epochs(counter, priority, n) <= 2 * priority - 1
  {
    if n > 0 {
      EpochsBound(counter, priority, n - 1);
    }
  }

  function Power(n: nat): (r: nat)
    ensures 1 <= r
  {
    if n == 0 then 1 else 2 * Power(n - 1)
  }

  lemma DivideTwice(e: nat, d: nat)
    requires 1 <= d
    ensures e / d / 2 == e / (2 * d)
  {
    var q, r := e / d / 2, e / d % 2;
    assert e == (2 * q + r) * d + e % d;
    assert q * (2 * d) == 2 * q * d && (2 * q + r) * d == 2 * q * d + r * d;
    assert e - q * (2 * d) == r * d + e % d;
    assert 0 <= r * d <= d;
    QuotientIs(e, 2 * d, q);
  }

  lemma QuotientIs(e: nat, d: nat, q: nat)
    requires 0 <= e - q * d < d
    ensures e / d == q
  {
    var x := e / d;
    assert e == x * d + e % d;
    MoreTimes(x, q, d);
    MoreTimes(q, x, d);
  }

  lemma {:induction false} MoreTimes(a: int, b: int, d: nat)
    ensures a < b ==> a * d + d <= b * d
    decreases b - a
  {
    if a < b - 1 {
      MoreTimes(a, b - 1, d);
      assert b * d == (b - 1) * d + d;
    }
  }

  /** Every recharge halves what a counter lacks of 2p - 1, or has above 2p. */
  lemma {:induction false} EpochsHalve(counter: int, priority: int, n: nat)
    ensures Epochs(counter, priority, n) ==
            if counter < 2 * priority then 2 * priority - 1 - (2 * priority - 1 - counter) / Power(n)
            else 2 * priority + (counter - 2 * priority) / Power(n)
  {
    if n > 0 {
      EpochsHalve(counter, priority, n - 1);
      DivideTwice(if counter < 2 * priority then 2 * priority - 1 - counter else counter - 2 * priority, Power(n - 1));
    }
  }

  /** A counter of at least 0 keeps half of it as a bonus on top of the priority, however long the process is blocked. */
  lemma BonusKept(counter: int, priority: int, n: nat)
    requires 0 <= counter && 1 <= n
    ensures Epochs(counter, priority, n) >= priority + (if counter < 2 * priority then counter else 2 * priority) / 2
  {
    EpochsHalve(counter, priority, n);
    var e := if counter < 2 * priority then 2 * priority - 1 - counter else counter - 2 * priority;
    DivideTwice(e, Power(n - 1));
    Shrinks(e, Power(n - 1));
  }

  lemma Shrinks(e: nat, d: nat)
    requires 1 <= d
    ensures 0 <= e / d <= e
  {
    assert e == e / d * d + e % d;
  }

  /** The bonus settles: the counter of a blocked process comes to 2p - 1, or to 2p from above, and stays there. */
  lemma EpochsSettle(counter: int, priority: int, n: nat)
    requires 2 * priority - 1 - counter < Power(n) && counter - 2 * priority < Power(n)
    ensures Epochs(counter, priority, n) == if counter < 2 * priority then 2 * priority - 1 else 2 * priority
  {
    EpochsHalve(counter, priority, n);
    QuotientIs(if counter < 2 * priority then 2 * priority - 1 - counter else counter - 2 * priority, Power(n), 0);
  }

  /** An exhausted counter becomes positive after at most as many recharges as it is below one. */
  lemma {:induction false} EpochsSuffice(counter: int, priority: int, n: nat)
    requires 1 <= priority && forall k :: 0 <= k < n ==> Epochs(counter, priority, k) <= 0
    ensures counter + n <= Epochs(counter, priority, n)
  {
    if n > 0 {
      EpochsSuffice(counter, priority, n - 1);
      var before := Epochs(counter, priority, n - 1);
      RechargeIs(before, priority, Recharged(before, priority));
      RechargeRises(before, priority, Recharged(before, priority));
    }
  }
}
