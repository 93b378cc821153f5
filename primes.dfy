/**
 * The prime counter: trial division up to the integer square root, and
 * every prime shown in turn at the top left of the 128x64 panel as its
 * decimal digits, each glyph followed by one blank column, cut to the
 * panel's 128 columns.
 */
module Primes {
  import opened Wrappers
  import opened Bus
  import opened Ssd1306
  import opened Fonts
  import opened Driver
  import Rtc

  /*
   * Primality.
   */

  /** No number between 2 and n - 1 divides n. */
  predicate Prime(n: int)
  {
    n >= 2 && forall d :: 2 <= d < n ==> n % d != 0
  }

  /** `int(num ** 0.5)`, taken exactly: the largest r with r * r <= n. */
  function ISqrt(n: nat): (r: nat)
    ensures r * r <= n < (r + 1) * (r + 1)
  {
    if n == 0 then 0
    else
      var s := ISqrt(n - 1);
      if (s + 1) * (s + 1) <= n then s + 1 else s
  }

  /** Multiplying by a non-negative factor keeps the order. */
  lemma MulLe(x: int, y: int, k: int)
    requires x <= y && 0 <= k
    ensures x * k <= y * k
  {
    assert y * k - x * k == (y - x) * k;
  }

  lemma SquareMono(a: int, b: int, c: int)
    requires 0 <= c <= a && c <= b
    ensures c * c <= a * b
  {
    MulLe(c, b, c);
    assert c * c <= b * c;
    MulLe(c, a, b);
    assert b * c == c * b;
  }

  lemma MulAtLeast(a: int, b: int)
    requires a >= 2 && b >= 2
    ensures a * b >= 2 * a && a * b >= 2 * b
  {
    MulLe(2, b, a);
    MulLe(2, a, b);
    assert b * a == a * b;
  }

  lemma ModMultiple(q: int, d: int)
    requires q > 0 && d >= 0
    ensures (q * d) % q == 0
  {
    var n := q * d;
    var k, m := n / q, n % q;
    assert n == q * k + m && 0 <= m < q;
    assert q * (d - k) == m;
    if d - k >= 1 {
      MulLe(1, d - k, q);
      assert false;
    } else if d - k <= -1 {
      MulLe(d - k, -1, q);
      assert false;
    }
  }

  /** A divisor d of n gives the divisor n / d, with d * (n / d) == n. */
  lemma Cofactor(n: int, d: int)
    requires 2 <= d < n && n % d == 0
    ensures 2 <= n / d < n && n % (n / d) == 0 && d * (n / d) == n
  {
    var q := n / d;
    assert n == d * q + n % d;
    assert n == d * q;
    MulAtLeast(d, q);
    assert q * d == n;
    ModMultiple(q, d);
  }

  /** The root of a number from 2 on is below it: every trial divisor is a proper one. */
  lemma RootBelow(n: int)
    requires n >= 2
    ensures ISqrt(n) < n
  {
    var r := ISqrt(n);
    if r >= n {
      SquareMono(r, r, n);
      MulAtLeast(n, n);
    }
  }

  /**
   * Trial division up to the integer square root is enough: a number with
   * no divisor in 2..ISqrt(n) is prime, because a divisor above the root
   * has its cofactor below it.
   */
  lemma {:induction false} RootSuffices(n: int)
    requires n >= 2
    requires forall d :: 2 <= d <= ISqrt(n) ==> n % d != 0
    ensures Prime(n)
  {
    var r := ISqrt(n);
    forall d | 2 <= d < n
      ensures n % d != 0
    {
      if n % d == 0 {
        var q := n / d;
        Cofactor(n, d);
        assert d > r;
        assert q > r;
        SquareMono(d, q, r + 1);
        assert false;
      }
    }
  }

  /** is_prime: trial division by 2 .. int(num ** 0.5). */
  method IsPrime(num: int) returns (r: bool)
    ensures r <==> Prime(num)
  {
    if num <= 1 {
      return false;
    }
    var root := ISqrt(num);
    RootBelow(num);
    var i := 2;
    while i < root + 1
      invariant 2 <= i <= root + 2
      invariant forall d :: 2 <= d < i ==> num % d != 0
    {
      if num % i == 0 {
        return false;
      }
      i := i + 1;
    }
    RootSuffices(num);
    return true;
  }

  /*
   * str(number).
   */

  /** The decimal digits of n, without leading zeros. */
  function Decimal(n: nat): (s: string)
    ensures |s| >= 1
    ensures forall i :: 0 <= i < |s| ==> '0' <= s[i] <= '9'
    ensures |s| > 1 ==> s[0] != '0'
  {
    if n < 10 then [Rtc.DigitChar(n)] else Decimal(n / 10) + [Rtc.DigitChar(n % 10)]
  }

  /** Reading the digits of str(n) gives n back. */
  lemma {:induction false} DecimalValue(n: nat)
    ensures Rtc.Value(Decimal(n)) == n
  {
    var s := Decimal(n);
    if n < 10 {
      assert s[..0] == [];
    } else {
      assert s[..|s| - 1] == Decimal(n / 10);
      DecimalValue(n / 10);
    }
  }

  /** str(number) for any integer: a minus sign before the digits of a negative one. */
  function Str(n: int): string
  {
    if n < 0 then "-" + Decimal(-n) else Decimal(n)
  }

  /*
   * display_number.
   */

  /** The columns of the characters of s that the font has, each glyph followed by a blank column. */
  function NumberData(s: string): (d: seq<bv8>)
    ensures |d| % 6 == 0 && |d| <= 6 * |s|
  {
    if s == [] then []
    else
      NumberData(s[..|s| - 1]) +
      match DigitFont(s[|s| - 1])
      case Some(glyph) => glyph + [0x00]
      case None => []
  }

  /** A decimal string is all in the font: six columns per digit, glyph then gap. */
  lemma {:induction false} DigitColumns(n: nat, k: int)
    requires 0 <= k < |Decimal(n)|
    ensures |NumberData(Decimal(n))| == 6 * |Decimal(n)|
    ensures NumberData(Decimal(n))[6 * k .. 6 * k + 6] == DigitFont(Decimal(n)[k]).value + [0x00]
  {
    var s := Decimal(n);
    AllDigitsKnown(s);
    DigitsData(s, k);
  }

  /** Digits and spaces are the font's keys. */
  predicate AllKnown(s: string)
  {
    forall i :: 0 <= i < |s| ==> DigitFont(s[i]).Some?
  }

  lemma AllDigitsKnown(s: string)
    requires forall i :: 0 <= i < |s| ==> '0' <= s[i] <= '9'
    ensures AllKnown(s)
  {
    forall i | 0 <= i < |s|
      ensures DigitFont(s[i]).Some?
    {
      DigitKnown(s[i]);
    }
  }

  lemma DigitKnown(c: char)
    requires '0' <= c <= '9'
    ensures DigitFont(c).Some?
  {
  }

  lemma {:induction false} DigitsData(s: string, k: int)
    requires AllKnown(s) && 0 <= k < |s|
    ensures |NumberData(s)| == 6 * |s|
    ensures NumberData(s)[6 * k .. 6 * k + 6] == DigitFont(s[k]).value + [0x00]
  {
    var front := s[..|s| - 1];
    assert AllKnown(front) by {
      forall i | 0 <= i < |front|
        ensures DigitFont(front[i]).Some?
      {
        assert front[i] == s[i];
      }
    }
    var last := DigitFont(s[|s| - 1]).value + [0x00];
    assert NumberData(s) == NumberData(front) + last;
    assert |DigitFont(s[|s| - 1]).value| == 5;
    if k < |s| - 1 {
      DigitsData(front, k);
      assert front[k] == s[k];
    } else if front != [] {
      DigitsData(front, 0);
    }
  }

  /** `data[:128]` */
  function Cut(data: seq<bv8>): (d: seq<bv8>)
    ensures |d| <= 128 && d <= data
    ensures |data| <= 128 ==> d == data
  {
    if |data| <= 128 then data else data[..128]
  }

  /** Up to 21 digits fit the panel whole; from 22 digits on the last ones are cut off. */
  lemma CutOnlyLongNumbers(n: nat)
    ensures |Decimal(n)| <= 21 <==> Cut(NumberData(Decimal(n))) == NumberData(Decimal(n))
  {
    DigitColumns(n, 0);
  }

  /** display_number's transfer: page 0, column 0, then the cut data in one frame. */
  function NumberFrames(addr: int, number: int): seq<seq<bv8>>
  {
    CommandFrames(addr, [0xB0, 0x00, 0x10]) + [DataFrame(addr, Cut(NumberData(Str(number))))]
  }

  /*
   * generate_primes.
   */

  /** The primes below n, in increasing order. */
  function PrimesBelow(n: int): seq<int>
  {
    if n <= 2 then [] else PrimesBelow(n - 1) + (if Prime(n - 1) then [n - 1] else [])
  }

  /** The primes below n are exactly the numbers below n that are prime. */
  lemma {:induction false} PrimesBelowAre(n: int, k: int)
    ensures k in PrimesBelow(n) <==> k < n && Prime(k)
  {
    if n > 2 {
      PrimesBelowAre(n - 1, k);
    }
  }

  /** The primes below n come in strictly increasing order. */
  lemma {:induction false} PrimesBelowIncrease(n: int)
    ensures forall i, j :: 0 <= i < j < |PrimesBelow(n)| ==> PrimesBelow(n)[i] < PrimesBelow(n)[j]
  {
    if n > 2 {
      PrimesBelowIncrease(n - 1);
      var ps := PrimesBelow(n - 1);
      forall i | 0 <= i < |ps|
        ensures ps[i] < n - 1
      {
        PrimesBelowAre(n - 1, ps[i]);
      }
    }
  }

  /** The frames of display_number for each prime below n, in order. */
  function ShownFrames(addr: int, n: int): seq<seq<bv8>>
  {
    if n <= 2 then [] else ShownFrames(addr, n - 1) + PassFrames(addr, n - 1)
  }

  /** One pass of the loop: display_number(num) when num is prime, nothing otherwise. */
  function PassFrames(addr: int, num: int): seq<seq<bv8>>
  {
    if Prime(num) then NumberFrames(addr, num) else []
  }

  /** display_number's frames for each number of the list, in list order. */
  function FramesOf(addr: int, numbers: seq<int>): seq<seq<bv8>>
  {
    if numbers == [] then []
    else FramesOf(addr, numbers[..|numbers| - 1]) + NumberFrames(addr, numbers[|numbers| - 1])
  }

  /** What the loop shows below n is display_number of each prime below n, in increasing order. */
  lemma {:induction false} ShownArePrimes(addr: int, n: int)
    ensures ShownFrames(addr, n) == FramesOf(addr, PrimesBelow(n))
  {
    if n > 2 {
      ShownArePrimes(addr, n - 1);
      var ps := PrimesBelow(n - 1);
      if Prime(n - 1) {
        assert (ps + [n - 1])[..|ps|] == ps;
      } else {
        assert PrimesBelow(n) == ps;
      }
    }
  }

  lemma ShownStep(addr: int, num: int)
    requires num >= 2
    ensures ShownFrames(addr, num + 1) == ShownFrames(addr, num) + PassFrames(addr, num)
  {
  }

  /** A refused write while showing num ends a failed run of the whole sequence. */
  lemma ShownStops(t0: seq<seq<bv8>>, addr: int, num: int, limit: int, after: seq<seq<bv8>>)
    requires 2 <= num < limit
    requires Sent(t0 + ShownFrames(addr, num), after, PassFrames(addr, num), false)
    ensures Sent(t0, after, ShownFrames(addr, limit), false)
  {
    ShownStep(addr, num);
    ShownPrefix(addr, num + 1, limit);
    SentStops(t0, ShownFrames(addr, num), PassFrames(addr, num), after, ShownFrames(addr, limit));
  }

  /** A pass that went through extends the frames shown by those of num. */
  lemma ShownGoesOn(t0: seq<seq<bv8>>, addr: int, num: int, after: seq<seq<bv8>>)
    requires num >= 2
    requires Sent(t0 + ShownFrames(addr, num), after, PassFrames(addr, num), true)
    ensures after == t0 + ShownFrames(addr, num + 1)
  {
    ShownStep(addr, num);
    SentAll(t0, ShownFrames(addr, num), PassFrames(addr, num), after);
  }

  lemma SentAll(t0: seq<seq<bv8>>, done: seq<seq<bv8>>, part: seq<seq<bv8>>, after: seq<seq<bv8>>)
    requires Sent(t0 + done, after, part, true)
    ensures after == t0 + (done + part)
  {
    assert after == (t0 + done) + part;
  }

  lemma {:induction false} ShownPrefix(addr: int, m: int, n: int)
    requires m <= n
    ensures ShownFrames(addr, m) <= ShownFrames(addr, n)
  {
    if m < n && n > 2 {
      ShownPrefix(addr, m, n - 1);
    }
  }

  /** The OLED class of the prime counter, on its own link to the panel. */
  class Counter {
    const link: Link

    constructor (link: Link)
      ensures this.link == link
    {
      this.link := link;
    }

    /** clear_display: the eight pages, each 128 zero bytes in one data frame. */
    method ClearDisplay() returns (ok: bool)
      modifies link.bus
      ensures Sent(old(link.bus.trace), link.bus.trace, ClearFrames(link.address), ok)
    {
      ok := link.Flush(Zeros());
    }

    /**
     * initialize_display: the table, then clear_display. A refused write
     * ends it early; the error is printed and swallowed, so the caller
     * carries on either way and `ok` only reports it.
     */
    method InitializeDisplay() returns (ok: bool)
      modifies link.bus
      ensures Sent(old(link.bus.trace), link.bus.trace,
                   CommandFrames(link.address, InitTable) + ClearFrames(link.address), ok)
    {
      ghost var t0 := link.bus.trace;
      ok := link.SendInitTable();
      if !ok {
        SentFailsEarly(t0, link.bus.trace, CommandFrames(link.address, InitTable), ClearFrames(link.address));
        return;
      }
      ghost var t1 := link.bus.trace;
      ok := ClearDisplay();
      SentThen(t0, t1, link.bus.trace, CommandFrames(link.address, InitTable), ClearFrames(link.address), ok);
    }

    /** display_number: the glyph columns of str(number), then the cursor commands and one data frame. */
    method DisplayNumber(number: int) returns (ok: bool)
      modifies link.bus
      ensures Sent(old(link.bus.trace), link.bus.trace, NumberFrames(link.address, number), ok)
    {
      var numberStr := Str(number);
      var data: seq<bv8> := [];
      var i := 0;
      while i < |numberStr|
        invariant 0 <= i <= |numberStr|
        invariant data == NumberData(numberStr[..i])
      {
        assert numberStr[..i + 1][..i] == numberStr[..i];
        match DigitFont(numberStr[i]) {
          case Some(glyph) =>
            data := data + (glyph + [0x00]);
          case None =>
        }
        i := i + 1;
      }
      assert numberStr[..i] == numberStr;
      ghost var t0 := link.bus.trace;
      ghost var cmds := CommandFrames(link.address, [0xB0, 0x00, 0x10]);
      ok := link.SendCommands([0xB0, 0x00, 0x10]);
      if !ok {
        SentFailsEarly(t0, link.bus.trace, cmds, [DataFrame(link.address, Cut(data))]);
        return;
      }
      ok := link.WriteData(Cut(data));
    }

    /** One pass of generate_primes' loop: test num, and show it when it is prime. */
    method ShowIfPrime(num: int) returns (ok: bool)
      modifies link.bus
      ensures Sent(old(link.bus.trace), link.bus.trace, PassFrames(link.address, num), ok)
    {
      var prime := IsPrime(num);
      if prime {
        ok := DisplayNumber(num);
      } else {
        ok := true;
      }
    }

    /**
     * generate_primes, up to a bound: display_number of every prime below
     * `limit`, in increasing order, until a write is refused.
     */
    method GeneratePrimes(limit: int) returns (ok: bool)
      modifies link.bus
      ensures Sent(old(link.bus.trace), link.bus.trace, FramesOf(link.address, PrimesBelow(limit)), ok)
    {
      ShownArePrimes(link.address, limit);
      ghost var t0 := link.bus.trace;
      var num := 2;
      ok := true;
      while num < limit
        invariant 2 <= num && (num <= limit || num == 2)
        invariant link.bus.trace == t0 + ShownFrames(link.address, num)
      {
        ok := ShowIfPrime(num);
        if !ok {
          ShownStops(t0, link.address, num, limit, link.bus.trace);
          return;
        }
        ShownGoesOn(t0, link.address, num, link.bus.trace);
        num := num + 1;
      }
      assert ShownFrames(link.address, limit) == ShownFrames(link.address, num);
    }
  }
}
