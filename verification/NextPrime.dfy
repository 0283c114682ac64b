/** next_prime of iosplitter/common/prime.c. */
module NextPrime {

  function Times(d: nat, k: nat): nat {
    d * k
  }

  ghost predicate Divides(d: nat, n: nat) {
    exists k: nat :: Times(d, k) == n
  }

  ghost predicate IsPrime(n: nat) {
    n >= 2 && forall d {:trigger Divides(d, n)} :: 2 <= d < n ==> !Divides(d, n)
  }

  /** The remainder test of the source is divisibility. */
  lemma RemainderIsDivides(n: nat, d: nat)
    requires d > 0
    ensures n % d == 0 <==> Divides(d, n)
  {
    var q := n / d;
    assert n == d * q + n % d;
    if n % d == 0 {
      assert Times(d, q) == n;
    }
    if Divides(d, n) {
      var k: nat :| Times(d, k) == n;
      assert d * (k - q) == n % d;
      SmallMultiple(d, k - q);
    }
  }

  lemma TimesAtLeast(d: nat, j: nat)
    requires j >= 1
    ensures d * j >= d
  {
  }

  lemma TimesAtMost(d: int, j: int)
    requires d >= 0 && j <= -1
    ensures d * j + d <= 0
  {
  }

  lemma TimesGrows(a: nat, b: nat, c: nat)
    requires a <= b
    ensures a * c <= b * c
  {
  }

  lemma SmallMultiple(d: nat, j: int)
    requires 0 <= d * j < d
    ensures j == 0
  {
    if j >= 1 {
      TimesAtLeast(d, j);
    } else if j <= -1 {
      TimesAtMost(d, j);
    }
  }

  lemma DividesTrans(a: nat, b: nat, c: nat)
    requires Divides(a, b) && Divides(b, c)
    ensures Divides(a, c)
  {
    var k: nat :| Times(a, k) == b;
    var m: nat :| Times(b, m) == c;
    assert Times(a, k * m) == c by {
      assert (a * k) * m == a * (k * m);
    }
  }

  lemma DividesDifference(d: nat, a: nat, b: nat)
    requires Divides(d, a) && Divides(d, a + b) && d > 0
    ensures Divides(d, b)
  {
    var k: nat :| Times(d, k) == a;
    var m: nat :| Times(d, m) == a + b;
    assert d * (m - k) == b;
    assert m >= k by {
      NonNegative(d, m - k);
    }
    assert Times(d, m - k) == b;
  }

  lemma NonNegative(d: nat, j: int)
    requires d > 0 && d * j >= 0
    ensures j >= 0
  {
    if j < 0 {
      TimesAtMost(d, j);
    }
  }

  lemma DividesLeq(d: nat, n: nat)
    requires Divides(d, n) && n > 0
    ensures 1 <= d <= n
  {
    var k: nat :| Times(d, k) == n;
    if k >= 1 {
      TimesAtLeast(d, k);
    }
  }

  /** A composite number has a factor above 1 whose square it is not below. */
  lemma SmallFactor(n: nat) returns (s: nat)
    requires n >= 2 && !IsPrime(n)
    ensures 2 <= s < n && s * s <= n && Divides(s, n)
  {
    var d :| 2 <= d < n && Divides(d, n);
    var e: nat :| Times(d, e) == n;
    assert Times(e, d) == n;
    DividesLeq(e, n);
    TimesGrows(2, d, e);
    s := if d <= e then d else e;
    if d <= e {
      TimesGrows(d, e, d);
    } else {
      TimesGrows(e, d, e);
    }
  }

  /** Every number above 1 has a prime divisor, no larger than its square root if the number is composite. */
  lemma {:induction false} PrimeDivisor(n: nat) returns (p: nat)
    requires n >= 2
    ensures IsPrime(p) && p <= n && Divides(p, n)
    ensures !IsPrime(n) ==> p < n && p * p <= n
    decreases n
  {
    if IsPrime(n) {
      assert Times(n, 1) == n;
      return n;
    }
    var s := SmallFactor(n);
    p := PrimeDivisor(s);
    DividesTrans(p, s, n);
    SquaresGrow(p, s);
  }

  lemma SquaresGrow(p: nat, s: nat)
    requires p <= s
    ensures p * p <= s * s
  {
    TimesGrows(p, s, p);
    TimesGrows(p, s, s);
  }

  ghost function Factorial(n: nat): (f: nat)
    ensures f >= 1
  {
    if n == 0 then 1 else Times(n, Factorial(n - 1))
  }

  lemma {:induction false} DividesFactorial(d: nat, n: nat)
    requires 1 <= d <= n
    ensures Divides(d, Factorial(n))
  {
    if d == n {
      assert Times(n, Factorial(n - 1)) == Factorial(n);
    } else {
      DividesFactorial(d, n - 1);
      assert Times(Factorial(n - 1), n) == Factorial(n);
      DividesTrans(d, Factorial(n - 1), Factorial(n));
    }
  }

  /** Euclid: there is a prime at or above every number. */
  lemma PrimeFrom(n: nat) returns (p: nat)
    ensures IsPrime(p) && n <= p
  {
    var f := Factorial(n);
    p := PrimeDivisor(f + 1);
    if p < n {
      DividesFactorial(p, n);
      DividesDifference(p, f, 1);
      DividesLeq(p, 1);
    }
  }

  /** primes lists exactly the primes below next, in ascending order. */
  ghost predicate PrimesBelow(primes: seq<nat>, next: nat) {
    && (forall i, j :: 0 <= i < j < |primes| ==> primes[i] < primes[j])
    && (forall i :: 0 <= i < |primes| ==> IsPrime(primes[i]) && primes[i] < next)
    && (forall p: nat :: p < next && IsPrime(p) ==> p in primes)
  }

  /** The cut-off of the inner loop, item->prime > sqrt(next) + 1, over the reals. */
  predicate PastRoot(p: nat, next: nat)
    requires p > 0
  {
    (p - 1) * (p - 1) > next
  }

  /** The inner loop: whether a prime of the list divides next. The list is searched from its smallest prime
      on, and given up past the square root once next is above 100. */
  method FindDivisor(primes: seq<nat>, next: nat) returns (found: bool)
    requires next >= 3 && PrimesBelow(primes, next)
    ensures found <==> !IsPrime(next)
  {
    found := false;
    var curr := 0;
    while curr < |primes|
      invariant 0 <= curr <= |primes|
      invariant forall i :: 0 <= i < curr ==> !Divides(primes[i], next)
    {
      if next > 100 && PastRoot(primes[curr], next) {
        CutOffIsSafe(primes, next, curr);
        return;
      }
      RemainderIsDivides(next, primes[curr]);
      if next % primes[curr] == 0 {
        found := true;
        assert 2 <= primes[curr] < next;
        return;
      }
      curr := curr + 1;
    }
    NoPrimeDivides(primes, next, curr);
  }

  lemma CutOffIsSafe(primes: seq<nat>, next: nat, curr: nat)
    requires next >= 3 && PrimesBelow(primes, next) && curr < |primes| && PastRoot(primes[curr], next)
    requires forall i :: 0 <= i < curr ==> !Divides(primes[i], next)
    ensures IsPrime(next)
  {
    if !IsPrime(next) {
      var p := PrimeDivisor(next);
      var i :| 0 <= i < |primes| && primes[i] == p;
      assert i >= curr;
      assert primes[curr] <= p;
      SquaresGrow(primes[curr] - 1, p);
    }
  }

  lemma NoPrimeDivides(primes: seq<nat>, next: nat, curr: nat)
    requires next >= 3 && PrimesBelow(primes, next) && curr == |primes|
    requires forall i :: 0 <= i < curr ==> !Divides(primes[i], next)
    ensures IsPrime(next)
  {
    if !IsPrime(next) {
      var p := PrimeDivisor(next);
    }
  }

  /** next_prime: the least prime that is not below num. (The comment in the source says "larger than".) */
  method NextPrime(num: nat) returns (lastprime: nat)
    ensures IsPrime(lastprime) && num <= lastprime
    ensures forall p: nat :: IsPrime(p) && num <= p ==> lastprime <= p
  {
    TwoIsPrime();
    ghost var goal := PrimeFrom(num);
    lastprime := 2;
    var primes: seq<nat> := [2];
    var next := lastprime + 1;
    while lastprime < num
      invariant 2 <= lastprime < next && PrimesBelow(primes, next) && primes[|primes| - 1] == lastprime
      invariant forall p: nat :: IsPrime(p) && lastprime < p ==> next <= p
      invariant forall p: nat :: IsPrime(p) && num <= p ==> lastprime <= p
      decreases if lastprime < num then goal + 1 - next else -1
    {
      assert next <= goal;
      var found := FindDivisor(primes, next);
      if !found {
        primes := primes + [next];
        lastprime := next;
      }
      next := next + 1;
    }
  }

  lemma TwoIsPrime()
    ensures IsPrime(2)
    ensures PrimesBelow([2], 3)
  {
  }
}
