/**
 * Fibonacci and Lucas numbers: the reference recurrences, the literal lists the
 * scripts test membership in, and the extension of the Fibonacci numbers to
 * negative indices.
 */
module FibonacciNumbers {

  /** F(0) = 0, F(1) = 1, F(n) = F(n - 1) + F(n - 2). */
  function Fib(n: nat): nat
  {
    if n < 2 then n else Fib(n - 1) + Fib(n - 2)
  }

  /** L(0) = 2, L(1) = 1, L(n) = L(n - 1) + L(n - 2). */
  function Lucas(n: nat): nat
  {
    if n == 0 then 2 else if n == 1 then 1 else Lucas(n - 1) + Lucas(n - 2)
  }

  /** Each Lucas number is the sum of the two Fibonacci numbers around it. */
  lemma {:induction false} LucasFromFib(n: nat)
    requires n >= 1
    ensures Lucas(n) == Fib(n - 1) + Fib(n + 1)
  {
    if n >= 3 {
      LucasFromFib(n - 1);
      LucasFromFib(n - 2);
    }
  }

  /** The Fibonacci list of the scripts, F(0) .. F(12). */
  const FibonacciList: seq<int> := [0, 1, 1, 2, 3, 5, 8, 13, 21, 34, 55, 89, 144]

  /** The Lucas list of the scripts, L(0) .. L(10). */
  const LucasList: seq<int> := [2, 1, 3, 4, 7, 11, 18, 29, 47, 76, 123]

  /** The Fibonacci list holds F(0) .. F(12), in index order. */
  lemma FibonacciListIsFib()
    ensures forall i :: 0 <= i < |FibonacciList| ==> FibonacciList[i] == Fib(i)
  {
    assert Fib(10) == 55 && Fib(11) == 89;
  }

  /** The Lucas list holds L(0) .. L(10), in index order. */
  lemma LucasListIsLucas()
    ensures forall i :: 0 <= i < |LucasList| ==> LucasList[i] == Lucas(i)
  {
    assert Lucas(8) == 47 && Lucas(9) == 76;
  }

  /** The values on both lists are exactly 1, 2 and 3. */
  lemma ListsOverlap(k: int)
    ensures k in FibonacciList && k in LucasList <==> 1 <= k <= 3
  {
  }

  /** `F(-m) = (-1)^(m + 1) * F(m)`: the Fibonacci numbers extended to all integer indices. */
  function ExtFib(n: int): (v: int)
  {
    if n >= 0 then Fib(n)
    else if (-n) % 2 == 1 then Fib(-n) else -(Fib(-n) as int)
  }

  /** The extension keeps the recurrence at every integer index, negative ones included. */
  lemma ExtFibRecurrence(n: int)
    ensures ExtFib(n + 1) == ExtFib(n) + ExtFib(n - 1)
  {
    if n <= -1 {
      var m := -n;
      assert Fib(m + 1) == Fib(m) + Fib(m - 1);
    }
  }
}
