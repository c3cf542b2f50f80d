/** The program examples/good/fib.rs: a recursive accumulator-passing
    Fibonacci `fib`, an iterative `fib_better` that stops before an i64
    overflow, the two-argument `magic`, and `main`. */
module Fib {
  import opened Int64
  import opened Calls

  /** The two accumulators both strategies carry. */
  datatype State = State(a: int, b: int)

  /** One Fibonacci step (a, b) -> (b, a + b), over unbounded integers. */
  function Step(s: State): State {
    State(s.b, s.a + s.b)
  }

  /** `k` Fibonacci steps from `s`. */
  function Iterate(k: nat, s: State): State
    decreases k
  {
    if k == 0 then s else Iterate(k - 1, Step(s))
  }

  /** The Fibonacci numbers, with Fibonacci(1) == Fibonacci(2) == 1. */
  function Fibonacci(k: nat): nat {
    if k < 2 then k else Fibonacci(k - 1) + Fibonacci(k - 2)
  }

  /** Taking `j` steps and then `k` more is taking `j + k` steps. */
  lemma {:induction false} IterateCompose(j: nat, k: nat, s: State)
    ensures Iterate(j + k, s) == Iterate(k, Iterate(j, s))
  {
    if j > 0 {
      IterateCompose(j - 1, k, Step(s));
    }
  }

  /** The last of k + 1 steps is one step from the state after k. */
  lemma StepLast(k: nat, s: State)
    ensures Iterate(k + 1, s) == Step(Iterate(k, s))
  {
    IterateCompose(k, 1, s);
  }

  /** From (1, 1), k steps reach the consecutive Fibonacci numbers k+1 and k+2. */
  lemma {:induction false} IterateFromOnes(k: nat)
    ensures Iterate(k, State(1, 1)) == State(Fibonacci(k + 1), Fibonacci(k + 2))
  {
    if k > 0 {
      IterateFromOnes(k - 1);
      StepLast(k - 1, State(1, 1));
    }
  }

  /** From a state with 0 <= a <= b, the second component never decreases. */
  lemma {:induction false} IterateGrows(k: nat, s: State)
    requires 0 <= s.a <= s.b
    ensures s.b <= Iterate(k, s).b
  {
    if k > 0 {
      IterateGrows(k - 1, Step(s));
    }
  }

  /** Steps keep 0 <= a <= b. */
  lemma {:induction false} IterateOrdered(k: nat, s: State)
    requires 0 <= s.a <= s.b
    ensures 0 <= Iterate(k, s).a <= Iterate(k, s).b
  {
    if k > 0 {
      IterateOrdered(k - 1, Step(s));
    }
  }

  /** Every sum `a + b` formed during the first k steps from `s` fits in an i64. */
  predicate SumsInRange(k: nat, s: State) {
    forall j :: 0 <= j < k ==> InRange(Iterate(j, s).a + Iterate(j, s).b)
  }

  lemma {:induction false} SumsInRangeShift(k: nat, s: State)
    requires SumsInRange(k + 1, s)
    ensures InRange(s.a + s.b)
    ensures SumsInRange(k, Step(s))
  {
    assert Iterate(0, s) == s;
    forall j | 0 <= j < k
      ensures InRange(Iterate(j, Step(s)).a + Iterate(j, Step(s)).b)
    {
      assert Iterate(j + 1, s) == Iterate(j, Step(s));
    }
  }

  /** The number of times a loop `for i = 0, i < n, i++` runs its body. */
  function Rounds(n: int): nat {
    if n <= 0 then 0 else n
  }

  // ---------------------------------------------------------------------
  // fib (fib.rs lines 2-7)

  /** `fib` as written, with its `a + b` computed in i64. It recurses on
      `n - 1` only while `0 < n`, so `n` bounds the recursion. */
  function Fib(n: I64, a: I64, b: I64): I64
    decreases n
  {
    if 0 < n then Fib(n - 1, b, Wrap(a + b)) else Wrap(a + b)
  }

  /** `fib(n, a, b)` takes Rounds(n) Fibonacci steps from (a, b) and returns
      the i64 wrap of the sum of the state it reaches: each recursive call
      takes one step and the base case returns `a + b`. Wrapping every
      intermediate sum, as the i64 arithmetic does, yields the same result
      as wrapping only the final one. */
  lemma FibIsIteration(n: I64, a: I64, b: I64)
    ensures Fib(n, a, b) == Wrap(Iterate(Rounds(n), State(a, b)).a + Iterate(Rounds(n), State(a, b)).b)
  {
    FibTracksUnbounded(n, a, b, State(a, b));
  }

  /** The induction behind FibIsIteration: the accumulators of `fib` are the
      i64 wraps of an unbounded Fibonacci state `t`. */
  lemma {:induction false} FibTracksUnbounded(n: I64, a: I64, b: I64, t: State)
    requires Wrap(t.a) == a && Wrap(t.b) == b
    ensures Fib(n, a, b) == Wrap(Iterate(Rounds(n), t).a + Iterate(Rounds(n), t).b)
  {
    WrapAdd(t.a, t.b);
    if 0 < n {
      FibTracksUnbounded(n - 1, b, Wrap(a + b), Step(t));
    }
  }

  /** `fib(5, 1, 1)`, the call `fib()` makes with all defaults, is 21. */
  lemma FibOfDefaults()
    ensures Fib(5, 1, 1) == 21
  {
  }

  // ---------------------------------------------------------------------
  // fib_better (fib.rs lines 9-26)

  /** The loop of `fib_better` as a pure recursion: at most `fuel` steps,
      stopping at the first state whose sum `a + b` exceeds the i64 maximum. */
  function Run(fuel: nat, s: State): State
    decreases fuel
  {
    if fuel == 0 || s.a + s.b > MAX then s else Run(fuel - 1, Step(s))
  }

  /** `fib_better` as written. The overflow guard `a + b < 0` is the sign of
      the wrapped i64 sum; when it fires the loop breaks and the current `b`
      is returned. */
  method FibBetter(n: I64) returns (r: I64)
    ensures r == Run(Rounds(n), State(1, 1)).b
    ensures 1 <= r
    ensures n <= 0 ==> r == 1
    ensures n <= 90 ==> r == Fibonacci(Rounds(n) + 2)
    ensures n >= 90 ==> r == LastB
  {
    var a: I64 := 1;
    var b: I64 := 1;
    var i: I64 := 0;
    while i < n
      invariant 0 <= i <= Rounds(n)
      invariant 1 <= a <= b
      invariant State(a, b) == Iterate(i, State(1, 1))
      invariant Run(Rounds(n), State(1, 1)) == Run(Rounds(n) - i, State(a, b))
      decreases n - i
    {
      GuardDetectsOverflow(a, b);
      if Wrap(a + b) < 0 {
        break;
      }
      var c: I64 := Wrap(a + b);
      StepLast(i, State(1, 1));
      a := b;
      b := c;
      i := i + 1;
    }
    r := b;
    if n >= 90 {
      FibBetterSaturates(Rounds(n));
    }
    if n <= 90 {
      FibBetterIsFibonacci(n);
    }
  }

  /** Every state the loop can stop in holds 1 <= a <= b <= MAX: the guard
      keeps the stored values inside the i64 range. */
  lemma {:induction false} RunStaysInRange(fuel: nat, s: State)
    requires 1 <= s.a <= s.b <= MAX
    ensures 1 <= Run(fuel, s).a <= Run(fuel, s).b <= MAX
  {
    if fuel > 0 && s.a + s.b <= MAX {
      RunStaysInRange(fuel - 1, Step(s));
    }
  }

  /** When no sum overflows, the guard never fires and the loop is exactly
      `fuel` Fibonacci steps. */
  lemma {:induction false} RunWithoutOverflow(fuel: nat, s: State)
    requires SumsInRange(fuel, s)
    ensures Run(fuel, s) == Iterate(fuel, s)
  {
    if fuel > 0 {
      SumsInRangeShift(fuel - 1, s);
      RunWithoutOverflow(fuel - 1, Step(s));
    }
  }

  /** Running `j` rounds and then `k` more is running `j + k` rounds: once
      the guard fires in a state it fires there again. */
  lemma {:induction false} RunCompose(j: nat, k: nat, s: State)
    ensures Run(j + k, s) == Run(k, Run(j, s))
  {
    if j > 0 && s.a + s.b <= MAX {
      RunCompose(j - 1, k, Step(s));
    }
  }

  /** The largest Fibonacci pair an i64 holds: Fibonacci(91) and
      Fibonacci(92). Their sum Fibonacci(93) exceeds the i64 maximum. */
  const LastA: int := 4660046610375530309
  const LastB: int := 7540113804746346429

  /** Five steps from (a, b) reach (3a + 5b, 5a + 8b). */
  lemma FiveSteps(s: State)
    ensures Iterate(5, s) == State(3 * s.a + 5 * s.b, 5 * s.a + 8 * s.b)
  {
    var s4 := Step(Step(Step(Step(s))));
    assert Iterate(5, s) == Iterate(1, s4);
  }

  /** Ten steps from (a, b) reach (34a + 55b, 55a + 89b). */
  lemma TenSteps(s: State)
    ensures Iterate(10, s) == State(34 * s.a + 55 * s.b, 55 * s.a + 89 * s.b)
  {
    IterateCompose(5, 5, s);
    FiveSteps(s);
    FiveSteps(Iterate(5, s));
  }

  /** Ninety steps from (1, 1) reach (LastA, LastB). */
  lemma IterateNinety()
    ensures Iterate(90, State(1, 1)) == State(LastA, LastB)
    ensures LastA + LastB > MAX
    ensures LastA == Fibonacci(91) && LastB == Fibonacci(92)
  {
    var s0 := State(1, 1);
    TenSteps(s0);
    TenSteps(Iterate(10, s0));
    IterateCompose(10, 10, s0);
    TenSteps(Iterate(20, s0));
    IterateCompose(20, 10, s0);
    TenSteps(Iterate(30, s0));
    IterateCompose(30, 10, s0);
    TenSteps(Iterate(40, s0));
    IterateCompose(40, 10, s0);
    TenSteps(Iterate(50, s0));
    IterateCompose(50, 10, s0);
    TenSteps(Iterate(60, s0));
    IterateCompose(60, 10, s0);
    TenSteps(Iterate(70, s0));
    IterateCompose(70, 10, s0);
    TenSteps(Iterate(80, s0));
    IterateCompose(80, 10, s0);
    IterateFromOnes(90);
  }

  /** No sum formed in the first 90 steps from (1, 1) overflows. */
  lemma SumsInRangeFromOnes()
    ensures SumsInRange(90, State(1, 1))
  {
    var s0 := State(1, 1);
    IterateNinety();
    forall j | 0 <= j < 90
      ensures InRange(Iterate(j, s0).a + Iterate(j, s0).b)
    {
      IterateOrdered(j, s0);
      StepLast(j, s0);
      IterateCompose(j + 1, 90 - (j + 1), s0);
      IterateOrdered(j + 1, s0);
      IterateGrows(90 - (j + 1), Iterate(j + 1, s0));
    }
  }

  /** For `n <= 90` the guard never fires and `fib_better(n)` returns
      Fibonacci(max(n, 0) + 2): 1 for every n <= 0. */
  lemma FibBetterIsFibonacci(n: int)
    requires n <= 90
    ensures Run(Rounds(n), State(1, 1)).b == Fibonacci(Rounds(n) + 2)
  {
    SumsInRangeFromOnes();
    assert SumsInRange(Rounds(n), State(1, 1));
    RunWithoutOverflow(Rounds(n), State(1, 1));
    IterateFromOnes(Rounds(n));
  }

  /** From the 90th round on, the guard fires at once: `fib_better(n)` for
      every `n >= 90` returns LastB, the largest Fibonacci number an i64
      holds, instead of overflowing. */
  lemma FibBetterSaturates(fuel: nat)
    requires fuel >= 90
    ensures Run(fuel, State(1, 1)) == State(LastA, LastB)
  {
    SumsInRangeFromOnes();
    RunWithoutOverflow(90, State(1, 1));
    IterateNinety();
    RunCompose(90, fuel - 90, State(1, 1));
  }

  /** The two strategies agree: `fib(n, 1, 1)` equals the value
      `fib_better(n + 1)` returns, and both are Fibonacci(n + 3), for every
      `n` up to 89. */
  lemma FibAgreesWithFibBetter(n: int)
    requires 0 <= n <= 89
    ensures Fib(n, 1, 1) == Run(Rounds(n + 1), State(1, 1)).b
    ensures Fib(n, 1, 1) == Fibonacci(n + 3)
  {
    var s0 := State(1, 1);
    SumsInRangeFromOnes();
    assert SumsInRange(n + 1, s0);
    var t := Iterate(n, s0);
    assert InRange(t.a + t.b);
    FibIsIteration(n, 1, 1);
    assert Fib(n, 1, 1) == t.a + t.b;
    StepLast(n, s0);
    RunWithoutOverflow(n + 1, s0);
    assert Run(Rounds(n + 1), s0).b == t.a + t.b;
    IterateFromOnes(n + 1);
  }

  /** `fib` has no guard: from n = 90 on its last sum overflows, and
      `fib(90, 1, 1)` wraps to a negative number where `fib_better(91)`
      stops at LastB. */
  lemma FibWrapsAt90()
    ensures Fib(90, 1, 1) == LastA + LastB - MODULUS
    ensures Fib(90, 1, 1) < 0
  {
    IterateNinety();
    assert Rounds(90) == 90;
    FibIsIteration(90, 1, 1);
    assert Fib(90, 1, 1) == Wrap(LastA + LastB);
    WrapOverflowed(LastA + LastB);
  }

  // ---------------------------------------------------------------------
  // magic (fib.rs lines 28-30)

  /** `magic(a, b)` returns its first argument; `b` is never read. */
  function Magic(a: I64, b: I64): I64 {
    a
  }

  /** Whatever is passed for `b`, `magic(a, b)` is `a`. */
  lemma MagicIgnoresSecond(a: I64, b1: I64, b2: I64)
    ensures Magic(a, b1) == Magic(a, b2) == a
  {
  }

  // ---------------------------------------------------------------------
  // Calls with default arguments (fib.rs lines 2, 9, 28, 33)

  const FibParams: seq<Param> := [Param("n", DefaultTo(5)), Param("a", DefaultTo(1)), Param("b", DefaultTo(1))]
  const FibBetterParams: seq<Param> := [Param("n", DefaultTo(5))]
  const MagicParams: seq<Param> := [Param("a", NoDefault), Param("b", NoDefault)]

  /** A call `fib(args...)`: up to three arguments, the rest defaulted. */
  function CallFib(args: seq<I64>): (r: Outcome<I64>)
    ensures r.Ok? <==> |args| <= 3
    ensures |args| == 3 ==> r == Ok(Fib(args[0], args[1], args[2]))
    ensures |args| == 2 ==> r == Ok(Fib(args[0], args[1], 1))
    ensures |args| == 1 ==> r == Ok(Fib(args[0], 1, 1))
    ensures |args| == 0 ==> r == Ok(21)
  {
    match Bind(FibParams, args)
    case Ok(v) => Ok(Fib(v[0], v[1], v[2]))
    case Err(e) => Err(e)
  }

  /** A call `fib_better(args...)`: at most one argument, defaulting to 5. */
  method CallFibBetter(args: seq<I64>) returns (r: Outcome<I64>)
    ensures r.Ok? <==> |args| <= 1
    ensures |args| == 1 ==> r == Ok(Run(Rounds(args[0]), State(1, 1)).b)
    ensures |args| == 0 ==> r == Ok(13)
  {
    var bound := Bind(FibBetterParams, args);
    match bound
    case Ok(v) =>
      var x := FibBetter(v[0]);
      r := Ok(x);
    case Err(e) =>
      r := Err(e);
  }

  /** A call `magic(args...)`: neither parameter has a default, so exactly
      two arguments are needed, and the first is the result. */
  function CallMagic(args: seq<I64>): (r: Outcome<I64>)
    ensures r.Ok? <==> |args| == 2
    ensures r.Ok? ==> r.value == args[0]
    ensures |args| < 2 ==> r.Err? && r.error.MissingArgument?
  {
    match Bind(MagicParams, args)
    case Ok(v) => Ok(Magic(v[0], v[1]))
    case Err(e) => Err(e)
  }

  /** `main` prints `fib_better(5)`; the value printed is 13. */
  method FibProgramMain() returns (printed: I64)
    ensures printed == 13
  {
    printed := FibBetter(5);
  }
}
