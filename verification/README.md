# uw_dust example programs, modelled in Dafny

The repository describes a small imperative language through example
programs. The two programs that must run, `examples/good/fib.rs` and
`examples/good/struct.rs`, are modelled here. Their operations become Dafny
functions and one method, and their behaviour is proved.

- `fib.dfy` (module `Fib`) covers `fib.rs`:
  - `fib` is the recursive accumulator-passing Fibonacci with defaulted parameters.
  - `fib_better` is the iterative version. Its loop breaks when `a + b` would overflow.
  - `magic` returns its first argument and never reads the second.
  - `main` prints `fib_better(5)`.
- `rectangle.dfy` (module `Rectangles`) covers `struct.rs`: the `Rectangle` record,
  `rectangle_new`, `rectangle_area` and `main`.
- `int64.dfy` (module `Int64`) holds the language's `int`: a signed 64-bit
  integer with two's-complement wrap-around, made explicit by `Wrap`.
- `calls.dfy` (module `Calls`) holds positional argument binding with
  declared defaults. Every call with omitted arguments goes through it.
  Its `Outcome` type carries either the bound values or the call error.

Reference definitions the proofs compare against:
- `Step` is one Fibonacci step `(a, b) -> (b, a + b)` over unbounded integers.
- `Iterate` applies `Step` k times.
- `Fibonacci` is the textbook sequence.
- `Run` is the loop of `fib_better` as a pure recursion that stops at the
  first state whose sum exceeds the i64 maximum.

Traced from the code, `fib()` = `fib(5, 1, 1)` = 21 and `fib_better()` =
`fib_better(5)` = 13, the value `main` prints.

The guard `a + b < 0` on line 15 of `fib.rs` only detects overflow if `+`
wraps around. The model therefore computes the guard literally, as the sign
of the wrapped sum. `Int64.GuardDetectsOverflow` proves this equals
"`a + b` exceeds the i64 maximum" for the non-negative values the loop holds.
The same wrap-around is used for `+` in `fib` and for `*` in `rectangle_area`.

The results proved about the two Fibonacci strategies:
- `fib(n, 1, 1) == fib_better(n + 1) == Fibonacci(n + 3)` for `0 <= n <= 89`.
- `fib_better(n)` is `Fibonacci(n + 2)` for `0 <= n <= 90`, and 1 for `n <= 0`.
- For `n >= 90`, `fib_better(n)` returns 7540113804746346429. This is
  Fibonacci(92), the largest Fibonacci number an i64 holds.
- For every i64 input, `fib(n, a, b)` is the wrap of the sum reached after
  max(n, 0) Fibonacci steps from (a, b). It has no guard, so `fib(90, 1, 1)`
  wraps to a negative number.

## Model

| member | source | states |
|---|---|---|
| Int64.GuardDetectsOverflow | examples/good/fib.rs:15-17 | for non-negative i64 `a`, `b`, the wrapped sum is negative iff the true sum exceeds the i64 maximum; otherwise the stored sum is exact |
| Calls.Bind | examples/good/fib.rs:2 | a call binds iff it gives no more arguments than parameters and every omitted parameter has a default; given arguments fill the first positions and each omitted parameter gets its default; too many arguments is an error |
| Calls.ExplicitDefaultsBindAlike | examples/good/fib.rs:9 | passing a parameter's declared default explicitly binds exactly what omitting it binds |
| Fib.Fib | examples/good/fib.rs:2-7 | no contract of its own: the body is `fib` with `+` computed as `Int64.Wrap` and recursion bounded by `n`; `Fib.FibIsIteration` states what it computes |
| Fib.FibIsIteration | examples/good/fib.rs:2-7 | for every i64 `n`, `a`, `b`, `fib(n, a, b)` takes max(n, 0) Fibonacci steps from (a, b) and returns the i64 wrap of the sum of the reached state; wrapping each intermediate sum gives the same result as wrapping only the last |
| Fib.FibOfDefaults | examples/good/fib.rs:2 | `fib(5, 1, 1)` is 21 |
| Fib.FibWrapsAt90 | examples/good/fib.rs:3-6 | `fib` has no overflow guard: `fib(90, 1, 1)` is Fibonacci(93) minus 2^64, a negative number |
| Fib.FibBetter | examples/good/fib.rs:9-26 | the loop with its overflow break returns the `b` of the state `Run` reaches from (1, 1) in max(n, 0) rounds; the result is at least 1; it is 1 for `n <= 0`, Fibonacci(max(n, 0) + 2) for `n <= 90`, and 7540113804746346429 for `n >= 90` |
| Fib.RunStaysInRange | examples/good/fib.rs:14-22 | from 1 <= a <= b <= MAX, every state the loop stops in keeps 1 <= a <= b <= MAX, so no stored value exceeds the i64 maximum |
| Fib.RunWithoutOverflow | examples/good/fib.rs:14-23 | when no sum overflows, the guard never fires and the loop is exactly `fuel` Fibonacci steps |
| Fib.FibBetterIsFibonacci | examples/good/fib.rs:9-26 | for `n <= 90` the guard never fires and `fib_better(n)` is Fibonacci(max(n, 0) + 2) |
| Fib.FibBetterSaturates | examples/good/fib.rs:15-17 | from round 90 on the guard fires and the loop stays at (Fibonacci(91), Fibonacci(92)) |
| Fib.FibAgreesWithFibBetter | examples/good/fib.rs:2-26 | for `0 <= n <= 89`, `fib(n, 1, 1)` equals `fib_better(n + 1)` and Fibonacci(n + 3) |
| Fib.Magic | examples/good/fib.rs:28-30 | no contract of its own: the body returns the first argument; `Fib.MagicIgnoresSecond` and `Fib.CallMagic` state what it computes |
| Fib.MagicIgnoresSecond | examples/good/fib.rs:28-30 | `magic(a, b)` is `a` whatever `b` is: the second parameter is never read |
| Fib.CallFib | examples/good/fib.rs:2-7 | a call to `fib` with up to three arguments succeeds and equals the call with the missing ones written as 5, 1, 1; `fib()` is 21; four or more arguments are an error |
| Fib.CallFibBetter | examples/good/fib.rs:9-26 | a call to `fib_better` with at most one argument succeeds; `fib_better()` is 13, the same as `fib_better(5)` |
| Fib.CallMagic | examples/good/fib.rs:28-30 | `magic` has no defaults: exactly two arguments are needed, fewer is a missing-argument error, and the result is the first argument |
| Fib.FibProgramMain | examples/good/fib.rs:32-34 | `main` prints 13 |
| Rectangles.RectangleNew | examples/good/struct.rs:11-16 | `rectangle_new(x, y)` has `.x == x` and `.y == y` |
| Rectangles.NewIgnoresUninitialised | examples/good/struct.rs:12-15 | the constructor's result does not depend on what the uninitialised local held; it is `Rectangle(x, y)` |
| Rectangles.RectangleArea | examples/good/struct.rs:7-9 | the area is `r.x * r.y` when that fits in an i64, and always congruent to it modulo 2^64 |
| Rectangles.AreaOfNew | examples/good/struct.rs:7-16 | round trip: the area of `rectangle_new(x, y)` is `x * y` when that fits in an i64 |
| Rectangles.RectangleProgramMain | examples/good/struct.rs:18-21 | `main` prints 200, and the caller's `r` is still `Rectangle(10, 20)` after it is passed by value to `rectangle_area` |

## Left out

- `examples/bad/1.rs`: the programs the language must reject. No lexer, parser, checker or evaluator exists to model their rejection.
- The interpreter itself (tokenizer, syntax tree, scope frames, fault phases): there is no source for it.
- `print`: each `main` is modelled as returning the value it would print.
- Default values are literals in these programs. A default is bound as its value, not as an expression evaluated at call time.
- The uninitialised `c: int;` in `fib_better` is written before it is read on every path. The model declares `c` where it is first assigned.
- `i++` in `fib_better` is computed without wrap-around: `i < n` holds before each increment, so `i + 1` never exceeds the i64 maximum.
- Rectangles.RectangleArea: the overflow case is stated as congruence modulo 2^64, as `Int64.Wrap` defines it. The language's own overflow semantics for `*` is not written down anywhere.
- Value semantics of `rectangle_area`'s argument holds by construction: Dafny datatypes are immutable.
