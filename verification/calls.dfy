/** Positional argument binding with declared defaults: a call supplies a
    prefix of the parameter list and every parameter it leaves out takes its
    declared default. Defaults in the modelled programs are literals, so a
    default is the value itself. */
module Calls {
  import opened Int64

  /** What a parameter declaration says about omitting it. */
  datatype Default = NoDefault | DefaultTo(value: I64)

  datatype Param = Param(name: string, default: Default)

  datatype CallError =
    | TooManyArguments
    | MissingArgument(name: string)

  /** The outcome of binding a call's arguments, or of the call itself. */
  datatype Outcome<T> = Ok(value: T) | Err(error: CallError)

  /** True when every parameter from position `from` on declares a default. */
  predicate DefaultsFrom(params: seq<Param>, from: nat) {
    forall i :: from <= i < |params| ==> params[i].default.DefaultTo?
  }

  /** The parameter values a call with arguments `args` binds. */
  function Bind(params: seq<Param>, args: seq<I64>): (r: Outcome<seq<I64>>)
    ensures r.Ok? <==> |args| <= |params| && DefaultsFrom(params, |args|)
    ensures r.Ok? ==> |r.value| == |params|
    ensures r.Ok? ==> forall i :: 0 <= i < |args| ==> r.value[i] == args[i]
    ensures r.Ok? ==> forall i :: |args| <= i < |params| ==> r.value[i] == params[i].default.value
    ensures |args| > |params| ==> r == Err(TooManyArguments)
    decreases |params|
  {
    if |params| == 0 then
      if |args| == 0 then Ok([]) else Err(TooManyArguments)
    else if |args| == 0 && params[0].default.NoDefault? then
      Err(MissingArgument(params[0].name))
    else
      var first := if |args| == 0 then params[0].default.value else args[0];
      var rest := if |args| == 0 then [] else args[1..];
      match Bind(params[1..], rest)
      case Ok(values) => Ok([first] + values)
      case Err(e) => Err(e)
  }

  /** Parameters whose defaults are written out explicitly all declare one. */
  lemma DefaultsFromExtended(params: seq<Param>, from: nat, extra: seq<I64>)
    requires from + |extra| <= |params|
    requires forall j :: 0 <= j < |extra| ==> params[from + j].default == DefaultTo(extra[j])
    ensures DefaultsFrom(params, from) <==> DefaultsFrom(params, from + |extra|)
  {
    forall i | from <= i < from + |extra|
      ensures params[i].default.DefaultTo?
    {
      assert params[from + (i - from)].default == DefaultTo(extra[i - from]);
    }
  }

  /** Writing out the declared defaults of the next parameters explicitly
      binds exactly what omitting them binds. */
  lemma ExplicitDefaultsBindAlike(params: seq<Param>, args: seq<I64>, extra: seq<I64>)
    requires |args| + |extra| <= |params|
    requires forall j :: 0 <= j < |extra| ==> params[|args| + j].default == DefaultTo(extra[j])
    ensures Bind(params, args + extra).Ok? <==> Bind(params, args).Ok?
    ensures Bind(params, args).Ok? ==> Bind(params, args + extra) == Bind(params, args)
  {
    var n := |args|;
    DefaultsFromExtended(params, n, extra);
    var r1 := Bind(params, args);
    var r2 := Bind(params, args + extra);
    if r1.Ok? {
      assert r2.value == r1.value by {
        forall i | 0 <= i < |params|
          ensures r2.value[i] == r1.value[i]
        {
          if n <= i < n + |extra| {
            assert (args + extra)[i] == extra[i - n];
          }
        }
      }
    }
  }
}
