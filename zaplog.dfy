/**
 The free function `Zap` (zaplog.go): a second field extraction that walks
 from the error itself rather than from its cause.
 */
module ZapLog {
  import opened Wrappers
  import opened Errors
  import opened Walk
  import opened LogFields

  /** `c.Advice()` when `err.(Error)` holds, that is for humane errors; nothing otherwise. */
  function InterfaceAdvice(e: Error): seq<string>
  {
    match e
    case Humane(h) => h.advice
    case Foreign(_, _, _, _, _) => []
  }

  /** The advice of the humane elements of `chain`, concatenated in chain order. */
  function ChainAdvice(chain: seq<Error>): seq<string>
  {
    if chain == [] then [] else InterfaceAdvice(chain[0]) + ChainAdvice(chain[1..])
  }

  /** The fields `Zap(e)` returns: the chain from `e` itself, with its head dropped from "causes". */
  function ZapFields(e: Error): seq<Field>
  {
    var chain := Chain(Some(e));
    [ErrorOf(ErrorMessage(e)), StringsField("advice", ChainAdvice(chain)), ErrorsField("causes", chain[1..])]
  }

  /** `Zap(e)`. A nil `e` is excluded by the parameter type: the source calls `e.Error()` on it. */
  method Zap(e: Error) returns (fields: seq<Field>)
    ensures fields == ZapFields(e)
  {
    var advice: seq<string> := [];
    var causes: seq<Error> := [];
    var err := Some(e);
    ghost var whole := Chain(err);
    while err.Some?
      invariant causes + Chain(err) == whole
      invariant advice == ChainAdvice(causes)
      decreases if err.Some? then Depth(err.value) else 0
    {
      var current := err.value;
      ZapStep(whole, causes, current);
      causes := causes + [current];
      if current.Humane? {
        advice := advice + current.h.advice;
      }
      err := Unwrap(current);
    }
    assert causes == whole;
    fields := [ErrorOf(ErrorMessage(e)), StringsField("advice", advice), ErrorsField("causes", causes[1..])];
  }

  /** One iteration of `Zap`'s loop keeps the walked prefix and its advice in step with the chain. */
  lemma ZapStep(whole: seq<Error>, causes: seq<Error>, current: Error)
    requires causes + Chain(Some(current)) == whole
    ensures (causes + [current]) + Chain(Unwrap(current)) == whole
    ensures ChainAdvice(causes + [current]) == ChainAdvice(causes) + InterfaceAdvice(current)
  {
    assert Chain(Some(current)) == [current] + Chain(Unwrap(current));
    assert (causes + [current]) + Chain(Unwrap(current)) == causes + ([current] + Chain(Unwrap(current)));
    ChainAdviceSnoc(causes, current);
  }

  /** Appending an error puts its advice last, as the loop's `append` does. */
  lemma {:induction false} ChainAdviceSnoc(chain: seq<Error>, x: Error)
    ensures ChainAdvice(chain + [x]) == ChainAdvice(chain) + InterfaceAdvice(x)
  {
    if chain == [] {
      assert [] + [x] == [x];
    } else {
      var c := chain + [x];
      assert c[0] == chain[0];
      assert c[1..] == chain[1..] + [x];
      ChainAdviceSnoc(chain[1..], x);
      var a, rest := InterfaceAdvice(chain[0]), ChainAdvice(chain[1..]);
      assert ChainAdvice(c) == a + (rest + InterfaceAdvice(x));
      assert a + (rest + InterfaceAdvice(x)) == (a + rest) + InterfaceAdvice(x);
    }
  }

  lemma {:induction false} ForeignChainHasNoAdvice(chain: seq<Error>)
    requires forall i :: 0 <= i < |chain| ==> chain[i].Foreign?
    ensures ChainAdvice(chain) == []
  {
    if chain != [] {
      ForeignChainHasNoAdvice(chain[1..]);
    }
  }

  /** When every element but the last is foreign, the chain's advice is the last element's. */
  lemma {:induction false} AdviceOfLastOnly(chain: seq<Error>)
    requires |chain| > 0
    requires forall i :: 0 <= i < |chain| - 1 ==> chain[i].Foreign?
    ensures ChainAdvice(chain) == InterfaceAdvice(chain[|chain| - 1])
  {
    if |chain| == 1 {
      assert chain[1..] == [];
    } else {
      assert chain[0].Foreign?;
      var rest := chain[1..];
      assert forall i :: 0 <= i < |rest| - 1 ==> rest[i] == chain[i + 1];
      AdviceOfLastOnly(rest);
      assert rest[|rest| - 1] == chain[|chain| - 1];
    }
  }

  /**
   `Zap` returns three fields, "error" then "advice" then "causes"; the
   causes are the unwrap chain after `e`, and since only the last element of
   a chain can be humane, the advice is that element's own advice when it is
   humane and empty otherwise.
   */
  lemma ZapShape(e: Error)
    ensures var f := ZapFields(e); var chain := Chain(Some(e)); var last := chain[|chain| - 1];
            && |f| == 3
            && f[0] == ErrorField("error", ErrorMessage(e))
            && f[1] == StringsField("advice", if last.Humane? then last.h.advice else [])
            && f[2] == ErrorsField("causes", Chain(Unwrap(e)))
  {
    ChainOfSome(e);
    ChainIsForeignBeforeItsEnd(Some(e));
    AdviceOfLastOnly(Chain(Some(e)));
  }

  /**
   For a humane error `Zap` reports no causes at all and only the error's own
   advice, because the walk stops at the head.
   */
  lemma ZapOfHumane(h: HumaneError)
    ensures ZapFields(Humane(h)) ==
            [ErrorField("error", h.message), StringsField("advice", h.advice), ErrorsField("causes", [])]
  {
    var chain := Chain(Some(Humane(h)));
    assert chain == [Humane(h)] + Chain(None);
    assert chain == [Humane(h)];
    assert ChainAdvice([Humane(h)]) == h.advice + ChainAdvice([]);
    assert chain[1..] == [];
    var f := ZapFields(Humane(h));
    assert |f| == 3;
    assert f[0] == ErrorField("error", h.message);
    assert f[1] == StringsField("advice", h.advice);
    assert f[2] == ErrorsField("causes", []);
  }

  /** For a chain with no humane error, `Zap` reports no advice and every error after the head as a cause. */
  lemma ZapOfPlainChain(e: Error)
    requires forall i :: 0 <= i < |Chain(Some(e))| ==> Chain(Some(e))[i].Foreign?
    ensures ZapFields(e) ==
            [ErrorField("error", ErrorMessage(e)), StringsField("advice", []), ErrorsField("causes", Chain(Unwrap(e)))]
  {
    ForeignChainHasNoAdvice(Chain(Some(e)));
  }
}
