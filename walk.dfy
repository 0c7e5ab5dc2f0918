/**
 The cause-chain walk that `Display` and `IntoZapLog` both perform
 (error.go, the two `for cause != nil` loops), factored into one method and
 specified by closed-form functions.
 */
module Walk {
  import opened Wrappers
  import opened Errors

  /**
   The errors visited by a loop that starts at `start` and steps with
   `errors.Unwrap` until it reaches nil: `start`, its unwrap, the unwrap of
   that, and so on.
   */
  function Chain(start: Option<Error>): (r: seq<Error>)
    decreases if start.Some? then Depth(start.value) else 0
  {
    match start
    case None => []
    case Some(e) => [e] + Chain(Unwrap(e))
  }

  /**
   The chain is empty exactly for a nil start; otherwise it begins with the
   start, each element is the unwrap of the one before, and the last element
   unwraps to nil.
   */
  lemma {:induction false} ChainSteps(start: Option<Error>)
    ensures var r := Chain(start);
            && (|r| == 0 <==> start.None?)
            && (start.Some? ==> r[0] == start.value)
            && (forall i :: 0 <= i < |r| - 1 ==> Unwrap(r[i]) == Some(r[i + 1]))
            && (|r| > 0 ==> Unwrap(r[|r| - 1]).None?)
    decreases if start.Some? then Depth(start.value) else 0
  {
    match start
    case None =>
    case Some(e) =>
      var rest := Chain(Unwrap(e));
      ChainSteps(Unwrap(e));
      var r := [e] + rest;
      forall i | 0 <= i < |r| - 1
        ensures Unwrap(r[i]) == Some(r[i + 1])
      {
        if i > 0 {
          assert r[i] == rest[i - 1] && r[i + 1] == rest[i];
        }
      }
  }

  /** A chain from an error is that error followed by the chain from its unwrap. */
  lemma ChainOfSome(e: Error)
    ensures |Chain(Some(e))| > 0
    ensures Chain(Some(e))[0] == e
    ensures Chain(Some(e))[1..] == Chain(Unwrap(e))
  {
    assert Chain(Some(e)) == [e] + Chain(Unwrap(e));
  }

  /** Only the last error of a chain can be humane, since a humane error does not unwrap. */
  lemma ChainIsForeignBeforeItsEnd(start: Option<Error>)
    ensures var c := Chain(start); forall i :: 0 <= i < |c| - 1 ==> c[i].Foreign?
  {
    ChainSteps(start);
  }

  /** `k` copies of `s`, one after the other. */
  function Copies(s: seq<string>, k: nat): seq<string>
  {
    if k == 0 then [] else s + Copies(s, k - 1)
  }

  /** The rendering context: aggregated advice and the causes, outermost first. */
  datatype Context = Context(advice: seq<string>, causes: seq<Error>)

  /**
   What the walk computes, as written in the source: the causes are the chain
   from the immediate cause, and on every step the advice of the head's
   IMMEDIATE cause (when it has an `Advice` method) is prepended once more.
   */
  function ContextOf(e: HumaneError): Context
  {
    var causes := Chain(e.cause);
    match AdviceProbe(e.cause)
    case Some(p) => Context(Copies(p, |causes|) + e.advice, causes)
    case None => Context(e.advice, causes)
  }

  /** The shared loop of `Display` and `IntoZapLog`. */
  method CollectContext(e: HumaneError) returns (ctx: Context)
    ensures ctx == ContextOf(e)
  {
    var causes: seq<Error> := [];
    var advice := e.advice;
    var cause := e.cause;
    while cause.Some?
      invariant causes + Chain(cause) == Chain(e.cause)
      invariant advice == match AdviceProbe(e.cause)
                          case Some(p) => Copies(p, |causes|) + e.advice
                          case None => e.advice
      decreases if cause.Some? then Depth(cause.value) else 0
    {
      var current := cause.value;
      assert Chain(cause) == [current] + Chain(Unwrap(current));
      causes := causes + [current];
      var probe := AdviceProbe(e.cause);
      if probe.Some? {
        advice := probe.value + advice;
      }
      cause := Unwrap(current);
    }
    ctx := Context(advice, causes);
  }

  /** Without a cause there is nothing to walk: no causes, and only the error's own advice. */
  lemma UncausedContext(e: HumaneError)
    requires e.cause.None?
    ensures ContextOf(e) == Context(e.advice, [])
  {
  }

  /**
   A humane immediate cause ends the walk after one step: the causes are just
   that cause, and the advice is its advice followed by the head's own.
   */
  lemma HumaneCauseContext(e: HumaneError, inner: HumaneError)
    requires e.cause == Some(Humane(inner))
    ensures ContextOf(e) == Context(inner.advice + e.advice, [Humane(inner)])
  {
    assert Chain(e.cause) == [Humane(inner)];
    assert Copies(inner.advice, 1) == inner.advice;
  }

  /** `|Copies(s, k)|` is `k` times `|s|`. */
  lemma {:induction false} CopiesLength(s: seq<string>, k: nat)
    ensures |Copies(s, k)| == k * |s|
  {
    if k > 0 {
      CopiesLength(s, k - 1);
    }
  }

  /** `k` copies split anywhere into `j` copies followed by `k - j` copies. */
  lemma {:induction false} CopiesSplit(s: seq<string>, k: nat, j: nat)
    requires j <= k
    ensures Copies(s, k) == Copies(s, j) + Copies(s, k - j)
  {
    if j > 0 {
      CopiesSplit(s, k - 1, j - 1);
      assert Copies(s, k) == s + Copies(s, k - 1);
      assert Copies(s, j) == s + Copies(s, j - 1);
    }
  }

  /** The `j`-th block of `|s|` entries of `Copies(s, k)` is `s` itself. */
  lemma CopiesBlock(s: seq<string>, k: nat, j: nat)
    requires j < k
    ensures j * |s| + |s| <= |Copies(s, k)|
    ensures Copies(s, k)[j * |s| .. j * |s| + |s|] == s
  {
    CopiesSplit(s, k, j);
    CopiesLength(s, j);
    var rest := Copies(s, k - j);
    assert rest == s + Copies(s, k - j - 1);
    assert Copies(s, k)[j * |s| .. j * |s| + |s|] == rest[..|s|];
  }

  /**
   The aggregated advice is the immediate cause's advice once per element of
   the causes list, followed by the head's own advice in its own order.
   */
  lemma AdvicePerCause(e: HumaneError, p: seq<string>)
    requires AdviceProbe(e.cause) == Some(p)
    ensures var ctx := ContextOf(e); var k := |ctx.causes|;
            && |ctx.advice| == k * |p| + |e.advice|
            && (forall j :: 0 <= j < k ==>
                  j * |p| + |p| <= |ctx.advice| && ctx.advice[j * |p| .. j * |p| + |p|] == p)
            && ctx.advice[k * |p|..] == e.advice
  {
    var ctx := ContextOf(e);
    var k := |ctx.causes|;
    CopiesLength(p, k);
    assert ctx.advice == Copies(p, k) + e.advice;
    forall j | 0 <= j < k
      ensures j * |p| + |p| <= |ctx.advice| && ctx.advice[j * |p| .. j * |p| + |p|] == p
    {
      CopiesBlock(p, k, j);
      assert ctx.advice[j * |p| .. j * |p| + |p|] == Copies(p, k)[j * |p| .. j * |p| + |p|];
    }
  }

  /**
   Only the immediate cause's advice is probed. For a foreign cause with
   advice `p` that wraps a humane error, the humane error's advice is not
   aggregated at all and `p` appears twice.
   */
  lemma OnlyImmediateCauseAdvice(e: HumaneError, id: nat, text: string, p: seq<string>,
                                 display: Option<string>, inner: HumaneError)
    requires e.cause == Some(Foreign(id, text, Some(p), display, Some(Humane(inner))))
    ensures ContextOf(e).causes == [e.cause.value, Humane(inner)]
    ensures ContextOf(e).advice == p + p + e.advice
  {
    assert Chain(Some(Humane(inner))) == [Humane(inner)];
    assert Copies(p, 1) == p;
    assert Copies(p, 2) == p + p;
  }
}
