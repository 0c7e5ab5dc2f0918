/**
 The error values of the humane package (error.go): the `humaneError` record,
 the foreign errors that may appear as causes, construction, the accessors,
 one-step unwrapping and the equivalence test `Is`.
 */
module Errors {
  import opened Wrappers

  /**
   A `*humaneError`. The `id` stands for the pointer, so two separately
   allocated errors with the same contents are still different values.
   */
  datatype HumaneError = HumaneError(id: nat, message: string, advice: seq<string>, cause: Option<Error>)

  /**
   Any value of Go's `error` interface that can appear in a cause chain:
   either a humane error, or a foreign error with its message, an optional
   `Advice() []string` method, an optional `Display() string` method and an
   optional one-step `Unwrap()` result.
   */
  datatype Error =
    | Humane(h: HumaneError)
    | Foreign(id: nat, text: string, adviceMethod: Option<seq<string>>,
              displayMethod: Option<string>, wrapped: Option<Error>)

  /** `e.Error()` for any error. */
  function ErrorMessage(e: Error): string
  {
    match e
    case Humane(h) => h.message
    case Foreign(_, text, _, _, _) => text
  }

  /** The number of errors reachable from `e` through causes and wrapped errors. */
  function Depth(e: Error): nat
  {
    match e
    case Humane(h) => 1 + (match h.cause case None => 0 case Some(c) => Depth(c))
    case Foreign(_, _, _, _, w) => 1 + (match w case None => 0 case Some(c) => Depth(c))
  }

  /**
   `errors.Unwrap(e)`. A `*humaneError` declares no `Unwrap` method (it only
   has `Cause`), so unwrapping a humane error always gives nil; a foreign
   error gives the error it wraps, if any.
   */
  function Unwrap(e: Error): (r: Option<Error>)
    ensures e.Humane? ==> r.None?
    ensures r.Some? ==> Depth(r.value) < Depth(e)
  {
    match e
    case Humane(_) => None
    case Foreign(_, _, _, _, w) => w
  }

  /**
   The type assertion `c.(interface{ Advice() []string })`: the advice of `c`
   when `c` has an `Advice` method. A nil interface never satisfies it.
   */
  function AdviceProbe(c: Option<Error>): Option<seq<string>>
  {
    match c
    case None => None
    case Some(Humane(h)) => Some(h.advice)
    case Some(Foreign(_, _, advice, _, _)) => advice
  }

  /** `New(message, advice...)`: a humane error without a cause. */
  function New(id: nat, message: string, advice: seq<string>): (e: HumaneError)
    ensures Message(e) == message && Advice(e) == advice && Cause(e) == None
  {
    HumaneError(id, message, advice, None)
  }

  /**
   `Wrap(cause, message, advice...)`: nil when the cause is nil, otherwise a
   humane error that keeps `cause` as its cause.
   */
  function Wrap(id: nat, cause: Option<Error>, message: string, advice: seq<string>): (r: Option<HumaneError>)
    ensures r.None? <==> cause.None?
    ensures r.Some? ==> Message(r.value) == message && Advice(r.value) == advice && Cause(r.value) == cause
  {
    if cause.None? then None else Some(HumaneError(id, message, advice, cause))
  }

  /** `(*humaneError).Error()`. */
  function Message(e: HumaneError): string
  {
    e.message
  }

  /** `(*humaneError).Advice()`: the error's own advice, never aggregated. */
  function Advice(e: HumaneError): seq<string>
  {
    e.advice
  }

  /** `(*humaneError).Cause()`. */
  function Cause(e: HumaneError): Option<Error>
  {
    e.cause
  }

  /**
   `(*humaneError).Is(target)`. A nil target never matches. Otherwise the
   messages are compared, and then the cause is consulted: a humane cause
   through its own `Is`, any other cause by identity with the target.
   */
  function Is(e: HumaneError, target: Option<Error>): (r: bool)
    ensures target.None? ==> !r
    ensures target.Some? && e.message == ErrorMessage(target.value) ==> r
  {
    match target
    case None => false
    case Some(t) =>
      match e.cause
      case Some(Humane(c)) => e.message == ErrorMessage(t) || Is(c, target)
      case _ => e.message == ErrorMessage(t) || e.cause == target
  }

  /**
   The humane errors that `Is` consults: `e`, then its cause while that cause
   is itself humane. The last one's cause is nil or a foreign error.
   */
  function HumaneChain(e: HumaneError): (r: seq<HumaneError>)
    ensures |r| >= 1 && r[0] == e
    ensures forall i :: 0 <= i < |r| - 1 ==> r[i].cause == Some(Humane(r[i + 1]))
    ensures !(r[|r| - 1].cause.Some? && r[|r| - 1].cause.value.Humane?)
  {
    match e.cause
    case Some(Humane(c)) => [e] + HumaneChain(c)
    case _ => [e]
  }

  /**
   `Is` matches a target exactly when some humane error along the cause chain
   carries the target's message, or the first non-humane cause is the target
   itself.
   */
  lemma {:induction false} IsMatchesAlongCauses(e: HumaneError, t: Error)
    ensures var hs := HumaneChain(e);
            Is(e, Some(t)) <==>
              (exists i :: 0 <= i < |hs| && hs[i].message == ErrorMessage(t)) ||
              hs[|hs| - 1].cause == Some(t)
  {
    match e.cause
    case Some(Humane(c)) =>
      IsMatchesAlongCauses(c, t);
      var hs, cs := HumaneChain(e), HumaneChain(c);
      assert hs == [e] + cs;
      assert hs[|hs| - 1] == cs[|cs| - 1];
      var m := ErrorMessage(t);
      if e.message != m {
        if exists i :: 0 <= i < |hs| && hs[i].message == m {
          var i :| 0 <= i < |hs| && hs[i].message == m;
          assert cs[i - 1] == hs[i];
        }
        if exists j :: 0 <= j < |cs| && cs[j].message == m {
          var j :| 0 <= j < |cs| && cs[j].message == m;
          assert hs[j + 1] == cs[j];
        }
      }
    case _ =>
      assert HumaneChain(e) == [e];
  }
}
