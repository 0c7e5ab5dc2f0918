/**
 The two renderers of a humane error (error.go): `Display`, the text report,
 and `IntoZapLog`, the log fields. Both run the walk of module Walk.
 */
module Report {
  import opened Wrappers
  import opened Errors
  import opened Walk
  import opened Template
  import opened LogFields

  /** `{{ .Error }}` of each cause, in order. */
  function CauseMessages(causes: seq<Error>): (r: seq<string>)
    ensures |r| == |causes|
    ensures forall i :: 0 <= i < |r| ==> r[i] == ErrorMessage(causes[i])
  {
    if causes == [] then [] else [ErrorMessage(causes[0])] + CauseMessages(causes[1..])
  }

  /** The text `Display` returns. */
  function DisplayText(e: HumaneError): string
  {
    var ctx := ContextOf(e);
    Render(e.message, ctx.advice, CauseMessages(ctx.causes))
  }

  /** `(*humaneError).Display()`: walk the chain, then execute the template. */
  method Display(e: HumaneError) returns (text: string)
    ensures text == DisplayText(e)
  {
    var ctx := CollectContext(e);
    text := Render(e.message, ctx.advice, CauseMessages(ctx.causes));
  }

  /** The fields `IntoZapLog` returns. */
  function IntoZapLogFields(e: HumaneError): seq<Field>
  {
    var ctx := ContextOf(e);
    [ErrorsField("causes", ctx.causes), StringsField("advice", ctx.advice), ErrorOf(e.message)]
  }

  /** `(*humaneError).IntoZapLog()`: walk the chain, then append the three fields. */
  method IntoZapLog(e: HumaneError) returns (fields: seq<Field>)
    ensures fields == IntoZapLogFields(e)
  {
    var ctx := CollectContext(e);
    fields := [];
    fields := fields + [ErrorsField("causes", ctx.causes)];
    fields := fields + [StringsField("advice", ctx.advice)];
    fields := fields + [ErrorOf(e.message)];
  }

  /**
   The text report and the log fields say the same thing: the report is the
   template applied to the message of the "error" field, the values of the
   "advice" field and the messages of the "causes" field.
   */
  lemma DisplayAgreesWithIntoZapLog(e: HumaneError)
    ensures var f := IntoZapLogFields(e);
            && |f| == 3
            && f[0].ErrorsField? && f[0].key == "causes"
            && f[1].StringsField? && f[1].key == "advice"
            && f[2] == ErrorField("error", Message(e))
            && DisplayText(e) == Render(f[2].message, f[1].values, CauseMessages(f[0].errors))
  {
  }

  /** An error with no advice and no cause displays as exactly its message. */
  lemma DisplayOfBareError(e: HumaneError)
    requires e.advice == [] && e.cause.None?
    ensures DisplayText(e) == e.message
  {
    UncausedContext(e);
    PlainMessage(e.message);
  }

  /**
   For single-line texts, the advice header is shown exactly when the
   aggregated advice is non-empty and the causes header exactly when the
   error has a cause; the report's first line is the message.
   */
  lemma DisplaySections(e: HumaneError)
    requires SingleLine(e.message)
    requires AllSingleLine(ContextOf(e).advice) && AllSingleLine(CauseMessages(ContextOf(e).causes))
    ensures var lines := SplitLines(DisplayText(e));
            && lines[0] == e.message
            && (AdviceHeader in lines[1..] <==> ContextOf(e).advice != [])
            && (CausesHeader in lines[1..] <==> e.cause.Some?)
  {
    var ctx := ContextOf(e);
    HeadersMatchLists(e.message, ctx.advice, CauseMessages(ctx.causes));
  }

  /**
   Wrapping a humane error: the report lists the inner advice first, then the
   outer advice, and names the inner error as the only cause.
   */
  lemma DisplayOfWrappedHumane(e: HumaneError, inner: HumaneError)
    requires e.cause == Some(Humane(inner))
    ensures DisplayText(e) == e.message
                              + Section(AdviceHeader, inner.advice + e.advice)
                              + Section(CausesHeader, [inner.message])
  {
    HumaneCauseContext(e, inner);
    assert CauseMessages([Humane(inner)]) == [inner.message];
  }
}
