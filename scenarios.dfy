/**
 The behaviour the repository's own tests and example describe, stated over
 the model. Distinct allocations get distinct ids.
 */
module Scenarios {
  import opened Wrappers
  import opened Errors
  import opened Walk
  import opened Template
  import opened LogFields
  import opened Report
  import opened ZapLog
  import opened Printing

  lemma BulletsOfTwo(x: string, y: string)
    ensures Bullets([x, y]) == "\n - " + x + "\n - " + y
  {
    assert [x, y][1..] == [y];
    assert Bullets([y]) == "\n - " + y + Bullets([]);
  }

  lemma RenderTwoAdviceOneCause(m: string, a0: string, a1: string, c0: string)
    ensures Render(m, [a0, a1], [c0]) ==
            m + "\n\n" + AdviceHeader + "\n - " + a0 + "\n - " + a1 + "\n\n" + CausesHeader + "\n - " + c0
  {
    BulletsOfTwo(a0, a1);
    assert Bullets([c0]) == "\n - " + c0 + Bullets([]);
  }

  lemma RenderTwoAdviceTwoCauses(m: string, a0: string, a1: string, c0: string, c1: string)
    ensures Render(m, [a0, a1], [c0, c1]) ==
            m + "\n\n" + AdviceHeader + "\n - " + a0 + "\n - " + a1
            + "\n\n" + CausesHeader + "\n - " + c0 + "\n - " + c1
  {
    BulletsOfTwo(a0, a1);
    BulletsOfTwo(c0, c1);
  }

  /** `Wrap(nil, ...)` is nil. */
  lemma NilIsCurried(id: nat, message: string, advice: seq<string>)
    ensures Wrap(id, None, message, advice) == None
  {
  }

  /** A simple error keeps its message and advice, has no cause, and renders one advice section. */
  lemma SimpleError()
    ensures var e := New(1, "Something exploded unexpectedly", ["Avoid exploding things..."]);
            && Message(e) == "Something exploded unexpectedly"
            && "Avoid exploding things..." in Advice(e)
            && Cause(e) == None
            && DisplayText(e) ==
               "Something exploded unexpectedly" + "\n\n" + "To fix this, you can try:"
               + "\n - " + "Avoid exploding things..."
  {
    var e := New(1, "Something exploded unexpectedly", ["Avoid exploding things..."]);
    UncausedContext(e);
    var a := ["Avoid exploding things..."];
    assert Bullets(a) == "\n" + " - " + "Avoid exploding things..." by {
      assert Bullets(a[1..]) == "";
    }
  }

  /** Without advice and cause the report is the bare message. */
  lemma ErrorNoAdvice()
    ensures DisplayText(New(1, "Something went wrong", [])) == "Something went wrong"
  {
    DisplayOfBareError(New(1, "Something went wrong", []));
  }

  /** Wrapping a humane error aggregates its advice first and lists it as the cause. */
  lemma ErrorWithCause()
    ensures var inner := New(1, "This code is broken", ["Ask us to not write broken code"]);
            var outer := Wrap(2, Some(Humane(inner)), "Something broke", ["Go yell at us on Twitter"]);
            && outer.Some?
            && DisplayText(outer.value) ==
               "Something broke"
               + "\n\n" + "To fix this, you can try:"
               + "\n - " + "Ask us to not write broken code"
               + "\n - " + "Go yell at us on Twitter"
               + "\n\n" + "This was caused by:"
               + "\n - " + "This code is broken"
  {
    var inner := New(1, "This code is broken", ["Ask us to not write broken code"]);
    var outer := Wrap(2, Some(Humane(inner)), "Something broke", ["Go yell at us on Twitter"]).value;
    DisplayOfWrappedHumane(outer, inner);
    HumaneCauseContext(outer, inner);
    assert inner.advice + outer.advice == ["Ask us to not write broken code", "Go yell at us on Twitter"];
    assert CauseMessages([Humane(inner)]) == ["This code is broken"];
    RenderTwoAdviceOneCause("Something broke", "Ask us to not write broken code", "Go yell at us on Twitter",
                            "This code is broken");
  }

  /** A wrapping error is equivalent to the error it wraps and to any error with its message. */
  lemma ErrorIs()
    ensures var base := Foreign(1, "base error", None, None, None);
            var err := Wrap(2, Some(base), "this is a wrapping error", []);
            && err.Some?
            && Is(err.value, Some(base))
            && Is(err.value, Some(Foreign(3, "this is a wrapping error", None, None, None)))
  {
  }

  /** `IntoZapLog` of an error wrapping a plain error: causes, advice, then the error message. */
  lemma IntoZapLogOfWrappedPlainError()
    ensures var internal := Foreign(1, "internal error", None, None, None);
            var err := Wrap(2, Some(internal), "Something went wrong", ["Try turning it off...permanently."]);
            && err.Some?
            && IntoZapLogFields(err.value) ==
               [ErrorsField("causes", [internal]),
                StringsField("advice", ["Try turning it off...permanently."]),
                ErrorField("error", "Something went wrong")]
  {
    var internal := Foreign(1, "internal error", None, None, None);
    assert Chain(Some(internal)) == [internal];
  }

  /**
   `Zap` of the same humane error, as the code is written: the walk stops at
   the head, so "causes" is empty.
   */
  lemma ZapOfWrappedPlainError()
    ensures var internal := Foreign(1, "internal error", None, None, None);
            var err := Wrap(2, Some(internal), "Something went wrong", ["Try turning it off...permanently."]);
            && err.Some?
            && ZapFields(Humane(err.value)) ==
               [ErrorField("error", "Something went wrong"),
                StringsField("advice", ["Try turning it off...permanently."]),
                ErrorsField("causes", [])]
  {
    var internal := Foreign(1, "internal error", None, None, None);
    ZapOfHumane(HumaneError(2, "Something went wrong", ["Try turning it off...permanently."], Some(internal)));
  }

  /** `Zap` of a plain error wrapping another: no advice, the wrapped error as the only cause. */
  lemma ZapOfNormalError()
    ensures var internal := Foreign(1, "internal error", None, None, None);
            var err := Foreign(2, "Something went wrong: internal error", None, None, Some(internal));
            ZapFields(err) ==
              [ErrorField("error", "Something went wrong: internal error"),
               StringsField("advice", []),
               ErrorsField("causes", [internal])]
  {
    var internal := Foreign(1, "internal error", None, None, None);
    var err := Foreign(2, "Something went wrong: internal error", None, None, Some(internal));
    assert Chain(Some(internal)) == [internal];
    assert Chain(Some(err)) == [err, internal];
    ZapOfPlainChain(err);
  }

  /** A humane error wrapping a two-element plain chain, with two pieces of advice, over any texts. */
  lemma WrappedPlainPair(m: string, a0: string, a1: string, c0: string, c1: string)
    ensures var inner := Foreign(1, c1, None, None, None);
            var outer := Foreign(2, c0, None, None, Some(inner));
            var err := Wrap(3, Some(outer), m, [a0, a1]);
            && err.Some?
            && ShownText(Humane(err.value)) ==
               m + "\n\n" + AdviceHeader + "\n - " + a0 + "\n - " + a1
               + "\n\n" + CausesHeader + "\n - " + c0 + "\n - " + c1
  {
    var inner := Foreign(1, c1, None, None, None);
    var outer := Foreign(2, c0, None, None, Some(inner));
    assert Chain(Some(inner)) == [inner];
    assert Chain(Some(outer)) == [outer, inner];
    assert CauseMessages([outer, inner]) == [c0, c1];
    RenderTwoAdviceTwoCauses(m, a0, a1, c0, c1);
  }

  /**
   The package example: a failed file removal wrapped with two pieces of
   advice prints the advice and both errors of the unwrap chain.
   */
  lemma ExampleOutput()
    ensures var errno := Foreign(1, "no such file or directory", None, None, None);
            var pathError := Foreign(2, "remove nonexistent.txt: no such file or directory", None, None, Some(errno));
            var err := Wrap(3, Some(pathError),
                            "We couldn't remove the nonexistent.txt file from the current directory.",
                            ["Ensure that the file exists in the current directory.",
                             "Ensure you have write permissions to the file."]);
            && err.Some?
            && ShownText(Humane(err.value)) + "\n" ==
               "We couldn't remove the nonexistent.txt file from the current directory."
               + "\n\n" + "To fix this, you can try:"
               + "\n - " + "Ensure that the file exists in the current directory."
               + "\n - " + "Ensure you have write permissions to the file."
               + "\n\n" + "This was caused by:"
               + "\n - " + "remove nonexistent.txt: no such file or directory"
               + "\n - " + "no such file or directory"
               + "\n"
  {
    WrappedPlainPair("We couldn't remove the nonexistent.txt file from the current directory.",
                     "Ensure that the file exists in the current directory.",
                     "Ensure you have write permissions to the file.",
                     "remove nonexistent.txt: no such file or directory",
                     "no such file or directory");
  }
}
