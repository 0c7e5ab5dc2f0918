/**
 The printing helpers (print.go): `Format`, the error-printing hook that
 issues calls on a printer, and `Print`, `Eprint` and `Fprint`, which write
 an error's text. The streams are not modelled: each method returns what it
 would write.
 */
module Printing {
  import opened Wrappers
  import opened Errors
  import opened Report

  /** A call `p.Print(text)` or `p.Printf(format, arg)` on the printer. */
  datatype PrinterCall = PrintCall(text: string) | PrintfCall(format: string, arg: string)

  /**
   `(*humaneError).Format(p)`: the calls issued on `p`, in order, where
   `detail` is what `p.Detail()` answers; `next` is the cause handed back for
   the printer to continue with.
   */
  method Format(e: HumaneError, detail: bool) returns (calls: seq<PrinterCall>, next: Option<Error>)
    ensures |calls| >= 1 && calls[0] == PrintCall(e.message)
    ensures !detail || e.advice == [] ==> calls == [PrintCall(e.message)]
    ensures detail && e.advice != [] ==>
              && |calls| == |e.advice| + 2
              && calls[1] == PrintCall("Advice:")
              && forall i :: 0 <= i < |e.advice| ==> calls[i + 2] == PrintfCall(" - %s", e.advice[i])
    ensures next == e.cause
  {
    calls := [PrintCall(e.message)];
    if detail {
      if |e.advice| > 0 {
        calls := calls + [PrintCall("Advice:")];
        for i := 0 to |e.advice|
          invariant |calls| == i + 2
          invariant calls[0] == PrintCall(e.message) && calls[1] == PrintCall("Advice:")
          invariant forall j :: 0 <= j < i ==> calls[j + 2] == PrintfCall(" - %s", e.advice[j])
        {
          calls := calls + [PrintfCall(" - %s", e.advice[i])];
        }
      }
    }
    next := e.cause;
  }

  /**
   The text chosen for an error: `Display()` when the error has that method
   (every humane error, and foreign errors that provide one), otherwise
   `Error()`.
   */
  function ShownText(e: Error): string
  {
    match e
    case Humane(h) => DisplayText(h)
    case Foreign(_, text, _, display, _) => if display.Some? then display.value else text
  }

  /** The capability check shared by the three printing functions. */
  method Shown(e: Error) returns (text: string)
    ensures text == ShownText(e)
  {
    match e
    case Humane(h) =>
      text := Display(h);
    case Foreign(_, message, _, display, _) =>
      if display.Some? {
        text := display.value;
      } else {
        text := message;
      }
  }

  /** `Print(err)`: what is written to standard output; nothing for a nil error. */
  method Print(err: Option<Error>) returns (stdout: string)
    ensures err.None? ==> stdout == ""
    ensures err.Some? ==> stdout == ShownText(err.value) + "\n"
  {
    if err.None? {
      return "";
    }
    var text := Shown(err.value);
    stdout := text + "\n";
  }

  /** `Eprint(err)`: what is written to standard error; nothing for a nil error. */
  method Eprint(err: Option<Error>) returns (stderr: string)
    ensures err.None? ==> stderr == ""
    ensures err.Some? ==> stderr == ShownText(err.value) + "\n"
  {
    if err.None? {
      return "";
    }
    var text := Shown(err.value);
    stderr := text + "\n";
  }

  /**
   `Fprint(w, err)`: what is written to `w` and the error returned. The
   outcome of the write itself is the parameter `writeResult`; a nil error
   writes nothing and returns nil.
   */
  method Fprint(err: Option<Error>, writeResult: Option<Error>) returns (written: string, result: Option<Error>)
    ensures err.None? ==> written == "" && result.None?
    ensures err.Some? ==> written == ShownText(err.value) + "\n" && result == writeResult
  {
    if err.None? {
      return "", None;
    }
    var text := Shown(err.value);
    written, result := text + "\n", writeResult;
  }

}
