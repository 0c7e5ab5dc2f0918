# humane-errors-go, modelled in Dafny

This project models the core of the Go package `humane`: a structured error that carries
a user-facing message, a list of advice and an optional cause. It covers how such an
error walks its cause chain and turns the result into a text report (`Display`) or into
structured-logging fields (`IntoZapLog`, `Zap`). It also covers the printing helpers
(`Format`, `Print`, `Eprint`, `Fprint`).

Modules:

- `Wrappers`: `Option`, which stands for Go's nilable `error` references.
- `Errors` (error.go): the `HumaneError` record and the `Error` type of all errors. A foreign
  error has a message, an optional `Advice()` method, an optional `Display()` method and an
  optional one-step unwrap. The module also holds `New`, `Wrap`, the accessors, `Unwrap` and `Is`.
  The `id` fields stand for pointer identity, so `e.cause == err` is value equality.
- `Walk` (error.go): the cause-chain loop that `Display` and `IntoZapLog` share.
  `CollectContext` is the loop. `Chain` and `ContextOf` specify what it computes.
- `Template` (error.go): the report text as the template produces it (`Render`). It also gives
  the same report as a list of lines, with lemmas that split the text back into those lines.
- `Report` (error.go): `Display` and `IntoZapLog`, and the lemma that they agree.
- `LogFields`: zap fields as tagged values.
- `ZapLog` (zaplog.go): the free function `Zap`.
- `Printing` (print.go): the printer calls of `Format` and the text written by `Print`,
  `Eprint` and `Fprint`.
- `Scenarios`: the behaviour described by the repository's tests and example.

## Behaviour reproduced as the code is written

- `*humaneError` has no `Unwrap` method, so `errors.Unwrap` of a humane error is nil
  (`Errors.Unwrap`). A chain walk therefore stops at the first humane error it reaches.
  zaplog_test.go:17-23 expects a humane error to unwrap to its cause, but the code declares
  no `Unwrap` for `*humaneError` (error.go:65-191), and the model follows the code.
- The advice probe in both walk loops (error.go:110 and error.go:177) tests the head's
  immediate cause on every step, not the current element. The immediate cause's advice is
  therefore prepended once per element of the causes list. Advice of deeper errors is never
  aggregated (`Walk.OnlyImmediateCauseAdvice`).
- `Zap` walks from the error itself and stops at a humane head. For
  `Zap(Wrap(internal, ...))` the "causes" field is empty (`ZapLog.ZapOfHumane`,
  `Scenarios.ZapOfWrappedPlainError`). zaplog_test.go:17-23 expects `[internal]` there,
  which holds only if humane errors unwrapped to their cause. That test also shares the name
  `TestZapLog` with print_test.go:20 in the same package. The model does not state that test.
- The two field extractions differ on purpose, as in the source. `IntoZapLog` lists the
  chain from the immediate cause, in the order causes, advice, error. `Zap` drops the head
  from its own chain, in the order error, advice, causes.

## Model

| member | source | states |
|---|---|---|
| `Errors.New` | error.go:71-76 | the new error's `Error()`, `Advice()` and `Cause()` are the message, the advice exactly as given, and nil |
| `Errors.Wrap` | error.go:78-89 | the result is nil exactly when the cause is nil; otherwise the accessors give back the message, the advice unaggregated and the cause |
| `Errors.Unwrap` | error.go:116 | `errors.Unwrap` of a humane error is nil; a foreign error unwraps to a strictly shallower error |
| `Errors.AdviceProbe` | error.go:110-112 | the type assertion on the advice interface: nil for a nil cause, the own advice of a humane error, and for a foreign error its `Advice` method's result when it has one |
| `Errors.ErrorMessage` | error.go:146-148 | `Error()` of any error: a humane error's message, a foreign error's text; used for `err.Error()` in `Is`, `{{ .Error }}` in the template, `e.Error()` in `Zap` and the printers' fallback |
| `Errors.Message` | error.go:146-148 | `Error()` of a humane error is its stored message |
| `Errors.Advice` | error.go:152-154 | `Advice()` is the error's own advice, never the aggregated one |
| `Errors.Cause` | error.go:159-161 | `Cause()` is the stored cause |
| `Errors.Is` | error.go:131-143 | a nil target never matches; a target whose `Error()` equals the message always matches |
| `Errors.HumaneChain` | error.go:136-139 | the humane errors `Is` recurses through start at the receiver, each is the cause of the one before, and the last one's cause is nil or foreign |
| `Errors.IsMatchesAlongCauses` | error.go:127-143 | `Is(t)` holds exactly when some humane error along the cause chain has `t`'s message, or the first non-humane cause is `t` itself |
| `Walk.ChainSteps` | error.go:106-117 | the walked list is empty exactly for a nil start; otherwise it starts there, each element is the unwrap of the previous one, and the last unwraps to nil |
| `Walk.Chain` | error.go:106-117 | the list the walk appends: the start, then the walk from its unwrap, until nil (properties in `Walk.ChainSteps`) |
| `Walk.ContextOf` | error.go:96-117 | the walk's result: the chain from the immediate cause, and the immediate cause's advice (when it has an `Advice` method) once per chain element before the head's own advice (properties in `Walk.AdvicePerCause`, `Walk.UncausedContext`, `Walk.HumaneCauseContext`) |
| `Walk.ChainOfSome` | error.go:106-117 | a walk from an error starts with that error and continues with the walk from its unwrap |
| `Walk.ChainIsForeignBeforeItsEnd` | error.go:116 | only the last element of a walked chain can be a humane error |
| `Walk.CollectContext` | error.go:96-117 | the loop yields exactly `ContextOf(e)`: the chain from the immediate cause, and the immediate cause's advice prepended once per step before the head's own advice |
| `Walk.UncausedContext` | error.go:106-107 | with no cause, there are no causes and the advice is the error's own |
| `Walk.HumaneCauseContext` | error.go:106-117 | a humane immediate cause is the only cause, and the advice is the inner advice followed by the outer advice |
| `Walk.AdvicePerCause` | error.go:110-113 | with k causes and immediate-cause advice p, the aggregated advice is k blocks each equal to p (block j starting at j times the size of p), followed by the head's own advice unchanged; its size is k times the size of p plus the size of the own advice |
| `Walk.OnlyImmediateCauseAdvice` | error.go:110-113 | a foreign cause with advice that wraps a humane error gives two causes, its advice twice, and none of the inner humane error's advice |
| `Template.RenderJoinsReportLines` | error.go:13-29 | the report is its lines joined by newlines: the message, then a blank line, a header and " - " bullets for each non-empty section |
| `Template.Render` | error.go:13-29 | the executed template: the message, then "To fix this, you can try:" with one " - " line per advice when there is advice, then "This was caused by:" with one line per cause when there are causes (properties in `Template.RenderJoinsReportLines`, `Template.HeadersMatchLists`) |
| `Template.RenderedLines` | error.go:13-29 | for single-line texts, splitting the report at newlines gives exactly those lines, 1 + (2 + advice count if any) + (2 + cause count if any) of them |
| `Template.HeadersMatchLists` | error.go:15-28 | for single-line texts, the first line is the message, the advice header appears below it exactly when there is advice, and the causes header exactly when there are causes |
| `Template.PlainMessage` | error.go:14-22 | with no advice and no causes the report is exactly the message |
| `Report.CauseMessages` | error.go:25-27 | one line per cause, each the cause's own `Error()` text, in order |
| `Report.Display` | error.go:93-125 | the text is `DisplayText(e)`: the template applied to the message and to the advice and causes that the shared walk collects |
| `Report.IntoZapLog` | error.go:163-191 | the fields are `IntoZapLogFields(e)`: exactly three, in the order "causes", "advice", "error", built from the same walk |
| `Report.DisplayAgreesWithIntoZapLog` | error.go:93-191 | the report is the template applied to the "error" field's message, the "advice" field's values and the "causes" field's messages |
| `Report.DisplayOfBareError` | error.go:93-125 | an error without advice and cause displays as its message |
| `Report.DisplaySections` | error.go:93-125 | for single-line texts, the advice header shows exactly when the aggregated advice is non-empty, and the causes header exactly when the error has a cause |
| `Report.DisplayOfWrappedHumane` | error.go:106-117 | wrapping a humane error shows inner advice then outer advice, and the inner error as the only cause |
| `ZapLog.ChainAdviceSnoc` | zaplog.go:33-35 | each visited error's advice is appended after the advice collected so far |
| `LogFields.ErrorOf` | error.go:189 | `zap.Error(errors.New(m))`: a field under the key "error" carrying the message m (also zaplog.go:41) |
| `ZapLog.InterfaceAdvice` | zaplog.go:33-35 | the `err.(Error)` assertion: a humane error contributes its own advice, any other error nothing |
| `ZapLog.ZapStep` | zaplog.go:31-38 | one loop iteration appends the visited error to the causes, its advice to the advice, and moves to its unwrap |
| `ZapLog.AdviceOfLastOnly` | zaplog.go:33-35 | when only the last visited error can be humane, the collected advice is that error's advice alone |
| `ZapLog.Zap` | zaplog.go:21-45 | the loop yields exactly `ZapFields(e)`: the walk from `e` itself, humane advice concatenated head first, the chain after its head as causes |
| `ZapLog.ZapShape` | zaplog.go:30-44 | three fields "error", "advice", "causes"; causes are the unwrap chain after `e`; advice is the last chain element's own advice when it is humane, else empty |
| `ZapLog.ZapOfHumane` | zaplog.go:30-44 | a humane error gives its own advice and no causes at all |
| `ZapLog.ZapOfPlainChain` | zaplog.go:22-43 | a chain without humane errors gives no advice and all errors after the head as causes |
| `Printing.Format` | print.go:12-28 | the first call always prints the message; in detail mode with advice it then prints "Advice:" and one " - %s" call per advice, in order; otherwise nothing more; it returns the cause |
| `Printing.Shown` | print.go:38-44 | `Display()` is used for errors that have it, `Error()` otherwise |
| `Printing.Print` | print.go:33-45 | nothing is written for nil; otherwise the chosen text followed by a newline |
| `Printing.Eprint` | print.go:50-62 | nothing is written for nil; otherwise the chosen text followed by a newline |
| `Printing.Fprint` | print.go:67-81 | nil writes nothing and returns nil; otherwise it writes the chosen text with a newline and returns the write's outcome |
| `Scenarios.NilIsCurried` | error_test.go:11-14 | wrapping nil gives nil |
| `Scenarios.SimpleError` | error_test.go:16-26 | accessors and report of a simple error with one piece of advice |
| `Scenarios.ErrorNoAdvice` | error_test.go:28-31 | the report of an error without advice is its message |
| `Scenarios.ErrorWithCause` | error_test.go:33-48 | the report of a wrapped humane error, with inner advice first |
| `Scenarios.ErrorIs` | error_test.go:50-56 | a wrapping error matches the error it wraps and an error with its own message |
| `Scenarios.IntoZapLogOfWrappedPlainError` | print_test.go:20-30 | the three `IntoZapLog` fields of a wrapped plain error |
| `Scenarios.ZapOfWrappedPlainError` | zaplog.go:30-44 | `Zap` of a wrapped plain error as the code computes it: no causes |
| `Scenarios.ZapOfNormalError` | zaplog_test.go:26-37 | `Zap` of a plain wrapping error: no advice, the wrapped error as cause |
| `Scenarios.WrappedPlainPair` | example_test.go:11-31 | the report of a humane error over a two-element plain chain, for any texts |
| `Scenarios.ExampleOutput` | example_test.go:11-31 | the printed report of the package example |

## Left out

- The fallback message when template execution fails (error.go:119-122) is left out. It is reached only when a cause's `Error()` fails while the template runs (`text/template` turns a panic in that call into an execution error); the model's foreign errors always have a message.
- The `text/template` engine is not modelled. The text it produces for this one template is stated directly (`Template.Render`).
- Writes to standard output, standard error and an `io.Writer` are not modelled. The methods return the text they would write. `Fprint` takes the write's outcome as a parameter.
- zap's field encoding is not modelled. Fields are tagged values with their key and payload. `zap.Error` is taken to use the key "error".
- Go `fmt` verb handling is not modelled. `Format` records the `Printf` format and argument rather than the formatted line. The `%s`/`%v` formatting checked in print_test.go:12-18 is library behaviour.
- Slice aliasing and capacity effects of `append` are not modelled; all lists are immutable sequences.
- Cyclic cause chains cannot be built: errors are an inductive datatype, so every chain is finite.
- `Is` methods of foreign errors are not modelled: only humane causes are treated as `Is`-capable, and foreign causes are compared by identity. `errors.Is` itself is not modelled either.
- Foreign errors that implement the whole humane `Error` interface are not modelled: in `Zap`, only humane errors contribute advice.
- `Zap` of a nil error panics in the source. The model rules it out through its parameter type.
- The expectation of zaplog_test.go:17-23 is not stated, because the code does not meet it (see above).
