/** The structured-logging fields the package hands to zap, as tagged values. */
module LogFields {
  import opened Errors

  /**
   `zap.Error(err)` (key "error", carrying the error's message),
   `zap.Strings(key, values)` and `zap.Errors(key, errors)`.
   */
  datatype Field =
    | ErrorField(key: string, message: string)
    | StringsField(key: string, values: seq<string>)
    | ErrorsField(key: string, errors: seq<Error>)

  /** `zap.Error(errors.New(message))`: zap files a lone error under the key "error". */
  function ErrorOf(message: string): Field
  {
    ErrorField("error", message)
  }
}
