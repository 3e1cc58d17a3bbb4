/** Shared result types of the dashboard model. */
module Common {

  /** A value that may be absent; pandas shows an absent point as NaN. */
  datatype Option<+T> = None | Some(value: T)

  /** The two exceptions the script can raise on data it has loaded. */
  datatype ScriptError =
    | AttributeError  // `datetime.TimeDelta` does not exist (the 'cases/population' branch)
    | IndexError      // a 25th country indexes past the 24-colour `Dark24` palette

  datatype Result<+T> = Success(value: T) | Failure(error: ScriptError)
}
