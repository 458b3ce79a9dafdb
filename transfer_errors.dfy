/** The errors a transfer can raise. Each is an application error carrying a
    message and an HTTP status code; neither constructor takes arguments. */
module TransferErrors {

  datatype TransferStatementError = UserNotFoundError | OutOfFundError
  {
    /** The message handed to the application error. OutOfFundError reuses
        the user-not-found text, so only the kind tells the two apart. */
    function Message(): (message: string) {
      match this
      case UserNotFoundError => "User not found"
      case OutOfFundError => "User not found"
    }

    /** The HTTP status code handed to the application error. */
    function StatusCode(): (status: nat) {
      match this
      case UserNotFoundError => 404
      case OutOfFundError => 404
    }
  }

  /** Both errors carry the same message and status code, yet they are
      distinct values: two errors are equal exactly when they are of the
      same kind. */
  lemma ErrorsDifferOnlyByKind(a: TransferStatementError, b: TransferStatementError)
    ensures a.Message() == b.Message() == "User not found"
    ensures a.StatusCode() == b.StatusCode() == 404
    ensures a == b <==> (a.UserNotFoundError? <==> b.UserNotFoundError?)
  {
  }
}
