/**
  How a page load is reported: the error recorded from the last network
  reply becomes the payload of the `finished` signal, and the signal's
  handler turns that payload into the process exit status.
*/
module Outcome {

  import opened Wrappers

  /** A selection of the toolkit's network reply error codes (Qt 4's `QNetworkReply.NetworkError`). */
  datatype ReplyError =
    | NoError
    | ConnectionRefusedError | RemoteHostClosedError | HostNotFoundError | TimeoutError
    | OperationCanceledError | SslHandshakeFailedError | TemporaryNetworkFailureError
    | NetworkSessionFailedError
    | UnknownNetworkError
    | ProxyConnectionRefusedError | ProxyConnectionClosedError | ProxyNotFoundError
    | ProxyTimeoutError | ProxyAuthenticationRequiredError | UnknownProxyError
    | ContentAccessDenied | ContentOperationNotPermittedError | ContentNotFoundError
    | AuthenticationRequiredError | ContentReSendError | UnknownContentError
    | ProtocolUnknownError | ProtocolInvalidOperationError | ProtocolFailure

  /** The enumerator's `name`. */
  function Name(e: ReplyError): string {
    match e
    case NoError => "NoError"
    case ConnectionRefusedError => "ConnectionRefusedError"
    case RemoteHostClosedError => "RemoteHostClosedError"
    case HostNotFoundError => "HostNotFoundError"
    case TimeoutError => "TimeoutError"
    case OperationCanceledError => "OperationCanceledError"
    case SslHandshakeFailedError => "SslHandshakeFailedError"
    case TemporaryNetworkFailureError => "TemporaryNetworkFailureError"
    case NetworkSessionFailedError => "NetworkSessionFailedError"
    case UnknownNetworkError => "UnknownNetworkError"
    case ProxyConnectionRefusedError => "ProxyConnectionRefusedError"
    case ProxyConnectionClosedError => "ProxyConnectionClosedError"
    case ProxyNotFoundError => "ProxyNotFoundError"
    case ProxyTimeoutError => "ProxyTimeoutError"
    case ProxyAuthenticationRequiredError => "ProxyAuthenticationRequiredError"
    case UnknownProxyError => "UnknownProxyError"
    case ContentAccessDenied => "ContentAccessDenied"
    case ContentOperationNotPermittedError => "ContentOperationNotPermittedError"
    case ContentNotFoundError => "ContentNotFoundError"
    case AuthenticationRequiredError => "AuthenticationRequiredError"
    case ContentReSendError => "ContentReSendError"
    case UnknownContentError => "UnknownContentError"
    case ProtocolUnknownError => "ProtocolUnknownError"
    case ProtocolInvalidOperationError => "ProtocolInvalidOperationError"
    case ProtocolFailure => "ProtocolFailure"
  }

  /** The message reported when no network reply was ever recorded. */
  const InvalidRequestError: string := "Invalid Request Error"

  /**
    The payload of the `finished` signal, from the recorded reply: no reply
    is an invalid request, a reply without error is success (`None`), any
    other reply is reported by its error's name.
  */
  function Classify(reply: Option<ReplyError>): (error: Option<string>)
    ensures error.None? <==> reply == Some(NoError)
    ensures error == Some(InvalidRequestError) <==> reply.None?
    ensures reply.Some? && reply.value != NoError ==> error == Some(Name(reply.value))
  {
    if reply.None? then Some(InvalidRequestError)
    else if reply.value == NoError then None
    else Some(Name(reply.value))
  }

  /** How the process ends: its exit code and what it wrote to standard error. */
  datatype Exit = Exit(code: int, stderr: string)

  /**
    The handler of `finished`: exit 0 on success; otherwise write the
    message and a newline to standard error and exit 1.
  */
  function OnFinished(error: Option<string>): (exit: Exit)
    ensures exit.code == 0 <==> error.None?
    ensures exit.code == 0 || exit.code == 1
    ensures error.None? ==> exit.stderr == []
    ensures error.Some? ==> exit.stderr == error.value + "\n"
  {
    if error.None? then Exit(0, [])
    else Exit(1, error.value + "\n")
  }

  /**
    End to end: the process exits 0 exactly when the recorded reply carried
    no error; otherwise it exits 1 and names the cause on standard error.
  */
  lemma ExitStatusOfReply(reply: Option<ReplyError>)
    ensures OnFinished(Classify(reply)).code == 0 <==> reply == Some(NoError)
    ensures reply.None? ==> OnFinished(Classify(reply)) == Exit(1, InvalidRequestError + "\n")
    ensures reply.Some? && reply.value != NoError ==>
      OnFinished(Classify(reply)) == Exit(1, Name(reply.value) + "\n")
  {
  }
}
