/** Abstract outcomes of the HTTP requests the pipeline makes.  Nothing is sent: each
    request is replaced by the value it produced, so that every branch the code takes on
    a reply can be reached by choosing that value. */
module Transport {

  /** Reading a body as JSON of the expected shape (reqwest's `Response::json`) */
  datatype Body<T> = Decoded(value: T) | Malformed(reason: string)

  /** What one GET produced: no response at all (connection, proxy or timeout failure),
      or a response with its status code and its body */
  datatype Reply<T> = TransportFailure(reason: string) | Response(status: nat, body: Body<T>)

  /** One attempt through a proxy: building the proxied client (`reqwest::Proxy::http`,
      `ClientBuilder::build`) can fail before any request is sent */
  datatype Attempt<T> = ClientBuildFailed(reason: string) | Sent(reply: Reply<T>)

  /** reqwest's `StatusCode::is_success` */
  predicate IsSuccess(status: nat)
  {
    200 <= status <= 299
  }

  /** reqwest's `Response::error_for_status` fails exactly on a client (4xx) or a server
      (5xx) error status */
  predicate IsErrorStatus(status: nat)
  {
    400 <= status <= 599
  }

  /** A reply the retry loop answers with another attempt: no response, or a non-2xx status */
  predicate Retryable<T>(a: Attempt<T>)
  {
    a.Sent? && (a.reply.TransportFailure? || !IsSuccess(a.reply.status))
  }
}
