/** Values shared by the two endpoints: optional values, results, the
    exceptions the handlers catch, and the JSON response they send back. */
module Common {

  /** One byte of an uploaded file's content. */
  newtype byte = x: int | 0 <= x < 256

  datatype Option<+T> = None | Some(value: T)

  datatype Result<+T, +E> = Success(value: T) | Failure(error: E)

  /** The exceptions the handlers distinguish: the upload handler has a
      dedicated `except ValueError` branch, every other exception is caught
      by `except Exception`. `message` is what `str(e)` gives. */
  datatype Exception = ValueError(message: string) | OtherException(message: string)

  /** The outcome of a call into a collaborator that returns nothing
      useful: it either completes or raises. */
  datatype Outcome = Completed | Raised(exception: Exception)

  /** An HTTP response: a status code and the JSON object built by
      `jsonify` from a dictionary whose values are all strings. */
  datatype Response = Response(status: int, body: map<string, string>)

  /** `jsonify({'error': message}), status` */
  function ErrorResponse(status: int, message: string): (r: Response)
    ensures r.status == status && r.body.Keys == {"error"} && r.body["error"] == message
  {
    Response(status, map["error" := message])
  }

  predicate StartsWith(s: string, prefix: string) {
    |prefix| <= |s| && s[..|prefix|] == prefix
  }

  /** `sub` occurs in `s` starting at index `k`. */
  predicate OccursAt(sub: string, s: string, k: nat) {
    k + |sub| <= |s| && s[k..k + |sub|] == sub
  }

  /** Python's `sub in s` on two strings. */
  predicate Occurs(sub: string, s: string) {
    exists k: nat :: k <= |s| && OccursAt(sub, s, k)
  }
}
