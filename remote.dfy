/** The remote auth-method service as the resource sees it: the calls it
    makes, in order, and the answers it gets back. */
module Remote {
  import opened Values
  import opened Options

  /** An error answer of the service, with its HTTP status. */
  datatype ApiError = ApiError(status: int, message: string)

  const StatusNotFound: int := 404

  datatype Call =
    | CreateCall(typ: string, scopeId: string, opts: seq<AmOption>)
    | ReadCall(id: string)
    | UpdateCall(id: string, version: int, opts: seq<AmOption>)
    | DeleteCall(id: string)

  /** The answer to a call: a result carrying the service's response, a
      result without one, or an error. */
  datatype Reply = Answer(resp: Response) | NoAnswer | Failure(err: ApiError)

  /** A client whose calls are recorded in `log` and whose answers are
      taken, one per call, from `replies`. */
  class Client {
    var log: seq<Call>
    var replies: seq<Reply>

    constructor (replies: seq<Reply>)
      ensures log == [] && this.replies == replies
    {
      log := [];
      this.replies := replies;
    }

    /** Makes call `c` and returns the next answer. */
    method Send(c: Call) returns (r: Reply)
      requires replies != []
      modifies this
      ensures log == old(log) + [c]
      ensures r == old(replies)[0] && replies == old(replies)[1..]
    {
      log := log + [c];
      r := replies[0];
      replies := replies[1..];
    }
  }
}
