/** The ACPI firmware as the drivers see it through `acpi_evaluate_object`: a
    named method is evaluated on a request buffer and either fails, returns an
    object that is not a buffer, or returns a buffer. What the firmware answers
    is left open: `respond` may be any function of the whole history of calls
    up to and including the current one, so a firmware whose state changes from
    call to call is covered. */
module AcpiFirmware {
  import opened ScaiLayout

  datatype Reply = EvalError | NonBuffer | Buffer(data: seq<byte>)

  datatype Call = Call(pathname: string, request: seq<byte>)

  class Firmware {
    const respond: seq<Call> -> Reply
    /** Every evaluation made so far, oldest first. */
    var calls: seq<Call>

    constructor (respond: seq<Call> -> Reply)
      ensures this.respond == respond && calls == []
    {
      this.respond := respond;
      calls := [];
    }

    /** The firmware's answer to the latest evaluation. */
    function LastReply(): Reply
      reads this
    {
      respond(calls)
    }

    method Evaluate(pathname: string, request: seq<byte>) returns (reply: Reply)
      modifies this
      ensures calls == old(calls) + [Call(pathname, request)]
      ensures reply == LastReply()
    {
      calls := calls + [Call(pathname, request)];
      reply := respond(calls);
    }
  }
}
