/** One round trip with the purifier's RPC proxy, and what the handler hands
    back to the host's callback. The proxy itself is not modelled: the reply
    it produced is an input to every handler. */
module Rpc {
  import opened Js

  /** A method name (the verb) and its positional arguments. */
  datatype Request = Request(verb: string, params: seq<Value>)

  /** The error object the proxy rejects with (network, handshake or
      device fault); the adapter never looks inside it. */
  datatype ProxyError = ProxyError(message: string)

  /** The proxy either resolves with the device's result array or rejects. */
  datatype Reply = Ok(result: seq<Value>) | Fault(error: ProxyError)

  /** What the callback receives as its error argument: the proxy's fault
      object itself, or `new Error(ack)` for an acknowledgement other than
      "ok" (the model keeps the raw value the error message is made from). */
  datatype Failure = Transport(cause: ProxyError) | Rejected(ack: Value)

  /** How the host's callback ends up being invoked, if at all. */
  datatype Callback<+T> = Answered(value: T) | Failed(failure: Failure) | NotCalled

  /** The request a handler sends and the way it completes the callback. */
  datatype Exchange<+T> = Exchange(sent: Request, outcome: Callback<T>)

  /** The acknowledgement every mutating call expects as its first result. */
  const Ack: string := "ok"

  /** `result[0]`, which is `undefined` for an empty result array. */
  function First(result: seq<Value>): (v: Value)
    ensures |result| > 0 ==> v == result[0]
    ensures |result| == 0 ==> v == Undefined
  {
    if |result| > 0 then result[0] else Undefined
  }

  /** The `get_prop` query for one device property. */
  function Query(key: string): (q: Request)
    ensures q.verb == "get_prop" && |q.params| == 1 && q.params[0] == Str(key)
  {
    Request("get_prop", [Str(key)])
  }

  /** The acknowledgement rule shared by every setter: success exactly when
      the first result is the string "ok", a rejection carrying any other
      first result, and a proxy fault forwarded unchanged. */
  function Acknowledge(reply: Reply): (r: Callback<()>)
    ensures !r.NotCalled?
    ensures r.Answered? <==> reply.Ok? && First(reply.result) == Str(Ack)
    ensures r.Failed? && r.failure.Rejected? <==> reply.Ok? && First(reply.result) != Str(Ack)
    ensures r.Failed? && r.failure.Rejected? ==> r.failure.ack == First(reply.result)
    ensures r.Failed? && r.failure.Transport? <==> reply.Fault?
    ensures reply.Fault? ==> r == Failed(Transport(reply.error))
  {
    match reply
    case Fault(e) => Failed(Transport(e))
    case Ok(result) =>
      if First(result) == Str(Ack) then Answered(()) else Failed(Rejected(First(result)))
  }

  /** The completion shared by every getter: decode the first result, or
      forward the proxy's fault. */
  function Decoded<T>(reply: Reply, decode: Value -> T): (r: Callback<T>)
    ensures reply.Ok? ==> r == Answered(decode(First(reply.result)))
    ensures reply.Fault? ==> r == Failed(Transport(reply.error))
  {
    match reply
    case Ok(result) => Answered(decode(First(result)))
    case Fault(e) => Failed(Transport(e))
  }
}
