/** `RPCClient`: the pending-call map, the handler map and the transport's
    `send`, updated in place by `handle`, `request` and `on`. Sending is
    appending to the `sent` log. Each method is proved against the functions
    of correlation.dfy, and the methods at the end replay client scenarios
    on a fresh instance. */
module Client {
  import opened JsValue
  import opened Envelope
  import opened RandomString
  import opened Correlation

  /** `request` asks `getRandomString` for ten characters. */
  const IdSize := 10

  class RpcClient {
    /** `requestCallbacksMap`: for each request id, the index in `promises` of the
        promise its callback settles. Entries are added and overwritten, never removed. */
    var callbacks: map<string, nat>
    /** Every promise `request` has returned, in the order they were made. */
    var promises: seq<Promise>
    /** `handlersMap`: method name to handler. */
    var handlers: map<string, Handler>
    /** Every message passed to `send`, in order. */
    var sent: seq<Envelope>

    ghost predicate Valid()
      reads this
    {
      CallbacksInRange(callbacks, promises)
    }

    constructor ()
      ensures Valid()
      ensures callbacks == map[] && promises == [] && handlers == map[] && sent == []
    {
      callbacks := map[];
      promises := [];
      handlers := map[];
      sent := [];
    }

    /** `handle(rawMessage)`, with the text already through JSON.parse. Neither map
        changes; the envelopes sent and the promises settled are those the
        correlation functions give for the state before the call. */
    method Handle(input: Inbound)
      requires Valid()
      modifies this
      ensures Valid()
      ensures callbacks == old(callbacks) && handlers == old(handlers)
      ensures sent == old(sent) + Outbound(old(handlers), old(callbacks), input)
      ensures promises == Settled(old(promises), old(callbacks), input)
    {
      match input {
        case Unparsable =>
          sent := sent + [ParseErrorReply()];
        case Parsed(message) =>
          if Nullish(message) {
            // destructuring null (or undefined) throws: the outer catch answers
            sent := sent + [ParseErrorReply()];
          } else {
            var id, result, error, name, params :=
              Get(message, "id"), Get(message, "result"), Get(message, "error"), Get(message, "method"), Get(message, "params");
            if Truthy(name) {
              var handler := FindHandler(handlers, name);
              if handler.None? && ToStringThrows(name) {
                // the template literal logging the name throws: the outer catch answers
                sent := sent + [ParseErrorReply()];
              } else {
                if handler.None? {
                  sent := sent + [StringifyError(id, MethodNotFound).value];
                }
                // no return here: the missing handler is called as well
                var outcome := if handler.Some? then handler.value(params) else Throw(NotAFunction);
                match outcome {
                  case Return(v) =>
                    sent := sent + [StringifyResult(id, v)];
                  case Throw(err) =>
                    var reply := StringifyError(id, err);
                    if reply.Some? {
                      sent := sent + [reply.value];
                    } else {
                      // the thrown value has no text, so the catch itself throws: the outer catch answers
                      sent := sent + [ParseErrorReply()];
                    }
                }
              }
            } else if id.Str? && id.s in callbacks {
              var i := callbacks[id.s];
              promises := promises[i := Settle(promises[i], error, result)];
            } else if ToStringThrows(id) {
              // the template literal logging the unknown id throws: the outer catch answers
              sent := sent + [ParseErrorReply()];
            }
          }
      }
    }

    /** `request(method, params)`: a new pending promise (returned as its index), its
        callback stored under a generated id, overwriting any callback already
        there, and one request envelope sent. The id is made from `draws`, the
        texts of the `Math.random()` calls `getRandomString(10)` makes. */
    method Request(name: string, params: Value, draws: nat -> string) returns (p: nat)
      requires Valid()
      modifies this
      ensures Valid()
      ensures var id := GetRandomString(IdSize, draws, 0);
        && |id| <= IdSize
        && p == |old(promises)| && promises == old(promises) + [Pending]
        && callbacks == old(callbacks)[id := p]
        && handlers == old(handlers)
        && sent == old(sent) + [StringifyRequest(id, name, params)]
    {
      var id := GetRandomString(IdSize, draws, 0);
      p := |promises|;
      promises := promises + [Pending];
      callbacks := callbacks[id := p];
      sent := sent + [StringifyRequest(id, name, params)];
    }

    /** `on(method, handler)`: the handler replaces any earlier one for the name;
        nothing is sent and no request is touched. */
    method On(name: string, handler: Handler)
      requires Valid()
      modifies this
      ensures Valid()
      ensures handlers == old(handlers)[name := handler]
      ensures callbacks == old(callbacks) && promises == old(promises) && sent == old(sent)
    {
      handlers := handlers[name := handler];
    }
  }

  /** An inbound request for "ping" with id "abc", to a client whose "ping" handler
      returns "pong", is answered by one result envelope with that id. */
  method PingPong() returns (out: seq<Envelope>)
    ensures out == [ResultEnv(Str("abc"), Str("pong"))]
  {
    var client := new RpcClient();
    client.On("ping", (params: Value) => Return(Str("pong")));
    var message := Obj(map["jsonrpc" := Str(Version), "id" := Str("abc"), "method" := Str("ping"), "params" := Null]);
    client.Handle(Parsed(message));
    out := client.sent;
  }

  /** An inbound request for a method nobody registered is answered twice, and the
      code -32601 appears in neither answer. */
  method UnknownMethod() returns (out: seq<Envelope>)
    ensures out == [ErrorEnv(Str("abc"), "[object Object]"), ErrorEnv(Str("abc"), "TypeError: handler is not a function")]
  {
    var client := new RpcClient();
    var message := Obj(map["jsonrpc" := Str(Version), "id" := Str("abc"), "method" := Str("unknown"), "params" := Null]);
    MissingHandler(client.handlers, client.promises, client.callbacks, message);
    client.Handle(Parsed(message));
    out := client.sent;
  }

  /** An inbound request whose method is an object with its own `toString` member,
      a name no handler is registered under: logging the name throws before the
      method-not-found error is sent, so only the id-less parse-error envelope
      goes out. */
  method UnprintableMethod() returns (out: seq<Envelope>)
    ensures out == [ErrorEnv(Undefined, "[object Object]")]
  {
    var client := new RpcClient();
    var name := Obj(map["toString" := Num(1)]);
    var message := Obj(map["jsonrpc" := Str(Version), "id" := Str("abc"), "method" := name]);
    MissingHandler(client.handlers, client.promises, client.callbacks, message);
    client.Handle(Parsed(message));
    out := client.sent;
  }

  /** Text that is not JSON is answered by one error envelope without an id. */
  method NotJson() returns (out: seq<Envelope>)
    ensures out == [ErrorEnv(Undefined, "[object Object]")]
  {
    var client := new RpcClient();
    client.Handle(Unparsable);
    out := client.sent;
  }

  /** A request answered by the peer's result envelope for its id resolves with
      that result as JSON carries it, which is the result itself when it is
      JSON-safe. */
  method RequestThenResult(name: string, params: Value, draws: nat -> string, v: Value) returns (settled: Promise)
    ensures settled == Fulfilled(Reparse(v))
    ensures JsonSafe(v) ==> settled == Fulfilled(v)
  {
    var client := new RpcClient();
    var p := client.Request(name, params, draws);
    var id := GetRandomString(IdSize, draws, 0);
    PeerResultResolves(client.promises, client.callbacks, id, v);
    client.Handle(Parsed(ToObject(StringifyResult(Str(id), v))));
    settled := client.promises[p];
  }

  /** A request answered by the peer's error envelope is rejected with the error
      text, unless that text is empty. */
  method RequestThenError(name: string, params: Value, draws: nat -> string, text: string) returns (settled: Promise)
    ensures settled == if text == "" then Fulfilled(Undefined) else Rejected(Str(text))
  {
    var client := new RpcClient();
    var p := client.Request(name, params, draws);
    var id := GetRandomString(IdSize, draws, 0);
    PeerErrorRejects(client.promises, client.callbacks, id, text);
    client.Handle(Parsed(ToObject(ErrorEnv(Str(id), text))));
    settled := client.promises[p];
  }

  /** Two requests in flight with different ids, answered in the reverse order:
      each promise gets its own result. */
  method ResponsesInReverseOrder(d1: nat -> string, d2: nat -> string, v1: Value, v2: Value)
    returns (s1: Promise, s2: Promise)
    requires GetRandomString(IdSize, d1, 0) != GetRandomString(IdSize, d2, 0)
    ensures s1 == Fulfilled(Reparse(v1)) && s2 == Fulfilled(Reparse(v2))
  {
    var client := new RpcClient();
    var p1 := client.Request("first", Null, d1);
    var p2 := client.Request("second", Null, d2);
    var id1, id2 := GetRandomString(IdSize, d1, 0), GetRandomString(IdSize, d2, 0);
    PeerResultResolves(client.promises, client.callbacks, id2, v2);
    client.Handle(Parsed(ToObject(StringifyResult(Str(id2), v2))));
    PeerResultResolves(client.promises, client.callbacks, id1, v1);
    client.Handle(Parsed(ToObject(StringifyResult(Str(id1), v1))));
    s1, s2 := client.promises[p1], client.promises[p2];
  }

  /** Two requests whose generated ids collide: the second callback overwrites the
      first, so the answer settles the second promise and the first stays pending
      for good. */
  method IdCollision(d1: nat -> string, d2: nat -> string, v: Value) returns (s1: Promise, s2: Promise)
    requires GetRandomString(IdSize, d1, 0) == GetRandomString(IdSize, d2, 0)
    ensures s1 == Pending && s2 == Fulfilled(Reparse(v))
  {
    var client := new RpcClient();
    var p1 := client.Request("first", Null, d1);
    var p2 := client.Request("second", Null, d2);
    var id := GetRandomString(IdSize, d2, 0);
    PeerResultResolves(client.promises, client.callbacks, id, v);
    client.Handle(Parsed(ToObject(StringifyResult(Str(id), v))));
    s1, s2 := client.promises[p1], client.promises[p2];
  }
}
