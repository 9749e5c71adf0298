/** What one call of `RPCClient.handle` does, as functions of the client's
    state before the call: which envelopes it sends (`Outbound`) and how it
    settles the promises of earlier requests (`Settled`). The class in
    rpc_client.dfy performs these steps in place and is proved against them. */
module Correlation {
  import opened Options
  import opened JsValue
  import opened Envelope

  /** The state of a promise returned by `request`. */
  datatype Promise = Pending | Fulfilled(value: Value) | Rejected(reason: Value)

  /** What awaiting a handler gives: the value it returned (or its promise
      resolved with), or the value it threw (or its promise rejected with). */
  datatype Outcome = Return(value: Value) | Throw(error: Value)

  type Handler = Value -> Outcome

  /** An inbound message after `JSON.parse`: the text was not JSON, or it parsed to a value. */
  datatype Inbound = Unparsable | Parsed(message: Value)

  /** Which branch of `handle` a message takes. */
  datatype Kind =
    | Garbled                                           // caught by the outer `catch`
    | Call(id: Value, name: Value, params: Value)       // `method` is truthy: a server request
    | Response(id: Value, error: Value, result: Value)  // otherwise: a response to one of our requests

  /** The error payload built when no handler is registered. */
  const MethodNotFound := Obj(map["code" := Num(-32601), "message" := Str("Method not found")])
  /** The error payload built by the outer `catch`. */
  const ParseError := Obj(map["code" := Num(-32700), "message" := Str("Parse error")])
  /** What calling the missing handler (`undefined`) throws (V8's wording). */
  const NotAFunction := ErrorObject("TypeError", "handler is not a function")

  /** The envelope the outer `catch` sends: `stringifyError(undefined, parseErrorObject)`. */
  function ParseErrorReply(): (e: Envelope)
    ensures e == ErrorEnv(Undefined, "[object Object]")
  {
    StringifyError(Undefined, ParseError).value
  }

  /** Parsing and destructuring: text that is not JSON, or a value whose
      destructuring throws (`null`, and `undefined`, which JSON.parse never
      returns), ends in the outer `catch`; any other value is a call exactly when
      its `method` member is truthy. */
  function Classify(input: Inbound): (k: Kind)
    ensures k.Garbled? <==> input.Unparsable? || Nullish(input.message)
    ensures k.Call? <==> input.Parsed? && Truthy(Get(input.message, "method"))
    ensures k.Call? ==> k.id == Get(input.message, "id") && k.name == Get(input.message, "method")
                        && k.params == Get(input.message, "params")
    ensures k.Response? ==> k.id == Get(input.message, "id") && k.error == Get(input.message, "error")
                            && k.result == Get(input.message, "result")
  {
    match input
    case Unparsable => Garbled
    case Parsed(message) =>
      if Nullish(message) then Garbled
      else
        var id, result, error, name, params :=
          Get(message, "id"), Get(message, "result"), Get(message, "error"), Get(message, "method"), Get(message, "params");
        if Truthy(name) then Call(id, name, params) else Response(id, error, result)
  }

  /** `handlersMap.get(method)`: the map's keys are method names, so only a string finds one. */
  function FindHandler(handlers: map<string, Handler>, name: Value): (r: Option<Handler>)
    ensures r.Some? <==> name.Str? && name.s in handlers
    ensures r.Some? ==> r.value == handlers[name.s]
  {
    if name.Str? && name.s in handlers then Some(handlers[name.s]) else None
  }

  /** The inner `try`/`catch` around the handler: a returned value becomes a result
      envelope, a thrown one an error envelope carrying its text. When the thrown
      value has no text (`null`, `undefined`, or a value whose `toString()` throws),
      the throw inside the `catch` reaches the outer `catch`, which answers with the
      parse-error envelope instead. */
  function Reply(id: Value, outcome: Outcome): (e: Envelope)
    ensures outcome.Return? ==> e == ResultEnv(id, outcome.value)
    ensures outcome.Throw? && !Nullish(outcome.error) && !ToStringThrows(outcome.error) ==>
              e == ErrorEnv(id, ToString(outcome.error))
    ensures outcome.Throw? && (Nullish(outcome.error) || ToStringThrows(outcome.error)) ==> e == ParseErrorReply()
  {
    match outcome
    case Return(v) => StringifyResult(id, v)
    case Throw(err) =>
      match StringifyError(id, err)
      case Some(env) => env
      case None => ParseErrorReply()
  }

  /** The server-request branch. When no handler is found, the code first logs the
      method name through a template literal; for a name whose conversion to text
      throws, the outer `catch` answers alone. Otherwise the missing handler is
      reported, and then the code goes on to call it anyway: calling `undefined`
      throws, and that is answered too. */
  function Dispatch(handlers: map<string, Handler>, id: Value, name: Value, params: Value): (out: seq<Envelope>)
    ensures 1 <= |out| <= 2
    ensures |out| == 2 <==> FindHandler(handlers, name).None? && !ToStringThrows(name)
    ensures FindHandler(handlers, name).None? && ToStringThrows(name) ==> out == [ParseErrorReply()]
  {
    var handler := FindHandler(handlers, name);
    if handler.None? && ToStringThrows(name) then [ParseErrorReply()]
    else
      var notFound := if handler.None? then [StringifyError(id, MethodNotFound).value] else [];
      var outcome := if handler.Some? then handler.value(params) else Throw(NotAFunction);
      notFound + [Reply(id, outcome)]
  }

  /** A response id under which a callback is stored; the map's keys are strings. */
  predicate HasCallback(callbacks: map<string, nat>, id: Value) {
    id.Str? && id.s in callbacks
  }

  /** Every envelope one `handle` call passes to `send`, in order. A response is
      answered only when it has no callback and its id, written into the log line
      through a template literal, cannot be converted to text. */
  function Outbound(handlers: map<string, Handler>, callbacks: map<string, nat>, input: Inbound): (out: seq<Envelope>)
    ensures out == [] <==> Classify(input).Response?
                           && (HasCallback(callbacks, Classify(input).id) || !ToStringThrows(Classify(input).id))
  {
    match Classify(input)
    case Garbled => [ParseErrorReply()]
    case Call(id, name, params) => Dispatch(handlers, id, name, params)
    case Response(id, _, _) =>
      if !HasCallback(callbacks, id) && ToStringThrows(id) then [ParseErrorReply()] else []
  }

  /** The stored callback `(err, data) => err ? reject(err) : resolve(data)` applied
      to a promise: a pending one is rejected exactly when the error is truthy and
      resolved with the result otherwise; a settled one is left as it is. */
  function Settle(p: Promise, error: Value, result: Value): (q: Promise)
    ensures !q.Pending?
    ensures !p.Pending? ==> q == p
    ensures p.Pending? ==> (q.Rejected? <==> Truthy(error))
    ensures p.Pending? && q.Rejected? ==> q.reason == error
    ensures p.Pending? && q.Fulfilled? ==> q.value == result
  {
    if !p.Pending? then p
    else if Truthy(error) then Rejected(error)
    else Fulfilled(result)
  }

  /** Every id in the callback map names one of the promises made so far. */
  predicate CallbacksInRange(callbacks: map<string, nat>, promises: seq<Promise>) {
    forall id :: id in callbacks ==> callbacks[id] < |promises|
  }

  /** The promises after one `handle` call: a response whose id has a stored callback
      settles that callback's promise; nothing else changes any promise. */
  function Settled(promises: seq<Promise>, callbacks: map<string, nat>, input: Inbound): (ps: seq<Promise>)
    requires CallbacksInRange(callbacks, promises)
    ensures |ps| == |promises|
    ensures forall i :: 0 <= i < |promises| && !promises[i].Pending? ==> ps[i] == promises[i]
    ensures forall i :: 0 <= i < |promises| && ps[i] != promises[i] ==>
              Classify(input).Response? && Classify(input).id.Str?
              && Classify(input).id.s in callbacks && callbacks[Classify(input).id.s] == i
  {
    match Classify(input)
    case Response(id, error, result) =>
      if id.Str? && id.s in callbacks then
        var i := callbacks[id.s];
        promises[i := Settle(promises[i], error, result)]
      else promises
    case _ => promises
  }

  /** The value the handler called for `input` threw, when one was found and threw. */
  function ThrownBy(handlers: map<string, Handler>, input: Inbound): Option<Value> {
    match Classify(input)
    case Call(_, name, params) =>
      var h := FindHandler(handlers, name);
      if h.Some? && h.value(params).Throw? then Some(h.value(params).error) else None
    case _ => None
  }

  predicate HasNoDigit(t: string) {
    forall j :: 0 <= j < |t| ==> !('0' <= t[j] <= '9')
  }

  /** A server request whose handler returns `v` is answered by exactly one result
      envelope carrying the request's id, and no promise changes. */
  lemma HandlerReturns(handlers: map<string, Handler>, promises: seq<Promise>, callbacks: map<string, nat>,
                       message: Value, name: string, v: Value)
    requires CallbacksInRange(callbacks, promises)
    requires Get(message, "method") == Str(name) && name != "" && name in handlers
    requires handlers[name](Get(message, "params")) == Return(v)
    ensures Outbound(handlers, callbacks, Parsed(message)) == [ResultEnv(Get(message, "id"), v)]
    ensures Settled(promises, callbacks, Parsed(message)) == promises
  {
  }

  /** A server request whose handler throws `e` is answered by exactly one error
      envelope carrying the request's id and the text of `e`; the throw goes no
      further. When `e` has no text (`null`, `undefined`, or a value whose
      `toString()` throws), the parse-error envelope goes out instead. */
  lemma HandlerThrows(handlers: map<string, Handler>, promises: seq<Promise>, callbacks: map<string, nat>,
                      message: Value, name: string, e: Value)
    requires CallbacksInRange(callbacks, promises)
    requires Get(message, "method") == Str(name) && name != "" && name in handlers
    requires handlers[name](Get(message, "params")) == Throw(e)
    ensures !Nullish(e) && !ToStringThrows(e) ==>
              Outbound(handlers, callbacks, Parsed(message)) == [ErrorEnv(Get(message, "id"), ToString(e))]
    ensures Nullish(e) || ToStringThrows(e) ==>
              Outbound(handlers, callbacks, Parsed(message)) == [ErrorEnv(Undefined, "[object Object]")]
    ensures Settled(promises, callbacks, Parsed(message)) == promises
  {
  }

  /** A server request for a method with no handler is answered twice, both times
      with the request's id: first the method-not-found error, whose payload is the
      text of a plain object, then the error thrown by calling the missing handler.
      When the method name cannot be converted to text, logging it throws first and
      only the id-less parse-error envelope goes out. No payload holds a digit, so
      the code -32601 never reaches the wire. */
  lemma MissingHandler(handlers: map<string, Handler>, promises: seq<Promise>, callbacks: map<string, nat>,
                       message: Value)
    requires CallbacksInRange(callbacks, promises)
    requires !Nullish(message) && Truthy(Get(message, "method"))
    requires !(Get(message, "method").Str? && Get(message, "method").s in handlers)
    ensures var id := Get(message, "id");
      !ToStringThrows(Get(message, "method")) ==>
        Outbound(handlers, callbacks, Parsed(message))
        == [ErrorEnv(id, "[object Object]"), ErrorEnv(id, "TypeError: handler is not a function")]
    ensures ToStringThrows(Get(message, "method")) ==>
              Outbound(handlers, callbacks, Parsed(message)) == [ErrorEnv(Undefined, "[object Object]")]
    ensures forall j :: 0 <= j < |Outbound(handlers, callbacks, Parsed(message))| ==>
              HasNoDigit(Outbound(handlers, callbacks, Parsed(message))[j].error)
    ensures Settled(promises, callbacks, Parsed(message)) == promises
  {
    BuiltInTextsHaveNoDigit();
    var id, name := Get(message, "id"), Get(message, "method");
    assert FindHandler(handlers, name).None?;
    if !ToStringThrows(name) {
      assert ToString(MethodNotFound) == "[object Object]";
      NotAFunctionText();
      assert StringifyError(id, MethodNotFound).value == ErrorEnv(id, "[object Object]");
      assert Reply(id, Throw(NotAFunction)) == ErrorEnv(id, "TypeError: handler is not a function");
      assert Dispatch(handlers, id, name, Get(message, "params"))
          == [ErrorEnv(id, "[object Object]"), ErrorEnv(id, "TypeError: handler is not a function")];
    }
  }

  /** The text of the TypeError thrown by calling the missing handler. */
  lemma NotAFunctionText()
    ensures ToString(NotAFunction) == "TypeError: handler is not a function"
  {
    JoinTypeErrorText(NotAFunction.name, NotAFunction.message);
  }

  lemma JoinTypeErrorText(name: string, message: string)
    requires name == "TypeError" && message == "handler is not a function"
    ensures name + ": " + message == "TypeError: handler is not a function"
  {
    var a := name + ": " + message;
    var b := "TypeError: handler is not a function";
    assert |a| == |b|;
    forall i | 0 <= i < |a| ensures a[i] == b[i] {
      if i < 9 {
        assert a[i] == "TypeError"[i];
      } else if i < 11 {
        assert a[i] == ": "[i - 9];
      } else {
        assert a[i] == "handler is not a function"[i - 11];
      }
    }
  }

  lemma BuiltInTextsHaveNoDigit()
    ensures HasNoDigit("[object Object]") && HasNoDigit("TypeError: handler is not a function")
  {
    var t := "[object Object]";
    forall j | 0 <= j < |t| ensures !('0' <= t[j] <= '9') {
      assert t[j] in t;
    }
    var u := "TypeError: handler is not a function";
    forall j | 0 <= j < |u| ensures !('0' <= u[j] <= '9') {
      assert u[j] in u;
    }
  }

  /** Every error text `handle` sends is the text of a plain object, the text of the
      TypeError thrown by calling a missing handler, or the text of what a handler
      threw. The first two contain no digit, so unless a handler throws, no error
      code ever reaches the wire. */
  lemma ErrorTextsOnTheWire(handlers: map<string, Handler>, callbacks: map<string, nat>, input: Inbound)
    ensures var out := Outbound(handlers, callbacks, input);
      forall j :: 0 <= j < |out| && out[j].ErrorEnv? ==>
        || out[j].error == "[object Object]"
        || out[j].error == "TypeError: handler is not a function"
        || (ThrownBy(handlers, input).Some? && !Nullish(ThrownBy(handlers, input).value)
            && !ToStringThrows(ThrownBy(handlers, input).value)
            && out[j].error == ToString(ThrownBy(handlers, input).value))
    ensures var out := Outbound(handlers, callbacks, input);
      ThrownBy(handlers, input).None? ==>
        forall j :: 0 <= j < |out| && out[j].ErrorEnv? ==> HasNoDigit(out[j].error)
  {
    BuiltInTextsHaveNoDigit();
    NotAFunctionText();
    var out := Outbound(handlers, callbacks, input);
    match Classify(input)
    case Garbled =>
      assert out == [ParseErrorReply()];
    case Call(id, name, params) =>
      var h := FindHandler(handlers, name);
      if h.None? && ToStringThrows(name) {
        assert out == [ParseErrorReply()];
      } else {
        var outcome := if h.Some? then h.value(params) else Throw(NotAFunction);
        var last := Reply(id, outcome);
        assert out == (if h.None? then [StringifyError(id, MethodNotFound).value] else []) + [last];
        assert ToString(MethodNotFound) == "[object Object]";
        assert last.ErrorEnv? ==>
          || last.error == "[object Object]"
          || last.error == "TypeError: handler is not a function"
          || (ThrownBy(handlers, input).Some? && !Nullish(ThrownBy(handlers, input).value)
              && !ToStringThrows(ThrownBy(handlers, input).value)
              && last.error == ToString(ThrownBy(handlers, input).value));
      }
    case Response(id, _, _) =>
      assert out == [] || out == [ParseErrorReply()];
  }

  /** A response whose id has a stored callback sends nothing and settles only that
      callback's promise: if it is still pending it is rejected exactly when `error`
      is truthy (with `error`) and otherwise resolved with `result`; if it was
      already settled by an earlier response it keeps that first settlement. */
  lemma ResponseSettles(handlers: map<string, Handler>, promises: seq<Promise>, callbacks: map<string, nat>,
                        message: Value, id: string)
    requires CallbacksInRange(callbacks, promises)
    requires !Nullish(message) && !Truthy(Get(message, "method"))
    requires Get(message, "id") == Str(id) && id in callbacks
    ensures Outbound(handlers, callbacks, Parsed(message)) == []
    ensures var i, ps := callbacks[id], Settled(promises, callbacks, Parsed(message));
      && (forall j :: 0 <= j < |ps| && j != i ==> ps[j] == promises[j])
      && (promises[i].Pending? && Truthy(Get(message, "error")) ==> ps[i] == Rejected(Get(message, "error")))
      && (promises[i].Pending? && !Truthy(Get(message, "error")) ==> ps[i] == Fulfilled(Get(message, "result")))
      && (!promises[i].Pending? ==> ps == promises)
  {
  }

  /** A response whose id has no stored callback (unknown, or not a string) changes
      no promise, and sends nothing unless logging its id throws: then the
      parse-error envelope goes out. */
  lemma UnmatchedResponse(handlers: map<string, Handler>, promises: seq<Promise>, callbacks: map<string, nat>,
                          message: Value)
    requires CallbacksInRange(callbacks, promises)
    requires !Nullish(message) && !Truthy(Get(message, "method"))
    requires !(Get(message, "id").Str? && Get(message, "id").s in callbacks)
    ensures Outbound(handlers, callbacks, Parsed(message))
            == if ToStringThrows(Get(message, "id")) then [ErrorEnv(Undefined, "[object Object]")] else []
    ensures Settled(promises, callbacks, Parsed(message)) == promises
  {
  }

  /** Settling twice gives the first settlement: a later response for the same id
      cannot change a promise an earlier one settled. */
  lemma {:induction false} SecondResponseIsIgnored(promises: seq<Promise>, callbacks: map<string, nat>,
                                                   first: Inbound, second: Inbound)
    requires CallbacksInRange(callbacks, promises)
    ensures var once := Settled(promises, callbacks, first);
      CallbacksInRange(callbacks, once)
      && forall i :: 0 <= i < |promises| && once[i] != promises[i] ==> Settled(once, callbacks, second)[i] == once[i]
  {
    var once := Settled(promises, callbacks, first);
    forall i | 0 <= i < |promises| && once[i] != promises[i]
      ensures !once[i].Pending?
    {
      var k := Classify(first);
      assert once[i] == Settle(promises[i], k.error, k.result);
    }
  }

  /** Text that is not JSON, and a `null` (or `undefined`) message, are answered
      by exactly one error envelope that has no "id" member; no promise changes. */
  lemma GarbledInput(handlers: map<string, Handler>, promises: seq<Promise>, callbacks: map<string, nat>,
                     input: Inbound)
    requires CallbacksInRange(callbacks, promises)
    requires input.Unparsable? || Nullish(input.message)
    ensures Outbound(handlers, callbacks, input) == [ParseErrorReply()]
    ensures "id" !in Keys(Members(ParseErrorReply()))
    ensures Members(ParseErrorReply()) == [("jsonrpc", Str(Version)), ("error", Str("[object Object]"))]
    ensures Settled(promises, callbacks, input) == promises
  {
    MemberOrder(ParseErrorReply());
    var lit := Literal(ParseErrorReply());
    assert lit == [("jsonrpc", Str(Version)), ("id", Undefined), ("error", Str("[object Object]"))];
    assert lit[1..][1..][1..] == [];
  }

  /** How a peer running this code classifies what we send: an envelope is taken
      as a call exactly when it is a request with a truthy method name, so a
      request for the empty method name "" is taken for a response. */
  lemma PeerClassifies(e: Envelope)
    ensures Classify(Parsed(ToObject(e))).Call? <==> e.RequestEnv? && Truthy(e.name)
  {
    match e
    case RequestEnv(id, name, params) =>
      assert Literal(e) == [("jsonrpc", Str(Version)), ("id", id), ("method", name), ("params", params)];
      ReadBack(e, 2);
    case ResultEnv(id, result) =>
      assert Literal(e) == [("jsonrpc", Str(Version)), ("id", id), ("result", result)];
      ReadBackAbsent(e, "method");
    case ErrorEnv(id, error) =>
      assert Literal(e) == [("jsonrpc", Str(Version)), ("id", id), ("error", Str(error))];
      ReadBackAbsent(e, "method");
  }

  /** A request this code sends, received by a peer running this code whose
      handler returns `v` for the params as JSON carries them, is answered by a
      result envelope with the same id. */
  lemma PeerAnswersRequest(handlers: map<string, Handler>, callbacks: map<string, nat>,
                            id: string, name: string, params: Value, v: Value)
    requires name != "" && name in handlers && handlers[name](Reparse(params)) == Return(v)
    ensures Outbound(handlers, callbacks, Parsed(ToObject(StringifyRequest(id, name, params)))) == [ResultEnv(Str(id), v)]
  {
    RequestRoundTrip(id, name, params);
  }

  /** A result envelope a peer sends back for our pending request resolves that
      request's promise with the result as JSON carries it: the result itself
      exactly when it is JSON-safe. */
  lemma PeerResultResolves(promises: seq<Promise>, callbacks: map<string, nat>, id: string, v: Value)
    requires CallbacksInRange(callbacks, promises)
    requires id in callbacks && promises[callbacks[id]].Pending?
    ensures Settled(promises, callbacks, Parsed(ToObject(StringifyResult(Str(id), v))))[callbacks[id]] == Fulfilled(Reparse(v))
    ensures Settled(promises, callbacks, Parsed(ToObject(StringifyResult(Str(id), v))))[callbacks[id]] == Fulfilled(v)
            <==> JsonSafe(v)
  {
    var o := ToObject(StringifyResult(Str(id), v));
    assert Classify(Parsed(o)) == Response(Str(id), Undefined, Reparse(v)) by {
      ResultRoundTrip(Str(id), v);
    }
    var i := callbacks[id];
    assert Settled(promises, callbacks, Parsed(o)) == promises[i := Fulfilled(Reparse(v))];
    ReparseKeepsExactlyJsonSafe(v);
  }

  /** An error envelope a peer sends back for our pending request rejects that
      request's promise with the error text, unless the text is empty: the empty
      string is falsy, and the promise is resolved with `undefined` instead. */
  lemma PeerErrorRejects(promises: seq<Promise>, callbacks: map<string, nat>, id: string, text: string)
    requires CallbacksInRange(callbacks, promises)
    requires id in callbacks && promises[callbacks[id]].Pending?
    ensures Settled(promises, callbacks, Parsed(ToObject(ErrorEnv(Str(id), text))))[callbacks[id]]
            == if text == "" then Fulfilled(Undefined) else Rejected(Str(text))
  {
    ErrorRoundTrip(Str(id), text);
  }
}
