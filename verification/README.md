# JSON-RPC 2.0 correlator (`RPCClient`) in Dafny

This project models `RPCClient`, the JSON-RPC 2.0 message correlator of the
`json-rpc` package, and the `getRandomString` id generator it uses, and proves
properties of the model.

The client turns a duplex text channel into a request/response API. `request`
stores a settlement callback under a freshly generated id and sends a request
envelope. `on` registers a handler for a method name. `handle` takes one inbound
message and does one of three things:
- a message with a truthy `method` is dispatched to its handler, and the outcome
  is sent back as a result or error envelope;
- any other message is a response, and the stored callback for its id settles
  the promise of the request;
- text that does not parse is answered with an error envelope.

Files:

- `json_value.dfy`: `Options` (an `Option` type) and `JsValue`, the JavaScript
  values the client handles. It covers JavaScript truthiness, `toString()` and
  property reads by destructuring.
- `envelope.dfy`: `Envelope`, the request, result and error envelopes and the
  three `stringify*` builders. It also gives the members `JSON.stringify` writes,
  in order and without the `undefined` ones, and the object a peer's
  `JSON.parse` rebuilds from them, nested values included.
- `random_string.dfy`: `RandomString`, which is `getRandomString(size)`. The
  texts of the `Math.random().toString(36)` calls are an input,
  `draws: nat -> string`.
- `correlation.dfy`: `Correlation`, one `handle` step as pure functions of the
  state before it. `Outbound` is what gets sent and `Settled` is how the
  promises end up. The file also holds the lemmas about that step.
- `rpc_client.dfy`: `Client`, the class `RpcClient`. Its `callbacks`, `promises`,
  `handlers` and `sent` fields are updated in place by `Handle`, `Request` and
  `On`, each proved against the `Correlation` functions. The module ends with
  client scenarios replayed on fresh instances.

State is modelled as follows:
- `requestCallbacksMap` becomes `callbacks: map<string, nat>`. It maps each id
  to the index of the promise its callback settles, in `promises: seq<Promise>`.
- A promise is `Pending`, `Fulfilled(v)` or `Rejected(e)`, and it settles only
  once.
- Handlers are total functions `Value -> Outcome`, where an outcome is
  `Return(v)` or `Throw(e)` and is already awaited.
- `send` appends to `sent`.

## Behaviour a reader might not expect

The model follows `src/index.js` at each of these points:

- **Pending entries are never deleted.** The callback map only grows. A second
  response for the same id reaches a promise that has already settled, and
  that response has no effect (lines 81-84, 98).
- **A missing handler does not stop dispatch.** The method-not-found envelope
  is sent, and then the code still calls the `undefined` handler. That call
  throws a `TypeError`, and the inner `catch` sends a second error envelope with
  the same id (lines 44-75).
- **Error codes never reach the wire.** The built-in error payloads are plain
  objects, and `toString()` turns each of them into `"[object Object]"`. So
  neither -32601 nor -32700 is sent (lines 12, 47, 90).
- **The parse-error envelope has no id.** Its id is `undefined`, and
  `JSON.stringify` drops that member (line 90).
- **The outer `catch` catches more than parse errors.** It also catches:
  - destructuring the JSON value `null` (the model treats a message of
    `undefined` the same way, although `JSON.parse` never returns one);
  - a handler that throws a value with no text, whose `toString()` throws
    inside the inner `catch`: `null`, `undefined`, or a value whose conversion
    to text throws (below);
  - the diagnostics for a missing handler (line 45) and for an unknown response
    id (line 86), whose template literals convert the method name or the id to
    text. A parsed object with its own `toString` member, or an array holding
    one, cannot be converted: its `toString` member is data, not a function,
    and the inherited `valueOf` gives the object back. For a missing handler the
    method-not-found envelope is then never sent.

  Each of these ends in the parse-error envelope alone (lines 31-35, 45, 68, 86,
  89-90).
- **Branches test truthiness.** An empty method name counts as a response
  (line 37). A response is rejected only when its `error` is truthy, so an empty
  error text resolves the promise with `undefined` (line 99).
- **Request ids can be shorter than ten characters.** A chunk is whatever
  follows "0." in the draw's text, up to seven characters, and nothing pads it.
  When every draw is `"0.i"` (0.5 in base 36), the id is `"ii"` (lines 3-8 of
  `src/utils/getRandomString.js`).
- **Colliding ids overwrite.** A second request whose generated id equals a
  pending one replaces its callback. The first promise then stays pending for
  good (line 98).

## Model

| member | source | states |
|---|---|---|
| `JsValue.Truthy` | src/index.js:37 | the falsy values are exactly `undefined`, `null`, `false`, `0` and `""`; every array, object and Error is truthy (also used at lines 44, 83 and 99) |
| `JsValue.Get` | src/index.js:33-35 | destructuring reads a member of a plain object and reads `undefined` for anything else |
| `JsValue.NatToString` | src/index.js:12 | the decimal text of a number is a numeral without leading zeros that reads back as that number |
| `JsValue.IntToString` | src/index.js:12 | a minus sign exactly for a negative number, followed by the numeral of its magnitude, which reads back as the number |
| `JsValue.ToString` | src/index.js:12 | `toString()`, defined for values that are not `null` or `undefined` and hold no own `toString` member: a string is itself, a plain object is `"[object Object]"`, a number is its decimal text, an empty array is `""`, an Error is `"name: message"`, or only the message when the name is empty, or only the name when the message is empty |
| `Envelope.StringifyRequest` | src/index.js:3-5 | the request text holds jsonrpc, id and method in that order, then params unless they are `undefined` |
| `Envelope.StringifyResult` | src/index.js:7-9 | the result text holds jsonrpc, then id and result, each only when it is not `undefined` |
| `Envelope.Literal` | src/index.js:3-13 | each object literal has jsonrpc first and id second, then its payload (two members for a request, one otherwise), with no name twice |
| `Envelope.StringifyError` | src/index.js:11-13 | the builder fails (throws) exactly on an error that is `null`, `undefined` or cannot be converted to text; otherwise the payload is the error's text and the id is kept |
| `Envelope.DefinedMembers` | src/index.js:3-13 | stringify keeps exactly the members whose value is not `undefined`, and never adds one |
| `Envelope.Reparse` | src/index.js:3-13 | a value written by `JSON.stringify` and read back by `JSON.parse` is `undefined` exactly when it was, and keeps its truthiness |
| `Envelope.ReparseKeepsExactlyJsonSafe` | src/index.js:3-13 | the round trip leaves a value unchanged exactly when it is JSON-safe: no Error anywhere and no `undefined` inside an array or object |
| `Envelope.ReparseIsJsonSafe` | src/index.js:3-13 | what the peer reads back is always JSON-safe, so a second round trip changes nothing |
| `Envelope.LookupReparsed` | src/index.js:3-13 | reading a member after the round trip gives the round trip of the member's value |
| `Envelope.ParseOfDefined` | src/index.js:3-13 | for distinct names, parsing the stringified members answers each property read as the literal does |
| `Envelope.LookupAt` | src/index.js:3-13 | with distinct names, each member of the literal is read back under its own name |
| `Envelope.LookupAbsent` | src/index.js:3-13 | a name the literal lacks reads as `undefined` |
| `Envelope.ReadBack` | src/index.js:3-13 | the peer reads each member of an envelope's literal back under its own name, as JSON carries its value |
| `Envelope.ReadBackAbsent` | src/index.js:3-13 | the peer reads a name absent from the literal as `undefined` |
| `Envelope.ParseOfStringify` | src/index.js:3-13 | round trip: for every name, the parsed envelope has the value the builder's object literal had, as JSON carries it |
| `Envelope.RequestRoundTrip` | src/index.js:3-5 | a parsed request gives back its jsonrpc, id and method, and its params as JSON carries them (unchanged exactly when JSON-safe), with no result or error |
| `Envelope.ResultRoundTrip` | src/index.js:7-9 | a parsed result gives back its id and result as JSON carries them (the result unchanged exactly when JSON-safe), with no method or error |
| `Envelope.ErrorRoundTrip` | src/index.js:11-13 | a parsed error gives back its id as JSON carries it and its error text unchanged, with no method or result |
| `Envelope.MemberOrder` | src/index.js:3-13 | "jsonrpc" comes first; "id" comes second and is present exactly when the id is defined; the error payload comes last |
| `RandomString.SubstringSpan` | src/utils/getRandomString.js:6-7 | `substring(start, end)` is the run of the string between the two clamped positions, whichever comes first, so swapping the arguments gives the same text |
| `RandomString.Chunk` | src/utils/getRandomString.js:3-6 | one chunk is the at most 7 characters after the "0." prefix of the draw |
| `RandomString.GetRandomString` | src/utils/getRandomString.js:2-9 | the result is at most `max(size, 0)` characters long |
| `RandomString.NonPositiveSize` | src/utils/getRandomString.js:7-8 | `size <= 0` gives the empty string and makes no recursive call |
| `RandomString.CallsIsCeiling` | src/utils/getRandomString.js:1-8 | for `size >= 1` the body runs ceil(size / 7) times |
| `RandomString.UsesOnlyItsDraws` | src/utils/getRandomString.js:2-8 | the result depends only on those ceil(size / 7) draws |
| `RandomString.FullChunksGiveExactLength` | src/utils/getRandomString.js:6-8 | when every chunk used has 7 characters, the length is exactly `size` for `size >= 1` |
| `RandomString.ShortChunkGivesShortResult` | src/utils/getRandomString.js:3-8 | one draw with fewer characters than both 7 and the size still wanted at its depth makes the whole result shorter than `size` |
| `RandomString.DefaultSizeCanGiveTwoCharacters` | src/utils/getRandomString.js:2-8 | with size 10 and every draw `"0.i"`, the result is `"ii"` |
| `RandomString.ResultIsBase36` | src/utils/getRandomString.js:3-6 | every character of the result is in `[0-9a-z]` |
| `RandomString.DefaultSizeShape` | src/utils/getRandomString.js:2-8 | with size 10: the whole first chunk (at most 7 characters), then at most 3 characters of the second |
| `Correlation.ParseErrorReply` | src/index.js:89-90 | the outer catch sends an error with an `undefined` id and the text `"[object Object]"` |
| `Correlation.Classify` | src/index.js:31-37 | unparsable text, `null` and `undefined` take the catch path; otherwise a message is a call iff its `method` is truthy, with id, method, params (or id, error, result) read from it |
| `Correlation.FindHandler` | src/index.js:42 | a handler is found exactly when the method is a string registered with `on`, and it is the one registered |
| `Correlation.Reply` | src/index.js:56-75 | a returned value gives a result with the same id; a thrown value gives an error carrying its text; a thrown value with no text (`null`, `undefined`, or one whose conversion throws) gives the parse-error envelope |
| `Correlation.Dispatch` | src/index.js:42-75 | a call is answered once, or twice exactly when no handler is found and the method name converts to text; a missing handler whose name does not convert gives only the parse-error envelope |
| `Correlation.Outbound` | src/index.js:30-92 | `handle` sends nothing exactly when the message is a response that either has a stored callback or has an id that converts to text |
| `Correlation.Settle` | src/index.js:97-104 | a pending promise is rejected iff the error is truthy (with it) and otherwise resolved with the result; a settled promise never changes |
| `Correlation.Settled` | src/index.js:76-87 | `handle` keeps the number of promises; a settled promise stays as it is; only the promise whose callback is stored under the response's id can change |
| `Correlation.HandlerReturns` | src/index.js:56-64 | a handler returning v gives exactly one `Result(id, v)` and no promise change |
| `Correlation.HandlerThrows` | src/index.js:65-75 | a handler throwing e gives exactly one `Error(id, text of e)`, or the parse-error envelope when e is `null`, `undefined` or does not convert to text; nothing escapes |
| `Correlation.MissingHandler` | src/index.js:44-75 | an unregistered method gives two errors with the request's id, first `"[object Object]"` then the TypeError text; when the method name does not convert to text, only the parse-error envelope (line 45 throws); no digit in any of them |
| `Correlation.ErrorTextsOnTheWire` | src/index.js:30-91 | every error text `handle` sends is `"[object Object]"`, the TypeError text, or the text of what a handler threw; when no handler threw, no error text contains a digit, so no error code reaches the wire |
| `Correlation.ResponseSettles` | src/index.js:81-84 | a matched response sends nothing; it rejects iff `error` is truthy, else resolves with `result`; it touches no other promise; it leaves an already settled promise alone |
| `Correlation.UnmatchedResponse` | src/index.js:83-90 | a response without a stored callback changes no promise; it sends nothing, unless its id does not convert to text, and then the parse-error envelope (line 86 throws) |
| `Correlation.SecondResponseIsIgnored` | src/index.js:98-104 | whatever one response settles, no later message can change |
| `Correlation.GarbledInput` | src/index.js:30-91 | unparsable text, `null` or `undefined` gives exactly one error envelope whose members are jsonrpc and error only (no id); no promise changes |
| `Correlation.PeerClassifies` | src/index.js:37 | a peer takes an envelope for a call iff it is a request with a truthy method name (so method "" is taken for a response) |
| `Correlation.PeerAnswersRequest` | src/index.js:37-64 | a request we send, handled by a peer whose handler returns v for the params as JSON carries them, is answered with `Result(same id, v)` |
| `Correlation.PeerResultResolves` | src/index.js:81-84 | a peer's result envelope for a pending request resolves it with the result as JSON carries it, which is the result itself exactly when it is JSON-safe |
| `Correlation.PeerErrorRejects` | src/index.js:97-104 | a peer's error envelope rejects with its text, except that an empty text resolves with `undefined` |
| `Client.RpcClient.constructor` | src/index.js:21-28 | a new client has no callbacks, promises or handlers and has sent nothing |
| `Client.RpcClient.Handle` | src/index.js:30-92 | both maps are unchanged; `sent` grows by `Outbound` and the promises become `Settled` |
| `Client.RpcClient.Request` | src/index.js:94-116 | one new pending promise; one callback under the generated id (overwriting); one `Req(id, method, params)` sent; handlers unchanged |
| `Client.RpcClient.On` | src/index.js:123-125 | `handlers[m] := h`, overwriting; nothing sent; callbacks and promises unchanged |
| `Client.PingPong` | src/index.js:37-64 | a "ping" request with id "abc" to a handler returning "pong" sends exactly `Result("abc", "pong")` |
| `Client.UnknownMethod` | src/index.js:44-75 | a request for an unregistered method sends exactly the two error envelopes above |
| `Client.UnprintableMethod` | src/index.js:44-45 | a request whose method is an object with its own `toString` member sends exactly one id-less `"[object Object]"` error, and no method-not-found envelope |
| `Client.NotJson` | src/index.js:89-90 | unparsable text sends exactly one id-less `"[object Object]"` error |
| `Client.RequestThenResult` | src/index.js:94-116 | request, then the peer's result for that id: the promise is fulfilled with that result as JSON carries it (the result itself when JSON-safe) |
| `Client.RequestThenError` | src/index.js:97-104 | request, then the peer's error for that id: rejected with the text, or fulfilled with `undefined` if the text is empty |
| `Client.ResponsesInReverseOrder` | src/index.js:81-84 | two requests with distinct ids answered in reverse order each settle with their own result (as JSON carries it) |
| `Client.IdCollision` | src/index.js:95-98 | with colliding ids the answer settles the second promise and the first stays pending |

## Left out

- Logging: the `options.log` branches and the `console.log`/`console.error`
  output are I/O and are not modelled, nor is the `options` argument. What the
  diagnostics at lines 45 and 86 do to state is modelled: their template
  literals can throw, and the outer `catch` then answers.
- JSON text: `JSON.parse` is replaced by its result, `Inbound`: either
  `Unparsable` or `Parsed(value)`. Of `JSON.stringify` the model keeps the
  member order and the dropping of `undefined` members at the top level of an
  envelope, and, through `Reparse`, what a nested value reads back as (an
  `undefined` array element becomes `null`, an `undefined` member disappears,
  an Error becomes `{}`). The following are not modelled:
  - the characters of the text (escaping, spacing);
  - the member order of nested objects, which are maps here;
  - duplicate keys in inbound text;
  - `toJSON` methods, and `JSON.stringify` throwing on a BigInt or a cyclic
    result.
- Numbers are unbounded integers. The model does not capture:
  - fractions, `NaN`, `Infinity` and `-0`, with their truthiness and text;
  - the loss of precision beyond 2^53: JavaScript cannot hold such an integer
    exactly, while `Num(n)` holds any `n`;
  - exponent notation: JavaScript writes a number whose magnitude is at least
    10^21 as, for example, `"1e+21"`, while `IntToString` always writes every
    digit.
- `toString()` is JavaScript's built-in one for each kind of value. Values are
  JSON data and Errors, never functions, so an own `toString` member is never
  callable and any such member makes the conversion throw. A handler that
  throws an object with a callable `toString` of its own is not modelled.
  Errors are modelled by their name and message; the `TypeError` text for
  calling `undefined` uses V8's wording.
- Randomness: `Math.random().toString(36)` involves floating point and
  randomness. Its texts are the input `draws`. `size` is an integer.
  `GetRandomString` has no omitted argument; the default size of 10 is covered
  through `DefaultSize`, which is also the size `request` passes.
- Handle, Dispatch, HandlerReturns, HandlerThrows: a handler is a pure
  function from params to an outcome that has already settled. A handler that
  calls `request` or `on` on the same client while it runs, changing the maps
  before its answer is sent, is not modelled. Neither is a handler whose
  promise never settles, which in the source leaves the call unanswered.
- Asynchrony: each `handle` call is one atomic step. A handler's outcome is the
  value its promise settles with. Interleavings of concurrent `handle` calls at
  `await handler(params)` are not modelled. Neither are the reactions that
  callers attach to returned promises.
- The transport: `send` appends to `sent` and never throws. A throw from `send`
  is not modelled. In the source it would go as follows:
  - a throw from the send at line 64 is caught by the inner `catch` at line 65,
    which sends an error envelope with that throw's text;
  - a throw from the sends at lines 53 and 74 is caught at line 89, and the
    parse-error send there could itself throw out of `handle`;
  - a throw from the send at line 113 escapes `request` after the callback has
    been stored, so that request's promise stays pending.
- `request` and `on` take method names as strings. Registering a value that is
  not a function as a handler is not modelled.
