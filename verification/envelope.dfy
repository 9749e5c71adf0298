/** The three JSON-RPC 2.0 envelopes the client writes (request, result and
    error), the order and omission rules JSON.stringify applies to their
    members, and the object a peer's JSON.parse rebuilds from that text. */
module Envelope {
  import opened Options
  import opened JsValue

  const Version := "2.0"

  /** An outbound message, as the object literal the builders pass to
      JSON.stringify. The error payload is already text: `error.toString()`. */
  datatype Envelope =
    | RequestEnv(id: Value, name: Value, params: Value)
    | ResultEnv(id: Value, result: Value)
    | ErrorEnv(id: Value, error: string)

  /** `stringifyRequest(id, method, params)`; the client calls it with a generated
      string id and the method name (`name`) its caller gave. The text holds
      jsonrpc, id and method in that order, then params unless it is `undefined`. */
  function StringifyRequest(id: string, name: string, params: Value): (e: Envelope)
    ensures Members(e) == [("jsonrpc", Str(Version)), ("id", Str(id)), ("method", Str(name))]
                          + (if params == Undefined then [] else [("params", params)])
  {
    var e := RequestEnv(Str(id), Str(name), params);
    var a, b, c, d := ("jsonrpc", Str(Version)), ("id", Str(id)), ("method", Str(name)), ("params", params);
    assert Literal(e) == [a, b, c, d] == [a] + [b, c, d];
    assert [b, c, d] == [b] + [c, d] && [c, d] == [c] + [d] && [d] == [d] + [];
    DefinedCons(d, []);
    DefinedCons(c, [d]);
    DefinedCons(b, [c, d]);
    DefinedCons(a, [b, c, d]);
    e
  }

  /** `stringifyResult(id, result)`: jsonrpc first, then id and result, each left
      out when it is `undefined` (a handler that returns nothing sends no result). */
  function StringifyResult(id: Value, result: Value): (e: Envelope)
    ensures Members(e) == [("jsonrpc", Str(Version))]
                          + (if id == Undefined then [] else [("id", id)])
                          + (if result == Undefined then [] else [("result", result)])
  {
    var e := ResultEnv(id, result);
    var a, b, c := ("jsonrpc", Str(Version)), ("id", id), ("result", result);
    assert Literal(e) == [a, b, c] == [a] + [b, c];
    assert [b, c] == [b] + [c] && [c] == [c] + [];
    DefinedCons(c, []);
    DefinedCons(b, [c]);
    DefinedCons(a, [b, c]);
    e
  }

  /** `stringifyError(id, error)`: the payload is `error.toString()`, which throws
      (None) exactly when `error` is `null` or `undefined` or has no usable
      `toString`. */
  function StringifyError(id: Value, error: Value): (r: Option<Envelope>)
    ensures r.None? <==> Nullish(error) || ToStringThrows(error)
    ensures r.Some? ==> r.value.ErrorEnv? && r.value.id == id && r.value.error == ToString(error)
  {
    if Nullish(error) || ToStringThrows(error) then None else Some(ErrorEnv(id, ToString(error)))
  }

  /** The members of the object literal, in the order the builders write them:
      jsonrpc, id, then the payload members, every name once. */
  function Literal(e: Envelope): (ms: seq<(string, Value)>)
    ensures |ms| == if e.RequestEnv? then 4 else 3
    ensures ms[0] == ("jsonrpc", Str(Version)) && ms[1] == ("id", e.id)
    ensures DistinctKeys(ms)
  {
    [("jsonrpc", Str(Version)), ("id", e.id)] +
    match e
    case RequestEnv(_, m, p) => [("method", m), ("params", p)]
    case ResultEnv(_, r) => [("result", r)]
    case ErrorEnv(_, s) => [("error", Str(s))]
  }

  /** JSON.stringify leaves out the members of an object whose value is `undefined`
      and keeps the others in order. */
  function Defined(ms: seq<(string, Value)>): (r: seq<(string, Value)>)
    ensures |r| <= |ms|
  {
    if ms == [] then []
    else (if ms[0].1 == Undefined then [] else [ms[0]]) + Defined(ms[1..])
  }

  /** `Defined` keeps exactly the defined members, and adds none. */
  lemma {:induction false} DefinedMembers(ms: seq<(string, Value)>)
    ensures forall m :: m in Defined(ms) <==> m in ms && m.1 != Undefined
  {
    if ms != [] {
      DefinedMembers(ms[1..]);
      assert ms == [ms[0]] + ms[1..];
    }
  }

  /** One step of `Defined`: the first member is kept exactly when it is defined. */
  lemma DefinedCons(m: (string, Value), rest: seq<(string, Value)>)
    ensures Defined([m] + rest) == (if m.1 == Undefined then [] else [m]) + Defined(rest)
  {
    assert ([m] + rest)[1..] == rest;
  }

  /** The members that reach the wire, in wire order. */
  function Members(e: Envelope): seq<(string, Value)> {
    Defined(Literal(e))
  }

  function Keys(ms: seq<(string, Value)>): (ks: seq<string>)
    ensures |ks| == |ms| && forall i :: 0 <= i < |ms| ==> ks[i] == ms[i].0
  {
    seq(|ms|, i requires 0 <= i < |ms| => ms[i].0)
  }

  /** The object JSON.parse builds from a member list; a later duplicate wins. */
  function MapOf(ms: seq<(string, Value)>): map<string, Value> {
    if ms == [] then map[] else map[ms[0].0 := ms[0].1] + MapOf(ms[1..])
  }

  /** A value that JSON.stringify writes and JSON.parse reads back unchanged: no
      Error anywhere (an Error has no enumerable members and is written as `{}`),
      and no `undefined` inside an array or an object. A bare `undefined` is
      allowed: as a member it is left out, and an absent member reads as
      `undefined` again. */
  predicate JsonSafe(v: Value) {
    match v
    case Arr(items) => forall i :: 0 <= i < |items| ==> items[i] != Undefined && JsonSafe(items[i])
    case Obj(fields) => forall k :: k in fields ==> fields[k] != Undefined && JsonSafe(fields[k])
    case ErrorObject(_, _) => false
    case _ => true
  }

  /** What a member value becomes once JSON.stringify has written it and a peer's
      JSON.parse has read it back: `undefined` array elements become `null`,
      `undefined` object members disappear, and an Error becomes `{}`. A bare
      `undefined` stands for the member being left out. */
  function Reparse(v: Value): (r: Value)
    ensures r == Undefined <==> v == Undefined
    ensures Truthy(r) == Truthy(v)
  {
    match v
    case Arr(items) => Arr(seq(|items|, i requires 0 <= i < |items| => if items[i] == Undefined then Null else Reparse(items[i])))
    case Obj(fields) => Obj(map k | k in fields && fields[k] != Undefined :: Reparse(fields[k]))
    case ErrorObject(_, _) => Obj(map[])
    case _ => v
  }

  /** The round trip changes a value exactly when it is not JSON-safe. */
  lemma {:induction false} ReparseKeepsExactlyJsonSafe(v: Value)
    ensures Reparse(v) == v <==> JsonSafe(v)
  {
    match v
    case Arr(items) =>
      var r := Reparse(v).items;
      if JsonSafe(v) {
        forall i | 0 <= i < |items| ensures r[i] == items[i] {
          ReparseKeepsExactlyJsonSafe(items[i]);
        }
      }
      if Reparse(v) == v {
        forall i | 0 <= i < |items| ensures items[i] != Undefined && JsonSafe(items[i]) {
          assert r[i] == items[i];
          ReparseKeepsExactlyJsonSafe(items[i]);
        }
      }
    case Obj(fields) =>
      var r := Reparse(v).fields;
      if JsonSafe(v) {
        forall k | k in fields ensures k in r && r[k] == fields[k] {
          ReparseKeepsExactlyJsonSafe(fields[k]);
        }
        assert r == fields;
      }
      if Reparse(v) == v {
        forall k | k in fields ensures fields[k] != Undefined && JsonSafe(fields[k]) {
          assert k in r;
          ReparseKeepsExactlyJsonSafe(fields[k]);
        }
      }
    case _ =>
  }

  /** Whatever goes in, what the peer reads back is JSON-safe, so a second round
      trip changes nothing. */
  lemma {:induction false} ReparseIsJsonSafe(v: Value)
    ensures JsonSafe(Reparse(v))
    ensures Reparse(Reparse(v)) == Reparse(v)
  {
    match v {
      case Arr(items) =>
        var r := Reparse(v).items;
        forall i | 0 <= i < |r| ensures r[i] != Undefined && JsonSafe(r[i]) {
          if items[i] != Undefined {
            ReparseIsJsonSafe(items[i]);
          }
        }
      case Obj(fields) =>
        var r := Reparse(v).fields;
        forall k | k in r ensures r[k] != Undefined && JsonSafe(r[k]) {
          ReparseIsJsonSafe(fields[k]);
        }
      case _ =>
    }
    ReparseKeepsExactlyJsonSafe(Reparse(v));
  }

  /** Each member with its value as the peer reads it back. */
  function Reparsed(ms: seq<(string, Value)>): (r: seq<(string, Value)>)
    ensures |r| == |ms| && forall i :: 0 <= i < |ms| ==> r[i] == (ms[i].0, Reparse(ms[i].1))
  {
    if ms == [] then [] else [(ms[0].0, Reparse(ms[0].1))] + Reparsed(ms[1..])
  }

  /** What a peer's JSON.parse returns for the text of `e`. */
  function ToObject(e: Envelope): Value {
    Obj(MapOf(Defined(Reparsed(Literal(e)))))
  }

  /** Reading a property of a member list with distinct names. */
  function Lookup(ms: seq<(string, Value)>, k: string): Value {
    if ms == [] then Undefined
    else if ms[0].0 == k then ms[0].1
    else Lookup(ms[1..], k)
  }

  predicate DistinctKeys(ms: seq<(string, Value)>) {
    forall i, j :: 0 <= i < j < |ms| ==> ms[i].0 != ms[j].0
  }

  lemma {:induction false} MapOfKeys(ms: seq<(string, Value)>, k: string)
    ensures k in MapOf(ms) <==> exists v :: (k, v) in ms
  {
    if ms != [] {
      MapOfKeys(ms[1..], k);
      if k in MapOf(ms) && k != ms[0].0 {
        var v :| (k, v) in ms[1..];
        assert (k, v) in ms;
      }
    }
  }

  /** Parsing what stringify wrote answers every property read as the source
      member list does: dropping `undefined` members loses nothing, since an
      absent member also reads as `undefined`. */
  lemma {:induction false} ParseOfDefined(ms: seq<(string, Value)>, k: string)
    requires DistinctKeys(ms)
    ensures Get(Obj(MapOf(Defined(ms))), k) == Lookup(ms, k)
  {
    if ms != [] {
      var rest := ms[1..];
      assert DistinctKeys(rest) by {
        forall i, j | 0 <= i < j < |rest| ensures rest[i].0 != rest[j].0 {
          assert rest[i] == ms[i + 1] && rest[j] == ms[j + 1];
        }
      }
      ParseOfDefined(rest, k);
      if ms[0].0 == k {
        assert k !in MapOf(Defined(rest)) by {
          MapOfKeys(Defined(rest), k);
          DefinedMembers(rest);
        }
        if ms[0].1 != Undefined {
          assert Defined(ms) == [ms[0]] + Defined(rest);
          assert MapOf(Defined(ms)) == map[k := ms[0].1] + MapOf(Defined(rest));
        } else {
          assert Defined(ms) == Defined(rest);
        }
      } else if ms[0].1 != Undefined {
        assert Defined(ms) == [ms[0]] + Defined(rest);
        assert MapOf(Defined(ms)) == map[ms[0].0 := ms[0].1] + MapOf(Defined(rest));
      } else {
        assert Defined(ms) == Defined(rest);
      }
    }
  }

  lemma {:induction false} LookupAt(ms: seq<(string, Value)>, i: nat)
    requires DistinctKeys(ms) && i < |ms|
    ensures Lookup(ms, ms[i].0) == ms[i].1
  {
    if i > 0 {
      assert ms[0].0 != ms[i].0;
      var rest := ms[1..];
      assert DistinctKeys(rest) by {
        forall a, b | 0 <= a < b < |rest| ensures rest[a].0 != rest[b].0 {
          assert rest[a] == ms[a + 1] && rest[b] == ms[b + 1];
        }
      }
      LookupAt(rest, i - 1);
    }
  }

  lemma {:induction false} LookupAbsent(ms: seq<(string, Value)>, k: string)
    requires forall i :: 0 <= i < |ms| ==> ms[i].0 != k
    ensures Lookup(ms, k) == Undefined
  {
    if ms != [] {
      assert forall i :: 0 <= i < |ms| - 1 ==> ms[1..][i] == ms[i + 1];
      LookupAbsent(ms[1..], k);
    }
  }

  /** The peer reads member `i` of the literal back under its own name. */
  lemma ReadBack(e: Envelope, i: nat)
    requires i < |Literal(e)|
    ensures Get(ToObject(e), Literal(e)[i].0) == Reparse(Literal(e)[i].1)
  {
    ParseOfStringify(e, Literal(e)[i].0);
    LookupAt(Literal(e), i);
  }

  /** A name the literal does not have reads as `undefined` on the peer's side. */
  lemma ReadBackAbsent(e: Envelope, k: string)
    requires forall i :: 0 <= i < |Literal(e)| ==> Literal(e)[i].0 != k
    ensures Get(ToObject(e), k) == Undefined
  {
    ParseOfStringify(e, k);
    LookupAbsent(Literal(e), k);
  }

  /** Reading a member after the round trip is reading it before, then reparsing it. */
  lemma {:induction false} LookupReparsed(ms: seq<(string, Value)>, k: string)
    ensures Lookup(Reparsed(ms), k) == Reparse(Lookup(ms, k))
  {
    if ms != [] {
      assert Reparsed(ms)[1..] == Reparsed(ms[1..]);
      LookupReparsed(ms[1..], k);
    }
  }

  /** Round trip of the wire format: the object the peer parses from the text of
      `e` has, under every name, the value the builder's object literal had, as
      JSON carries it. */
  lemma ParseOfStringify(e: Envelope, k: string)
    ensures Get(ToObject(e), k) == Reparse(Lookup(Literal(e), k))
  {
    ParseOfDefined(Reparsed(Literal(e)), k);
    LookupReparsed(Literal(e), k);
  }

  /** Corollary for a request: the peer reads back the id and the method, and the
      params as JSON carries them, which are the params themselves exactly when
      they are JSON-safe. */
  lemma RequestRoundTrip(id: string, name: string, params: Value)
    ensures var o := ToObject(StringifyRequest(id, name, params));
      && Get(o, "jsonrpc") == Str(Version) && Get(o, "id") == Str(id)
      && Get(o, "method") == Str(name) && Get(o, "params") == Reparse(params)
      && (Get(o, "params") == params <==> JsonSafe(params))
      && Get(o, "result") == Undefined && Get(o, "error") == Undefined
  {
    var e := RequestEnv(Str(id), Str(name), params);
    assert StringifyRequest(id, name, params) == e;
    var o := ToObject(e);
    assert Literal(e) == [("jsonrpc", Str(Version)), ("id", Str(id)), ("method", Str(name)), ("params", params)];
    assert Get(o, "jsonrpc") == Str(Version) by { ReadBack(e, 0); }
    assert Get(o, "id") == Str(id) by { ReadBack(e, 1); }
    assert Get(o, "method") == Str(name) by { ReadBack(e, 2); }
    assert Get(o, "params") == Reparse(params) by { ReadBack(e, 3); }
    assert Get(o, "params") == params <==> JsonSafe(params) by { ReparseKeepsExactlyJsonSafe(params); }
    assert Get(o, "result") == Undefined by { ReadBackAbsent(e, "result"); }
    assert Get(o, "error") == Undefined by { ReadBackAbsent(e, "error"); }
  }

  /** Corollary for a result: the peer reads back the id and the result as JSON
      carries them (the result itself exactly when it is JSON-safe), and no method. */
  lemma ResultRoundTrip(id: Value, result: Value)
    ensures var o := ToObject(StringifyResult(id, result));
      && Get(o, "id") == Reparse(id) && Get(o, "result") == Reparse(result)
      && (Get(o, "result") == result <==> JsonSafe(result))
      && Get(o, "method") == Undefined && Get(o, "error") == Undefined
  {
    var e := ResultEnv(id, result);
    assert StringifyResult(id, result) == e;
    var o := ToObject(e);
    assert Literal(e) == [("jsonrpc", Str(Version)), ("id", id), ("result", result)];
    assert Get(o, "id") == Reparse(id) by { ReadBack(e, 1); }
    assert Get(o, "result") == Reparse(result) by { ReadBack(e, 2); }
    assert Get(o, "result") == result <==> JsonSafe(result) by { ReparseKeepsExactlyJsonSafe(result); }
    assert Get(o, "method") == Undefined by { ReadBackAbsent(e, "method"); }
    assert Get(o, "error") == Undefined by { ReadBackAbsent(e, "error"); }
  }

  /** Corollary for an error: the peer reads back the id and the error text, and no method. */
  lemma ErrorRoundTrip(id: Value, error: string)
    ensures var o := ToObject(ErrorEnv(id, error));
      && Get(o, "id") == Reparse(id) && Get(o, "error") == Str(error)
      && Get(o, "method") == Undefined && Get(o, "result") == Undefined
  {
    var e := ErrorEnv(id, error);
    var o := ToObject(e);
    assert Literal(e) == [("jsonrpc", Str(Version)), ("id", id), ("error", Str(error))];
    assert Get(o, "id") == Reparse(id) by { ReadBack(e, 1); }
    assert Get(o, "error") == Str(error) by { ReadBack(e, 2); }
    assert Get(o, "method") == Undefined by { ReadBackAbsent(e, "method"); }
    assert Get(o, "result") == Undefined by { ReadBackAbsent(e, "result"); }
  }

  /** Member order on the wire: "jsonrpc" first, then "id" exactly when the id is
      not `undefined`, then the payload; an error payload is always present and last. */
  lemma MemberOrder(e: Envelope)
    ensures |Members(e)| >= 1 && Members(e)[0] == ("jsonrpc", Str(Version))
    ensures "id" in Keys(Members(e)) <==> e.id != Undefined
    ensures e.id != Undefined ==> |Members(e)| >= 2 && Members(e)[1] == ("id", e.id)
    ensures e.ErrorEnv? ==> Members(e)[|Members(e)| - 1] == ("error", Str(e.error))
  {
    var lit := Literal(e);
    var tail := lit[2..];
    assert lit == [lit[0], lit[1]] + tail;
    assert Defined(lit) == [lit[0]] + Defined(lit[1..]);
    assert lit[1..][1..] == tail;
    assert Defined(lit[1..]) == (if e.id == Undefined then [] else [lit[1]]) + Defined(tail);
    if e.ErrorEnv? {
      assert tail == [("error", Str(e.error))];
      assert Defined(tail) == [("error", Str(e.error))] by {
        assert tail[1..] == [];
      }
    }
    var ks := Keys(Members(e));
    if e.id != Undefined {
      assert ks[1] == "id";
    }
    if "id" in ks {
      var i :| 0 <= i < |ks| && ks[i] == "id";
      assert Members(e)[i] in Members(e);
      DefinedMembers(lit);
      assert Members(e)[i] in lit;
    }
  }
}
