/**
 * The original store (index.js): no namespace, always `SETEX` on writes, and
 * a `clear(key, fn)` over the keys starting with `key`.
 */
module StoreOld {
  import opened Wrappers
  import opened Json
  import opened Backend
  import opened Countdown
  import opened Adapter

  /** The original constructor's decisions: its client and its opening commands. */
  datatype Startup = Startup(choice: ClientChoice, handshake: seq<Command>)

  /**
   * `options || {}`, then `options.client` or a created client (from port,
   * host and the options as given), then `AUTH` for a truthy password. There
   * is no default-client branch, no `SELECT` and no prefix.
   */
  function Configure(options: Option<Options>): (s: Startup)
    ensures var o := if options.Some? then options.value else NoOptions();
      && (o.client.Some? ==> s.choice == Given(o.client.value))
      && (o.client.None? ==> s.choice.CreateClient? && s.choice.opts == o)
      && (s.choice.CreateClient? ==> s.choice.port == o.port && s.choice.host == o.host)
      && (forall c :: c in s.handshake ==> c.Auth?)
      && (s.handshake != [] <==> TruthyString(o.password))
      && (TruthyString(o.password) ==> s.handshake == [Auth(o.password.value)])
  {
    var o := if options.Some? then options.value else NoOptions();
    Startup(if o.client.Some? then Given(o.client.value) else CreateClient(o.port, o.host, o),
          if TruthyString(o.password) then [Auth(o.password.value)] else [])
  }

  /**
   * The original write: `SETEX key (ttl || 60) payload`, whatever the `ttl`,
   * so the server refuses it exactly for a negative `ttl`.
   */
  function Write(key: string, payload: string, ttl: Option<int>): (cmd: Command)
    ensures cmd.SetEx? && cmd.key == key && cmd.value == payload
    ensures cmd.seconds == Expiry(ttl)
    ensures Refusal(cmd, None).Some? <==> ttl.Some? && ttl.value < 0
  {
    SetEx(key, Expiry(ttl), payload)
  }

  /**
   * `ttl = -1` asks the current store for a key that never expires and is
   * accepted; the original store sends it on as `SETEX key -1`, which the
   * server refuses.
   */
  lemma NeverExpireRefused(key: string, payload: string)
    ensures Refusal(Adapter.WriteCommand(key, payload, Some(-1)), None).None?
    ensures Refusal(Write(key, payload, Some(-1)), None) == Some(InvalidExpireTime)
  {
  }

  /** The `key` argument of `clear`: absent, a string, or the callback itself. */
  datatype KeyArg = KeyUndefined | KeyText(text: string) | KeyCallback(handler: Callback)

  /** The pattern `clear` asks for: `key + '*'`, where an absent key spells `undefined`. */
  function ClearPattern(key: KeyArg): (p: string)
    ensures key.KeyText? ==> p == key.text + "*"
    ensures key.KeyCallback? ==> p == "*"
    ensures key.KeyUndefined? ==> p == "undefined*"
  {
    match key
    case KeyUndefined => "undefined*"
    case KeyText(s) => s + "*"
    case KeyCallback(_) => "*"
  }

  class Store {
    const client: Client

    constructor (options: Option<Options>, created: Client)
      modifies Chosen(Configure(options).choice, created)
      ensures client == Chosen(Configure(options).choice, created)
      ensures client.data == old(Chosen(Configure(options).choice, created).data)
      ensures client.log == old(Chosen(Configure(options).choice, created).log) + Configure(options).handshake
    {
      var setup := Configure(options);
      var c := Chosen(setup.choice, created);
      client := c;
      new;
      var o := if options.Some? then options.value else NoOptions();
      if TruthyString(o.password) {
        c.Auth(o.password.value);
      }
    }

    /** `get(key, fn)`: a read of the key as given. */
    method Get(key: string, fail: Option<Backend.Error>) returns (r: Result<Value, Failure>)
      modifies client
      ensures client.data == old(client.data)
      ensures client.log == old(client.log) + [Command.Get(key)]
      ensures r == GetReply(Lookup(client.data, key, fail))
    {
      var reply := client.Get(key, fail);
      r := GetReply(reply);
    }

    /**
     * `set(key, val, ttl, fn)`: `SETEX` of the serialized value; a value that
     * cannot be serialized fails before anything is sent. The callback
     * receives the value as given, not its serialization.
     */
    method Set(key: string, val: Value, ttl: TtlArg, fn: Callback, fail: Option<Backend.Error>)
      returns (callee: Callback, r: Result<Value, Failure>)
      modifies client
      ensures callee == Shift(ttl, fn).1
      ensures !Serializable(val) ==>
        r == Failure(EncodeFailure(Unserializable)) && client.log == old(client.log) && client.data == old(client.data)
      ensures Serializable(val) ==>
        var cmd := Write(key, Text(val), Shift(ttl, fn).0);
        && client.log == old(client.log) + [cmd]
        && r == (if Refusal(cmd, fail).Some? then Failure(BackendFailure(Refusal(cmd, fail).value)) else Success(val))
        && client.data == (if Refusal(cmd, fail).Some? then old(client.data) else Applied(old(client.data), cmd))
    {
      var t;
      t, callee := Shift(ttl, fn).0, Shift(ttl, fn).1;
      var encoded := Stringify(val);
      if encoded.Failure? {
        return callee, Failure(EncodeFailure(encoded.error));
      }
      var err := client.SetEx(key, Expiry(t), encoded.value, fail);
      if err.Some? {
        r := Failure(BackendFailure(err.value));
      } else {
        r := Success(val);
      }
    }

    /** `del(key, fn)`: one `DEL` of the key as given. */
    method Del(key: string, fail: Option<Backend.Error>) returns (r: Result<nat, Backend.Error>)
      modifies client
      ensures client.log == old(client.log) + [Command.Del(key)]
      ensures fail.Some? ==> r == Failure(fail.value) && client.data == old(client.data)
      ensures fail.None? ==> r == Success(if key in old(client.data) then 1 else 0)
      ensures fail.None? ==> client.data == old(client.data) - {key}
    {
      r := client.Del(key, fail);
    }

    /**
     * `clear(key, fn)`: `KEYS key*`, then one `del` per match through the
     * shared countdown. There is no zero-match exit: with nothing matched the
     * callback is never called. `callee` is the function that receives the
     * outcome.
     */
    method Clear(key: KeyArg, fn: Callback, keysFail: Option<Backend.Error>, delFail: string -> Option<Backend.Error>)
      returns (callee: Callback, calls: seq<Call>, ghost matched: seq<string>)
      modifies client
      ensures callee == if key.KeyCallback? then key.handler else fn
      ensures keysFail.Some? ==>
        && calls == [Fail(keysFail.value)]
        && client.data == old(client.data)
        && client.log == old(client.log) + [Keys(ClearPattern(key))]
      ensures keysFail.None? ==>
        && Distinct(matched)
        && (forall k :: k in matched <==> k in Matching(old(client.data), client.glob, ClearPattern(key)))
        && calls == Run(|matched|, Outcomes(matched, delFail))
        && client.data == Remaining(old(client.data), matched, delFail)
        && client.log == old(client.log) + [Keys(ClearPattern(key))] + DelCommands(matched)
    {
      callee := if key.KeyCallback? then key.handler else fn;
      var reply := client.Keys(ClearPattern(key), keysFail);
      matched := [];
      if reply.Failure? {
        return callee, [Fail(reply.error)], matched;
      }
      var keys := reply.value;
      matched := keys;
      calls := DeleteEach(client, keys, delFail);
    }
  }

  /** With nothing matched the original `clear` reports nothing, where the current one reports `Done`. */
  lemma EmptyClearSilent()
    ensures Run(0, Outcomes([], k => None)) == []
    ensures Bulk(Outcomes([], k => None)) == [Done]
  {
  }
}
