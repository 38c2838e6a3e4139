/**
 * The transpiled store (lib/index.js): the same `get` and `set` as the
 * current store, a pattern-capable `del` through the private `_del`, and no
 * `scan`. Its constructor reads the option fields before it parses a
 * connection string.
 */
module StoreLib {
  import opened Wrappers
  import opened Json
  import opened Glob
  import opened Backend
  import opened Countdown
  import opened Adapter
  import StoreSrc

  /**
   * The constructor's decisions. The fields are read from the argument as
   * given, so a connection string (which has none of them) yields the default
   * client, no `AUTH`/`SELECT` and the default prefix; the parsed object is
   * only used when the string itself has a `setex` function, which it never
   * has.
   */
  function Configure(arg: Arg): (s: Setup)
    ensures |s.prefix| > 0
    ensures arg.Uri? ==> s.choice == DefaultClient
    ensures arg.Object? ==> s == SetupFor(arg.fields, arg.selfClient)
  {
    match arg
    case Uri(_) => SetupFor(NoOptions(), None)
    case Object(fields, self) => SetupFor(fields, self)
  }

  /**
   * A connection string is ignored: default client, no handshake, default
   * namespace. The current store honours the same string, so a password,
   * database or prefix in it takes effect there and is lost here.
   */
  lemma UriIgnored(text: string, parse: string -> Options)
    ensures Configure(Uri(text)) == Setup(DefaultClient, [], DefaultPrefix)
    ensures Handshake(parse(text)) != [] ==> StoreSrc.Configure(Uri(text), parse).handshake != Configure(Uri(text)).handshake
    ensures TruthyString(parse(text).prefix) && parse(text).prefix.value != DefaultPrefix ==>
      StoreSrc.Configure(Uri(text), parse).prefix != Configure(Uri(text)).prefix
  {
    assert Handshake(NoOptions()) == [];
  }

  /** For an options object both constructors decide alike. */
  lemma AgreesWithSrc(fields: Options, self: Option<Client>, parse: string -> Options)
    ensures Configure(Object(fields, self)) == StoreSrc.Configure(Object(fields, self), parse)
  {
  }

  class Store {
    const client: Client
    const prefix: string

    constructor (arg: Arg, created: Client)
      modifies Chosen(Configure(arg).choice, created)
      ensures client == Chosen(Configure(arg).choice, created)
      ensures prefix == Configure(arg).prefix
      ensures client.data == old(Chosen(Configure(arg).choice, created).data)
      ensures client.log == old(Chosen(Configure(arg).choice, created).log) + Configure(arg).handshake
    {
      var setup := Configure(arg);
      var c := Chosen(setup.choice, created);
      client := c;
      prefix := setup.prefix;
      new;
      var o := match arg case Uri(_) => NoOptions() case Object(fields, _) => fields;
      if TruthyString(o.password) {
        c.Auth(o.password.value);
      }
      if TruthyInt(o.database) {
        c.Select(o.database.value);
      }
    }

    /** `get(key, fn)`: a read of the namespaced key. */
    method Get(key: string, fail: Option<Backend.Error>) returns (r: Result<Value, Failure>)
      modifies client
      ensures client.data == old(client.data)
      ensures client.log == old(client.log) + [Command.Get(prefix + key)]
      ensures r == GetReply(Lookup(client.data, prefix + key, fail))
    {
      var reply := client.Get(prefix + key, fail);
      r := GetReply(reply);
    }

    /** `set(key, val, ttl, fn)`, as in the current store. */
    method Set(key: string, val: Value, ttl: TtlArg, fn: Callback, fail: Option<Backend.Error>)
      returns (callee: Callback, r: Result<string, Failure>)
      modifies client
      ensures callee == Shift(ttl, fn).1
      ensures !Serializable(val) ==>
        r == Failure(EncodeFailure(Unserializable)) && client.log == old(client.log) && client.data == old(client.data)
      ensures Serializable(val) ==>
        var cmd := WriteCommand(prefix + key, Text(val), Shift(ttl, fn).0);
        && client.log == old(client.log) + [cmd]
        && r == (if Refusal(cmd, fail).Some? then Failure(BackendFailure(Refusal(cmd, fail).value)) else Success(Text(val)))
        && client.data == (if Refusal(cmd, fail).Some? then old(client.data) else Applied(old(client.data), cmd))
    {
      var t;
      t, callee := Shift(ttl, fn).0, Shift(ttl, fn).1;
      var encoded := Stringify(val);
      if encoded.Failure? {
        return callee, Failure(EncodeFailure(encoded.error));
      }
      var text := encoded.value;
      var err;
      if t == Some(-1) {
        err := client.Set(prefix + key, text, fail);
      } else {
        err := client.SetEx(prefix + key, Expiry(t), text, fail);
      }
      if err.Some? {
        r := Failure(BackendFailure(err.value));
      } else {
        r := Success(text);
      }
    }

    /**
     * `_del(pattern, fn)`: `KEYS pattern`, then one `DEL` per match through
     * the shared countdown; zero matches complete at once.
     */
    method DelPattern(pattern: string, keysFail: Option<Backend.Error>, delFail: string -> Option<Backend.Error>)
      returns (calls: seq<Call>, ghost matched: seq<string>)
      modifies client
      ensures keysFail.Some? ==>
        && calls == [Fail(keysFail.value)]
        && client.data == old(client.data)
        && client.log == old(client.log) + [Keys(pattern)]
      ensures keysFail.None? ==>
        && Distinct(matched)
        && (forall k :: k in matched <==> k in Matching(old(client.data), client.glob, pattern))
        && calls == Bulk(Outcomes(matched, delFail))
        && client.data == Remaining(old(client.data), matched, delFail)
        && client.log == old(client.log) + [Keys(pattern)] + DelCommands(matched)
    {
      var reply := client.Keys(pattern, keysFail);
      matched := [];
      if reply.Failure? {
        return [Fail(reply.error)], matched;
      }
      var keys := reply.value;
      matched := keys;
      if |keys| == 0 {
        return [Done], matched;
      }
      calls := DeleteEach(client, keys, delFail);
    }

    /** `del(key, fn)`: `_del` of the namespaced key, so a key may be a pattern. */
    method Del(key: string, keysFail: Option<Backend.Error>, delFail: string -> Option<Backend.Error>)
      returns (calls: seq<Call>, ghost matched: seq<string>)
      modifies client
      ensures keysFail.Some? ==>
        && calls == [Fail(keysFail.value)]
        && client.data == old(client.data)
        && client.log == old(client.log) + [Keys(prefix + key)]
      ensures keysFail.None? ==>
        && Distinct(matched)
        && (forall k :: k in matched <==> k in Matching(old(client.data), client.glob, prefix + key))
        && calls == Bulk(Outcomes(matched, delFail))
        && client.data == Remaining(old(client.data), matched, delFail)
        && client.log == old(client.log) + [Keys(prefix + key)] + DelCommands(matched)
    {
      calls, matched := DelPattern(prefix + key, keysFail, delFail);
    }

    /** `clear(fn)`: `_del` of `prefix*`. */
    method Clear(keysFail: Option<Backend.Error>, delFail: string -> Option<Backend.Error>)
      returns (calls: seq<Call>, ghost matched: seq<string>)
      modifies client
      ensures keysFail.Some? ==>
        && calls == [Fail(keysFail.value)]
        && client.data == old(client.data)
        && client.log == old(client.log) + [Keys(prefix + "*")]
      ensures keysFail.None? ==>
        && Distinct(matched)
        && (forall k :: k in matched <==> k in Matching(old(client.data), client.glob, prefix + "*"))
        && calls == Bulk(Outcomes(matched, delFail))
        && client.data == Remaining(old(client.data), matched, delFail)
        && client.log == old(client.log) + [Keys(prefix + "*")] + DelCommands(matched)
    {
      calls, matched := DelPattern(prefix + "*", keysFail, delFail);
    }
  }

  /**
   * Under the reference matcher a metacharacter-free namespaced key selects
   * only itself, so `del` of such a key removes at most that key.
   */
  lemma LiteralDelSelectsKey(data: map<string, Entry>, prefix: string, key: string)
    requires MetaFree(prefix + key)
    ensures Matching(data, Match, prefix + key) == if prefix + key in data then {prefix + key} else {}
  {
    forall k ensures k in Matching(data, Match, prefix + key) <==> k in data && k == prefix + key {
      LiteralMatch(prefix + key, k);
    }
  }
}
