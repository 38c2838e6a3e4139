/**
 * What the store versions share: the defaults, the rule that picks the
 * expiry command for a write, the decoding of a read's reply, the choice of
 * the client a store talks to, and the scope of a prefix-wide bulk delete.
 */
module Adapter {
  import opened Wrappers
  import opened Json
  import opened Namespace
  import opened Glob
  import opened Backend
  import opened Countdown

  const DefaultPrefix: string := "cacheman:"
  /** Seconds a write lives when it is given no (or a falsy) `ttl`. */
  const DefaultTtl: int := 60
  const DefaultScanCount: int := 10

  /** The error a store operation hands to its callback. */
  datatype Failure =
    | BackendFailure(error: Backend.Error)
    | EncodeFailure(encode: EncodeError)
    | DecodeFailure(decode: DecodeError)

  /** A callback function, identified only as far as the store passes it on. */
  datatype Callback = Noop | Handler(id: nat)

  /** The `ttl` argument of `set`: absent or `null`, a number, or the callback itself. */
  datatype TtlArg = NoTtl | Seconds(n: int) | ByCallback(handler: Callback)

  /**
   * `set(key, val, fn)`: a function in the `ttl` position becomes the
   * callback and the `ttl` becomes `null`.
   */
  function Shift(ttl: TtlArg, fn: Callback): (r: (Option<int>, Callback))
    ensures ttl.ByCallback? ==> r == (None, ttl.handler)
    ensures !ttl.ByCallback? ==> r.1 == fn && (r.0.Some? <==> ttl.Seconds?)
    ensures ttl.Seconds? ==> r.0 == Some(ttl.n)
  {
    match ttl
    case NoTtl => (None, fn)
    case Seconds(n) => (Some(n), fn)
    case ByCallback(f) => (None, f)
  }

  /** `ttl || 60`: a missing or zero `ttl` falls back to the default. */
  function Expiry(ttl: Option<int>): (seconds: int)
    ensures ttl.Some? && ttl.value != 0 ==> seconds == ttl.value
    ensures ttl.None? || ttl.value == 0 ==> seconds == DefaultTtl
  {
    if ttl.Some? && ttl.value != 0 then ttl.value else DefaultTtl
  }

  /**
   * The write a versioned store sends for a serialized value: `SET` (no
   * expiry) exactly for `ttl === -1`, otherwise `SETEX` with `ttl || 60`.
   */
  function WriteCommand(key: string, payload: string, ttl: Option<int>): (cmd: Command)
    ensures cmd.Set? <==> ttl == Some(-1)
    ensures cmd.Set? ==> cmd == Command.Set(key, payload)
    ensures cmd.SetEx? ==> cmd == SetEx(key, Expiry(ttl), payload)
    ensures cmd.SetEx? || cmd.Set?
  {
    if ttl == Some(-1) then Command.Set(key, payload) else SetEx(key, Expiry(ttl), payload)
  }

  /**
   * Which `ttl` arguments the server refuses: a write with no injected
   * failure fails exactly when the effective expiry is negative, that is for
   * a `ttl` below -1 (-1 itself means "never expire").
   */
  lemma TtlPolicy(key: string, payload: string, ttl: TtlArg, fn: Callback)
    ensures var (t, callee) := Shift(ttl, fn);
      var cmd := WriteCommand(key, payload, t);
      && (ttl.ByCallback? ==> callee == ttl.handler && cmd == SetEx(key, DefaultTtl, payload))
      && (!ttl.ByCallback? ==> callee == fn)
      && (ttl == NoTtl || ttl == Seconds(0) ==> cmd == SetEx(key, DefaultTtl, payload))
      && (ttl == Seconds(-1) ==> cmd == Command.Set(key, payload))
      && (ttl.Seconds? && ttl.n != 0 && ttl.n != -1 ==> cmd == SetEx(key, ttl.n, payload))
      && (Refusal(cmd, None).Some? <==> ttl.Seconds? && ttl.n < -1)
  {
  }

  /**
   * The value a read hands to its callback: the server's error, `null` for a
   * missing or empty payload, otherwise the parsed payload or the parse error.
   */
  function GetReply(reply: Result<Option<string>, Backend.Error>): (r: Result<Value, Failure>)
    ensures reply.Failure? ==> r == Failure(BackendFailure(reply.error))
    ensures reply.Success? && (reply.value.None? || reply.value.value == "") ==> r == Success(Null)
    ensures reply.Success? && reply.value.Some? && reply.value.value != "" ==>
      (r.Failure? <==> Decode(reply.value.value).Failure?)
      && (r.Success? ==> r.value == Decode(reply.value.value).value)
    ensures r.Failure? && reply.Success? ==> r.error.DecodeFailure?
  {
    match reply
    case Failure(e) => Failure(BackendFailure(e))
    case Success(None) => Success(Null)
    case Success(Some(payload)) =>
      if payload == "" then Success(Null)
      else match Decode(payload)
        case Success(v) => Success(v)
        case Failure(e) => Failure(DecodeFailure(e))
  }

  /**
   * A read after an accepted write of a serializable value, with no failure
   * in between, returns that value, whatever the expiry command was.
   */
  lemma ReadAfterWrite(data: map<string, Entry>, key: string, v: Value, ttl: Option<int>)
    requires Serializable(v)
    ensures var cmd := WriteCommand(key, Text(v), ttl);
      Refusal(cmd, None).None? ==> GetReply(Lookup(Applied(data, cmd), key, None)) == Success(v)
  {
    RoundTrip(v);
  }

  /** A write touches only its own key: every other key reads as before. */
  lemma WriteIsolation(data: map<string, Entry>, key: string, other: string, payload: string, ttl: Option<int>, fail: Option<Backend.Error>)
    requires other != key
    ensures Lookup(Applied(data, WriteCommand(key, payload, ttl)), other, fail) == Lookup(data, other, fail)
  {
  }

  /** The values the store's own checks write and read back: `{a: 1}`, `0`, `false` and `null`. */
  lemma StoredSamples(data: map<string, Entry>, key: string)
    ensures GetReply(Lookup(Applied(data, WriteCommand(key, Text(Obj([Member("a", Num(1))])), None)), key, None))
      == Success(Obj([Member("a", Num(1))]))
    ensures GetReply(Lookup(Applied(data, WriteCommand(key, Text(Num(0)), None)), key, None)) == Success(Num(0))
    ensures GetReply(Lookup(Applied(data, WriteCommand(key, Text(Bool(false)), None)), key, None)) == Success(Bool(false))
    ensures GetReply(Lookup(Applied(data, WriteCommand(key, Text(Null), None)), key, None)) == Success(Null)
  {
    ReadAfterWrite(data, key, Obj([Member("a", Num(1))]), None);
    ReadAfterWrite(data, key, Num(0), None);
    ReadAfterWrite(data, key, Bool(false), None);
    ReadAfterWrite(data, key, Null, None);
  }

  /** A stored `null` and a missing key reach the callback alike. */
  lemma NullLikeMiss(data: map<string, Entry>, key: string, ttl: Option<int>)
    requires key !in data
    ensures var cmd := WriteCommand(key, Text(Null), ttl);
      Refusal(cmd, None).None? ==> GetReply(Lookup(Applied(data, cmd), key, None)) == GetReply(Lookup(data, key, None))
  {
    ReadAfterWrite(data, key, Null, ttl);
  }

  /** The fields of a store's options object that the constructor reads. */
  datatype Options = Options(
    port: Option<int>,
    host: Option<string>,
    client: Option<Client>,
    password: Option<string>,
    database: Option<int>,
    prefix: Option<string>)

  /**
   * The constructor's argument: a connection string, or an object with the
   * fields `fields` that is itself a client (`selfClient`) when it has a
   * `setex` function. `new RedisStore()` passes `Object(NoOptions(), None)`.
   */
  datatype Arg = Uri(text: string) | Object(fields: Options, selfClient: Option<Client>)

  /** The options object of `new RedisStore()` with no argument. */
  function NoOptions(): Options {
    Options(None, None, None, None, None, None)
  }

  /** JavaScript truthiness of an optional number or string: absent, `0` and `""` are falsy. */
  predicate TruthyInt(o: Option<int>) {
    o.Some? && o.value != 0
  }

  predicate TruthyString(o: Option<string>) {
    o.Some? && o.value != ""
  }

  /** How the store obtains its client. */
  datatype ClientChoice =
    | Itself(self: Client)
    | Given(given: Client)
    | DefaultClient
    | CreateClient(port: Option<int>, host: Option<string>, opts: Options)

  /** The client a choice yields; `created` is the one the client library would create. */
  function Chosen(choice: ClientChoice, created: Client): (c: Client) {
    match choice
    case Itself(c) => c
    case Given(c) => c
    case _ => created
  }

  /** What a versioned store's constructor decides: its client, the opening commands and the prefix. */
  datatype Setup = Setup(choice: ClientChoice, handshake: seq<Command>, prefix: string)

  /**
   * The client of a versioned store, for an options object that is itself a
   * client (`self`, an object with a `setex` function) or carries the fields
   * `o`. The object itself wins, then `client`, then a default client when
   * neither `port` nor `host` is truthy, else a client created from the
   * options with `prefix` nulled.
   */
  function ClientFor(o: Options, self: Option<Client>): (choice: ClientChoice)
    ensures self.Some? ==> choice == Itself(self.value)
    ensures self.None? && o.client.Some? ==> choice == Given(o.client.value)
    ensures self.None? && o.client.None? && !TruthyInt(o.port) && !TruthyString(o.host) ==> choice == DefaultClient
    ensures choice.CreateClient? <==> self.None? && o.client.None? && (TruthyInt(o.port) || TruthyString(o.host))
    ensures choice.CreateClient? ==> choice.port == o.port && choice.host == o.host && choice.opts == o.(prefix := None)
  {
    if self.Some? then Itself(self.value)
    else if o.client.Some? then Given(o.client.value)
    else if !TruthyInt(o.port) && !TruthyString(o.host) then DefaultClient
    else CreateClient(o.port, o.host, o.(prefix := None))
  }

  /** `AUTH` for a truthy password, then `SELECT` for a truthy database. */
  function Handshake(o: Options): (cs: seq<Command>)
    ensures forall c :: c in cs ==> c.Auth? || c.Select?
    ensures (|cs| > 0 && cs[0].Auth?) <==> TruthyString(o.password)
    ensures TruthyString(o.password) ==> cs[0] == Auth(o.password.value)
    ensures (|cs| > 0 && cs[|cs| - 1].Select?) <==> TruthyInt(o.database)
    ensures TruthyInt(o.database) ==> cs[|cs| - 1] == Select(o.database.value)
    ensures |cs| == (if TruthyString(o.password) then 1 else 0) + (if TruthyInt(o.database) then 1 else 0)
  {
    (if TruthyString(o.password) then [Auth(o.password.value)] else [])
      + (if TruthyInt(o.database) then [Select(o.database.value)] else [])
  }

  /** `prefix || 'cacheman:'`: a store's namespace is never empty. */
  function PrefixOr(prefix: Option<string>): (p: string)
    ensures |p| > 0
    ensures TruthyString(prefix) ==> p == prefix.value
    ensures !TruthyString(prefix) ==> p == DefaultPrefix
  {
    if TruthyString(prefix) then prefix.value else DefaultPrefix
  }

  /**
   * The constructor's decisions for an options object: the object itself
   * when it is a client, a created client that never sees the prefix, only
   * `AUTH` and `SELECT` as opening commands, and a namespace that is the
   * truthy prefix or else the default.
   */
  function SetupFor(o: Options, self: Option<Client>): (s: Setup)
    ensures s.choice == ClientFor(o, self) && s.handshake == Handshake(o)
    ensures self.Some? ==> s.choice == Itself(self.value)
    ensures s.choice.CreateClient? ==> s.choice.opts.prefix.None?
    ensures forall c :: c in s.handshake ==> c.Auth? || c.Select?
    ensures TruthyString(o.prefix) ==> s.prefix == o.prefix.value
    ensures !TruthyString(o.prefix) ==> s.prefix == DefaultPrefix
  {
    Setup(ClientFor(o, self), Handshake(o), PrefixOr(o.prefix))
  }

  /**
   * A prefix-wide bulk delete under a matcher that keeps `prefix*` inside the
   * namespace removes exactly the namespaced keys whose delete succeeded and
   * leaves every other entry, in particular every other namespace, as it was.
   */
  lemma ClearScope(data: map<string, Entry>, glob: (string, string) -> bool, prefix: string,
                   matched: seq<string>, fail: string -> Option<Backend.Error>, k: string)
    requires SelectsNamespace(glob, prefix)
    requires forall m :: m in matched <==> m in Matching(data, glob, prefix + "*")
    ensures k in Remaining(data, matched, fail) <==> k in data && !(StartsWith(k, prefix) && fail(k).None?)
    ensures k in Remaining(data, matched, fail) ==> Remaining(data, matched, fail)[k] == data[k]
  {
    RemainingKeys(data, matched, fail, k);
    assert k in matched <==> k in data && glob(prefix + "*", k);
  }
}
