/**
 * The current store (src/index.js): a namespaced JSON cache over one client,
 * with `get`, `set`, `del`, `clear` and `scan`.
 */
module StoreSrc {
  import opened Wrappers
  import opened Json
  import opened Namespace
  import opened Backend
  import opened Countdown
  import opened Adapter

  /**
   * The constructor's decisions: a connection string is parsed first (by
   * `parse`, the URL parser), then the options are read as an object.
   */
  function Configure(arg: Arg, parse: string -> Options): (s: Setup)
    ensures |s.prefix| > 0
    ensures arg.Uri? ==> s.handshake == Handshake(parse(arg.text)) && s.choice == ClientFor(parse(arg.text), None)
    ensures arg.Uri? ==> s.prefix == PrefixOr(parse(arg.text).prefix)
    ensures arg.Object? ==> s == SetupFor(arg.fields, arg.selfClient)
  {
    match arg
    case Uri(text) => SetupFor(parse(text), None)
    case Object(fields, self) => SetupFor(fields, self)
  }

  /** One entry of a scan: the key with the namespace removed and its value. */
  datatype Item = Item(key: string, data: Value)

  /** A scan's reply: the server's next cursor and the entries read. */
  datatype Listing = Listing(cursor: nat, entries: seq<Item>)

  /** The key a scan reports for backing key `k`: the first occurrence of `prefix` removed.
      A contract-free name for `RemoveFirst`, so that the scan proofs do not unfold the search behind it. */
  function Unprefixed(k: string, prefix: string): (key: string) {
    RemoveFirst(k, prefix)
  }

  /** The read a scan issues for backing key `k`: `get` of the unprefixed key. */
  function Reread(data: map<string, Entry>, prefix: string, k: string, fail: string -> Option<Backend.Error>): (r: Result<Value, Failure>) {
    var key := prefix + Unprefixed(k, prefix);
    GetReply(Lookup(data, key, fail(key)))
  }

  /** For a page key in the namespace, the scan's read is a `get` of that very key. */
  lemma RereadOwnKey(data: map<string, Entry>, prefix: string, k: string, fail: string -> Option<Backend.Error>)
    requires StartsWith(k, prefix)
    ensures Reread(data, prefix, k, fail) == GetReply(Lookup(data, k, fail(k)))
  {
    RebuildFromStripped(prefix, k);
  }

  /** The entries for a page's keys, read one by one; the first failing read ends the scan with its error. */
  function Fetch(data: map<string, Entry>, prefix: string, keys: seq<string>, fail: string -> Option<Backend.Error>): (r: Result<seq<Item>, Failure>)
    ensures r.Success? ==> |r.value| == |keys|
    decreases |keys|
  {
    if |keys| == 0 then Success([])
    else
      match Reread(data, prefix, keys[0], fail)
      case Failure(e) => Failure(e)
      case Success(v) =>
        match Fetch(data, prefix, keys[1..], fail)
        case Failure(e) => Failure(e)
        case Success(items) => Success([Item(Unprefixed(keys[0], prefix), v)] + items)
  }

  /**
   * `n` reads of `keys` run up to the first failure: every read before the
   * `n`-th succeeds, and the `n`-th is the last key or fails.
   */
  predicate StopsAt(data: map<string, Entry>, prefix: string, keys: seq<string>, fail: string -> Option<Backend.Error>, n: nat) {
    && n <= |keys|
    && (forall j :: 0 <= j < n - 1 ==> Reread(data, prefix, keys[j], fail).Success?)
    && (n == |keys| || (n > 0 && Reread(data, prefix, keys[n - 1], fail).Failure?))
  }

  /** How many reads a scan issues for a page: up to and including the first failing one. */
  function Reads(data: map<string, Entry>, prefix: string, keys: seq<string>, fail: string -> Option<Backend.Error>): (n: nat)
    ensures n <= |keys|
    ensures |keys| > 0 ==> n > 0
    decreases |keys|
  {
    if |keys| == 0 then 0
    else if Reread(data, prefix, keys[0], fail).Failure? then 1
    else 1 + Reads(data, prefix, keys[1..], fail)
  }

  /** A scan's reads run in page order up to and including the first failing one. */
  lemma {:induction false} ReadsStop(data: map<string, Entry>, prefix: string, keys: seq<string>, fail: string -> Option<Backend.Error>)
    ensures StopsAt(data, prefix, keys, fail, Reads(data, prefix, keys, fail))
    decreases |keys|
  {
    if |keys| > 0 && Reread(data, prefix, keys[0], fail).Success? {
      var tail := keys[1..];
      ReadsStop(data, prefix, tail, fail);
      var n := Reads(data, prefix, keys, fail);
      forall j | 0 <= j < n - 1
        ensures Reread(data, prefix, keys[j], fail).Success?
      {
        if j > 0 { assert keys[j] == tail[j - 1]; }
      }
      if n < |keys| {
        assert keys[n - 1] == tail[n - 2];
      }
    }
  }

  /** `GET` of each key with the namespace removed and put back, in order. */
  function ReadLog(prefix: string, keys: seq<string>): (log: seq<Command>)
    decreases |keys|
  {
    if |keys| == 0 then []
    else ReadLog(prefix, keys[..|keys| - 1]) + [Command.Get(prefix + Unprefixed(keys[|keys| - 1], prefix))]
  }

  /** The reads of a scan request the page keys with the namespace removed, in page order. */
  lemma {:induction false} ReadLogOrder(prefix: string, keys: seq<string>)
    ensures |ReadLog(prefix, keys)| == |keys|
    ensures forall i :: 0 <= i < |keys| ==> ReadLog(prefix, keys)[i] == Command.Get(prefix + RemoveFirst(keys[i], prefix))
    decreases |keys|
  {
    if |keys| > 0 {
      var init := keys[..|keys| - 1];
      ReadLogOrder(prefix, init);
      assert forall i :: 0 <= i < |init| ==> init[i] == keys[i];
    }
  }

  /** The reply of a whole scan for the server's page reply. */
  function ScanResult(data: map<string, Entry>, prefix: string, reply: Result<Page, Backend.Error>, fail: string -> Option<Backend.Error>): (r: Result<Listing, Failure>)
    ensures reply.Failure? ==> r == Failure(BackendFailure(reply.error))
    ensures reply.Success? ==> (r.Failure? <==> Fetch(data, prefix, reply.value.keys, fail).Failure?)
    ensures r.Success? ==> reply.Success? && r.value.cursor == reply.value.cursor && |r.value.entries| == |reply.value.keys|
    ensures r.Success? ==> r.value.entries == Fetch(data, prefix, reply.value.keys, fail).value
    ensures reply.Success? && r.Failure? ==> r.error == Fetch(data, prefix, reply.value.keys, fail).error
  {
    match reply
    case Failure(e) => Failure(BackendFailure(e))
    case Success(page) =>
      match Fetch(data, prefix, page.keys, fail)
      case Failure(e) => Failure(e)
      case Success(items) => Success(Listing(page.cursor, items))
  }

  /**
   * A successful fetch has one entry per key, in page order; each entry's key
   * is the page key with the namespace removed, which for a namespaced key
   * rebuilds the page key, and its data is what a read of that key returns.
   */
  lemma FetchEntries(data: map<string, Entry>, prefix: string, keys: seq<string>, fail: string -> Option<Backend.Error>, i: nat)
    requires Fetch(data, prefix, keys, fail).Success?
    requires i < |keys|
    ensures var items := Fetch(data, prefix, keys, fail).value;
      && |items| == |keys|
      && items[i].key == RemoveFirst(keys[i], prefix)
      && (StartsWith(keys[i], prefix) ==> prefix + items[i].key == keys[i])
      && Reread(data, prefix, keys[i], fail) == Success(items[i].data)
  {
    FetchEntry(data, prefix, keys, fail, i);
    if StartsWith(keys[i], prefix) {
      RebuildFromStripped(prefix, keys[i]);
    }
  }

  /** The `i`-th entry of a successful fetch, by induction on the page. */
  lemma {:induction false} FetchEntry(data: map<string, Entry>, prefix: string, keys: seq<string>, fail: string -> Option<Backend.Error>, i: nat)
    requires Fetch(data, prefix, keys, fail).Success?
    requires i < |keys|
    ensures var items := Fetch(data, prefix, keys, fail).value;
      i < |items| && Reread(data, prefix, keys[i], fail) == Success(items[i].data)
      && items[i].key == RemoveFirst(keys[i], prefix)
    decreases |keys|
  {
    var head := Reread(data, prefix, keys[0], fail);
    var rest := Fetch(data, prefix, keys[1..], fail);
    assert head.Success? && rest.Success?;
    if i > 0 {
      FetchEntry(data, prefix, keys[1..], fail, i - 1);
      assert keys[i] == keys[1..][i - 1];
    }
  }


  /**
   * A fetch fails exactly when some key's read fails, and then with the error
   * of the first such key.
   */
  lemma {:induction false} FetchFirstError(data: map<string, Entry>, prefix: string, keys: seq<string>, fail: string -> Option<Backend.Error>)
    ensures Fetch(data, prefix, keys, fail).Failure? <==> exists i :: 0 <= i < |keys| && Reread(data, prefix, keys[i], fail).Failure?
    ensures Fetch(data, prefix, keys, fail).Failure? ==>
      exists i :: 0 <= i < |keys| && Reread(data, prefix, keys[i], fail) == Failure(Fetch(data, prefix, keys, fail).error)
        && forall j :: 0 <= j < i ==> Reread(data, prefix, keys[j], fail).Success?
    decreases |keys|
  {
    if |keys| > 0 {
      var tail := keys[1..];
      FetchFirstError(data, prefix, tail, fail);
      if Reread(data, prefix, keys[0], fail).Success? {
        if Fetch(data, prefix, keys, fail).Failure? {
          var i :| 0 <= i < |tail| && Reread(data, prefix, tail[i], fail) == Failure(Fetch(data, prefix, tail, fail).error)
            && forall j :: 0 <= j < i ==> Reread(data, prefix, tail[j], fail).Success?;
          assert keys[i + 1] == tail[i];
          forall j | 0 <= j < i + 1 ensures Reread(data, prefix, keys[j], fail).Success? {
            if j > 0 { assert keys[j] == tail[j - 1]; }
          }
        } else {
          forall i | 0 <= i < |keys| ensures Reread(data, prefix, keys[i], fail).Success? {
            if i > 0 { assert keys[i] == tail[i - 1]; }
          }
        }
      }
    }
  }

  class Store {
    const client: Client
    const prefix: string

    /**
     * `new RedisStore(options)`: picks the client, sends `AUTH`/`SELECT` as
     * the options ask, and fixes the namespace. `created` stands for the
     * client the client library would create.
     */
    constructor (arg: Arg, parse: string -> Options, created: Client)
      modifies Chosen(Configure(arg, parse).choice, created)
      ensures client == Chosen(Configure(arg, parse).choice, created)
      ensures prefix == Configure(arg, parse).prefix
      ensures client.data == old(Chosen(Configure(arg, parse).choice, created).data)
      ensures client.log == old(Chosen(Configure(arg, parse).choice, created).log) + Configure(arg, parse).handshake
    {
      var setup := Configure(arg, parse);
      var c := Chosen(setup.choice, created);
      client := c;
      prefix := setup.prefix;
      new;
      var o := match arg case Uri(text) => parse(text) case Object(fields, _) => fields;
      if TruthyString(o.password) {
        c.Auth(o.password.value);
      }
      if TruthyInt(o.database) {
        c.Select(o.database.value);
      }
    }

    /** `get(key, fn)`: a read of the namespaced key. */
    method Get(key: string, fail: Option<Backend.Error>) returns (r: Result<Value, Failure>)
      modifies client
      ensures client.data == old(client.data)
      ensures client.log == old(client.log) + [Command.Get(prefix + key)]
      ensures r == GetReply(Lookup(client.data, prefix + key, fail))
    {
      var reply := client.Get(prefix + key, fail);
      r := GetReply(reply);
    }

    /**
     * `set(key, val, ttl, fn)`: serialize first (a value that cannot be
     * serialized fails with nothing sent), then `SET` or `SETEX` the
     * namespaced key; the callback receives the serialized text. `callee` is
     * the function that receives the outcome.
     */
    method Set(key: string, val: Value, ttl: TtlArg, fn: Callback, fail: Option<Backend.Error>)
      returns (callee: Callback, r: Result<string, Failure>)
      modifies client
      ensures callee == Shift(ttl, fn).1
      ensures !Serializable(val) ==>
        r == Failure(EncodeFailure(Unserializable)) && client.log == old(client.log) && client.data == old(client.data)
      ensures Serializable(val) ==>
        var cmd := WriteCommand(prefix + key, Text(val), Shift(ttl, fn).0);
        && client.log == old(client.log) + [cmd]
        && r == (if Refusal(cmd, fail).Some? then Failure(BackendFailure(Refusal(cmd, fail).value)) else Success(Text(val)))
        && client.data == (if Refusal(cmd, fail).Some? then old(client.data) else Applied(old(client.data), cmd))
    {
      var t;
      t, callee := Shift(ttl, fn).0, Shift(ttl, fn).1;
      var encoded := Stringify(val);
      if encoded.Failure? {
        return callee, Failure(EncodeFailure(encoded.error));
      }
      var text := encoded.value;
      var err;
      if t == Some(-1) {
        err := client.Set(prefix + key, text, fail);
      } else {
        err := client.SetEx(prefix + key, Expiry(t), text, fail);
      }
      if err.Some? {
        r := Failure(BackendFailure(err.value));
      } else {
        r := Success(text);
      }
    }

    /** `del(key, fn)`: one `DEL` of the namespaced key, taken literally. */
    method Del(key: string, fail: Option<Backend.Error>) returns (r: Result<nat, Backend.Error>)
      modifies client
      ensures client.log == old(client.log) + [Command.Del(prefix + key)]
      ensures fail.Some? ==> r == Failure(fail.value) && client.data == old(client.data)
      ensures fail.None? ==> r == Success(if prefix + key in old(client.data) then 1 else 0)
      ensures fail.None? ==> client.data == old(client.data) - {prefix + key}
    {
      r := client.Del(prefix + key, fail);
    }

    /**
     * `clear(fn)`: `KEYS prefix*`, then one `DEL` per key through the shared
     * countdown; zero matches complete at once. `matched` is the server's
     * enumeration of the matching keys.
     */
    method Clear(keysFail: Option<Backend.Error>, delFail: string -> Option<Backend.Error>)
      returns (calls: seq<Call>, ghost matched: seq<string>)
      modifies client
      ensures keysFail.Some? ==>
        && calls == [Fail(keysFail.value)]
        && client.data == old(client.data)
        && client.log == old(client.log) + [Keys(prefix + "*")]
      ensures keysFail.None? ==>
        && Distinct(matched)
        && (forall k :: k in matched <==> k in Matching(old(client.data), client.glob, prefix + "*"))
        && calls == Bulk(Outcomes(matched, delFail))
        && client.data == Remaining(old(client.data), matched, delFail)
        && client.log == old(client.log) + [Keys(prefix + "*")] + DelCommands(matched)
    {
      var reply := client.Keys(prefix + "*", keysFail);
      matched := [];
      if reply.Failure? {
        return [Fail(reply.error)], matched;
      }
      var keys := reply.value;
      matched := keys;
      if |keys| == 0 {
        return [Done], matched;
      }
      calls := DeleteEach(client, keys, delFail);
    }

    /**
     * `scan(cursor, count, fn)`: `SCAN cursor MATCH prefix* COUNT count`, then
     * a sequential `get` of every returned key with the namespace removed.
     * `reply` is the server's answer to the `SCAN` and `fail` the failure, if
     * any, of each read.
     */
    method Scan(cursor: int, count: Option<int>, reply: Result<Page, Backend.Error>, fail: string -> Option<Backend.Error>)
      returns (r: Result<Listing, Failure>)
      modifies client
      ensures client.data == old(client.data)
      ensures r == ScanResult(old(client.data), prefix, reply, fail)
      ensures client.log == old(client.log) + [Command.Scan(cursor, prefix + "*", if count.Some? then count.value else DefaultScanCount)]
        + (if reply.Success? then ReadLog(prefix, reply.value.keys[..Reads(old(client.data), prefix, reply.value.keys, fail)]) else [])
    {
      var page := client.Scan(cursor, prefix + "*", if count.Some? then count.value else DefaultScanCount, reply);
      if page.Failure? {
        return Failure(BackendFailure(page.error));
      }
      var entries := Collect(page.value.keys, fail);
      r := if entries.Success? then Success(Listing(page.value.cursor, entries.value)) else Failure(entries.error);
    }

    /** One read of the scan: `get` of page key `k` with the namespace removed. */
    method ReadPageKey(k: string, fail: string -> Option<Backend.Error>) returns (r: Result<Value, Failure>)
      modifies client
      ensures client.data == old(client.data)
      ensures client.log == old(client.log) + [Command.Get(prefix + Unprefixed(k, prefix))]
      ensures r == Reread(old(client.data), prefix, k, fail)
    {
      var key := Unprefixed(k, prefix);
      r := Get(key, fail(prefix + key));
    }

    /** The scan's sequential reads: `get` of each page key with the namespace removed, stopping at the first error. */
    method Collect(keys: seq<string>, fail: string -> Option<Backend.Error>) returns (r: Result<seq<Item>, Failure>)
      modifies client
      ensures client.data == old(client.data)
      ensures r == Fetch(old(client.data), prefix, keys, fail)
      ensures client.log == old(client.log) + ReadLog(prefix, keys[..Reads(old(client.data), prefix, keys, fail)])
    {
      ghost var data := client.data;
      ghost var log0 := client.log;
      var entries := [];
      var i := 0;
      FetchFrom(data, prefix, keys, fail);
      while i < |keys|
        invariant 0 <= i <= |keys|
        invariant client.data == data
        invariant client.log == log0 + ReadLog(prefix, keys[..i])
        invariant Reads(data, prefix, keys, fail) == i + Reads(data, prefix, keys[i..], fail)
        invariant Fetch(data, prefix, keys, fail) == Prepend(entries, Fetch(data, prefix, keys[i..], fail))
      {
        FetchStep(data, prefix, keys, fail, i, entries);
        var key := Unprefixed(keys[i], prefix);
        var got := ReadPageKey(keys[i], fail);
        if got.Failure? {
          assert Fetch(data, prefix, keys, fail) == Failure(got.error);
          assert Reads(data, prefix, keys, fail) == i + 1;
          return Failure(got.error);
        }
        entries := entries + [Item(key, got.value)];
        i := i + 1;
      }
      assert keys[i..] == [];
      assert keys[..i] == keys;
      assert entries + [] == entries;
      r := Success(entries);
    }
  }

  /** The loop's starting point: nothing fetched and nothing logged yet. */
  lemma FetchFrom(data: map<string, Entry>, prefix: string, keys: seq<string>, fail: string -> Option<Backend.Error>)
    ensures Fetch(data, prefix, keys, fail) == Prepend([], Fetch(data, prefix, keys[0..], fail))
    ensures Reads(data, prefix, keys, fail) == Reads(data, prefix, keys[0..], fail)
    ensures ReadLog(prefix, keys[..0]) == []
  {
    assert keys[0..] == keys;
    var r := Fetch(data, prefix, keys, fail);
    if r.Success? {
      assert [] + r.value == r.value;
    }
  }

  /** One more key read by the scan's loop. */
  lemma FetchStep(data: map<string, Entry>, prefix: string, keys: seq<string>, fail: string -> Option<Backend.Error>, i: nat, entries: seq<Item>)
    requires i < |keys|
    ensures var key := Unprefixed(keys[i], prefix);
      var got := Reread(data, prefix, keys[i], fail);
      && ReadLog(prefix, keys[..i + 1]) == ReadLog(prefix, keys[..i]) + [Command.Get(prefix + key)]
      && Reads(data, prefix, keys[i..], fail) == 1 + (if got.Failure? then 0 else Reads(data, prefix, keys[i + 1..], fail))
      && (got.Failure? ==> Fetch(data, prefix, keys[i..], fail) == Failure(got.error))
      && (got.Success? ==>
            Prepend(entries, Fetch(data, prefix, keys[i..], fail))
            == Prepend(entries + [Item(key, got.value)], Fetch(data, prefix, keys[i + 1..], fail)))
  {
    assert keys[i..][1..] == keys[i + 1..];
    assert keys[..i + 1][..i] == keys[..i];
    var got := Reread(data, prefix, keys[i], fail);
    if got.Success? {
      var rest := Fetch(data, prefix, keys[i + 1..], fail);
      if rest.Success? {
        assert entries + ([Item(Unprefixed(keys[i], prefix), got.value)] + rest.value)
          == (entries + [Item(Unprefixed(keys[i], prefix), got.value)]) + rest.value;
      }
    }
  }

  /** `items` put in front of a fetch's entries; a failure stays as it is. */
  function Prepend(items: seq<Item>, r: Result<seq<Item>, Failure>): (r': Result<seq<Item>, Failure>) {
    if r.Success? then Success(items + r.value) else r
  }

  /**
   * A write through a store followed by a read of the same key, with no
   * failures and the value serializable, returns the value written.
   */
  method WriteThenRead(store: Store, key: string, val: Value, ttl: TtlArg)
    returns (written: Result<string, Failure>, read: Result<Value, Failure>)
    modifies store.client
    ensures Serializable(val) && written.Success? ==> read == Success(val)
    ensures Serializable(val) && written.Failure? ==> ttl.Seconds? && ttl.n < -1
  {
    var callee;
    callee, written := store.Set(key, val, ttl, Noop, None);
    if Serializable(val) {
      ReadAfterWrite(old(store.client.data), store.prefix + key, val, Shift(ttl, Noop).0);
      TtlPolicy(store.prefix + key, Text(val), ttl, Noop);
    }
    read := store.Get(key, None);
  }
}
