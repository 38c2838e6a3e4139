/**
 * The key-value server behind the store, as the store sees it through its
 * client: a map from keys to entries, plus the log of every command the
 * client was asked to send. A network or server failure of one command is an
 * input (`fail`); a failed command leaves the data as it was.
 */
module Backend {
  import opened Wrappers

  /** A stored payload and the seconds-to-live it was written with (`None`: no expiry). */
  datatype Entry = Entry(payload: string, ttl: Option<int>)

  datatype Error = ServerError(message: string) | InvalidExpireTime

  datatype Command =
    | Get(key: string)
    | Set(key: string, value: string)
    | SetEx(key: string, seconds: int, value: string)
    | Del(key: string)
    | Keys(pattern: string)
    | Scan(cursor: int, pattern: string, count: int)
    | Auth(password: string)
    | Select(db: int)

  /** One `SCAN` reply: the next cursor and a page of keys. */
  datatype Page = Page(cursor: nat, keys: seq<string>)

  predicate Distinct(s: seq<string>) {
    forall i, j :: 0 <= i < j < |s| ==> s[i] != s[j]
  }

  /** The reply to `GET key`: the payload, `None` for a missing key, or the failure. */
  function Lookup(data: map<string, Entry>, key: string, fail: Option<Error>): (r: Result<Option<string>, Error>)
    ensures r.Failure? <==> fail.Some?
    ensures r.Success? ==> (r.value.Some? <==> key in data)
    ensures r.Success? && key in data ==> r.value == Some(data[key].payload)
  {
    match fail
    case Some(e) => Failure(e)
    case None => Success(if key in data then Some(data[key].payload) else None)
  }

  /**
   * The error a write draws: the injected failure if any, else the server's
   * own refusal of a `SETEX` whose time is not positive.
   */
  function Refusal(cmd: Command, fail: Option<Error>): (r: Option<Error>)
    ensures fail.Some? ==> r == fail
    ensures fail.None? ==> (r.Some? <==> cmd.SetEx? && cmd.seconds <= 0)
  {
    if fail.Some? then fail
    else if cmd.SetEx? && cmd.seconds <= 0 then Some(InvalidExpireTime)
    else None
  }

  /** The data after the server ran a write command. */
  function Applied(data: map<string, Entry>, cmd: Command): (d: map<string, Entry>)
    ensures cmd.Set? ==> d == data[cmd.key := Entry(cmd.value, None)]
    ensures cmd.SetEx? ==> d == data[cmd.key := Entry(cmd.value, Some(cmd.seconds))]
    ensures cmd.Del? ==> d.Keys == data.Keys - {cmd.key} && forall k :: k in d ==> d[k] == data[k]
    ensures !(cmd.Set? || cmd.SetEx? || cmd.Del?) ==> d == data
  {
    match cmd
    case Set(k, v) => data[k := Entry(v, None)]
    case SetEx(k, s, v) => data[k := Entry(v, Some(s))]
    case Del(k) => data - {k}
    case _ => data
  }

  /** The keys `KEYS pattern` reports under the server's matcher `glob`. */
  function Matching(data: map<string, Entry>, glob: (string, string) -> bool, pattern: string): (ks: set<string>)
    ensures forall k :: k in ks <==> k in data && glob(pattern, k)
  {
    set k | k in data && glob(pattern, k)
  }

  /** The elements of `s`, each once, in an order the server chooses. */
  method Enumerate(s: set<string>) returns (r: seq<string>)
    ensures Distinct(r)
    ensures forall k :: k in r <==> k in s
  {
    r := [];
    var rest := s;
    while rest != {}
      invariant rest <= s
      invariant forall k :: k in r <==> k in s && k !in rest
      invariant Distinct(r)
      decreases rest
    {
      var k :| k in rest;
      r := r + [k];
      rest := rest - {k};
    }
  }

  class Client {
    var data: map<string, Entry>
    var log: seq<Command>
    /** The server's pattern matcher for `KEYS` and `SCAN ... MATCH`. */
    const glob: (string, string) -> bool

    constructor (data: map<string, Entry>, glob: (string, string) -> bool)
      ensures this.data == data && this.glob == glob && log == []
    {
      this.data := data;
      this.glob := glob;
      log := [];
    }

    method Get(key: string, fail: Option<Error>) returns (r: Result<Option<string>, Error>)
      modifies this
      ensures data == old(data) && log == old(log) + [Command.Get(key)]
      ensures r == Lookup(data, key, fail)
    {
      log := log + [Command.Get(key)];
      r := Lookup(data, key, fail);
    }

    method Set(key: string, value: string, fail: Option<Error>) returns (err: Option<Error>)
      modifies this
      ensures log == old(log) + [Command.Set(key, value)]
      ensures err == Refusal(Command.Set(key, value), fail)
      ensures data == if err.None? then Applied(old(data), Command.Set(key, value)) else old(data)
    {
      var cmd := Command.Set(key, value);
      log := log + [cmd];
      err := Refusal(cmd, fail);
      if err.None? {
        data := Applied(data, cmd);
      }
    }

    method SetEx(key: string, seconds: int, value: string, fail: Option<Error>) returns (err: Option<Error>)
      modifies this
      ensures log == old(log) + [Command.SetEx(key, seconds, value)]
      ensures err == Refusal(Command.SetEx(key, seconds, value), fail)
      ensures data == if err.None? then Applied(old(data), Command.SetEx(key, seconds, value)) else old(data)
    {
      var cmd := Command.SetEx(key, seconds, value);
      log := log + [cmd];
      err := Refusal(cmd, fail);
      if err.None? {
        data := Applied(data, cmd);
      }
    }

    /** `DEL key`: removes one literal key and replies with the number removed. */
    method Del(key: string, fail: Option<Error>) returns (r: Result<nat, Error>)
      modifies this
      ensures log == old(log) + [Command.Del(key)]
      ensures fail.Some? ==> r == Failure(fail.value) && data == old(data)
      ensures fail.None? ==> r == Success(if key in old(data) then 1 else 0) && data == old(data) - {key}
    {
      log := log + [Command.Del(key)];
      if fail.Some? {
        r := Failure(fail.value);
      } else {
        r := Success(if key in data then 1 else 0);
        data := data - {key};
      }
    }

    /** `KEYS pattern`: every matching key, each once. */
    method Keys(pattern: string, fail: Option<Error>) returns (r: Result<seq<string>, Error>)
      modifies this
      ensures data == old(data) && log == old(log) + [Command.Keys(pattern)]
      ensures fail.Some? ==> r == Failure(fail.value)
      ensures fail.None? ==> r.Success? && Distinct(r.value)
      ensures fail.None? ==> forall k :: k in r.value <==> k in Matching(data, glob, pattern)
    {
      log := log + [Command.Keys(pattern)];
      if fail.Some? {
        r := Failure(fail.value);
      } else {
        var ks := Enumerate(Matching(data, glob, pattern));
        r := Success(ks);
      }
    }

    /** `SCAN cursor MATCH pattern COUNT count`; the server's reply is an input. */
    method Scan(cursor: int, pattern: string, count: int, reply: Result<Page, Error>) returns (r: Result<Page, Error>)
      modifies this
      ensures data == old(data) && log == old(log) + [Command.Scan(cursor, pattern, count)]
      ensures r == reply
    {
      log := log + [Command.Scan(cursor, pattern, count)];
      r := reply;
    }

    method Auth(password: string)
      modifies this
      ensures data == old(data) && log == old(log) + [Command.Auth(password)]
    {
      log := log + [Command.Auth(password)];
    }

    method Select(db: int)
      modifies this
      ensures data == old(data) && log == old(log) + [Command.Select(db)]
    {
      log := log + [Command.Select(db)];
    }
  }
}
