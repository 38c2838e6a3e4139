/**
 * The bulk-delete countdown shared by every version's `clear`: one `DEL` per
 * enumerated key, a shared `count` set to the number of keys, and a callback
 * per completion. A failed delete latches `count = 0` and calls `fn(err)`; a
 * successful one runs `--count == 0` and calls `fn(null, null)` when that
 * holds. Completions are an arbitrary sequence of outcomes: every lemma here
 * quantifies over all of them, so it holds in whatever order the deletes
 * finish.
 */
module Countdown {
  import opened Wrappers
  import Backend

  /** One invocation of the bulk delete's callback: `fn(null, null)` or `fn(err)`. */
  datatype Call = Done | Fail(error: Backend.Error)

  /** One completion: the shared counter afterwards and the callback it fires, if any. */
  function Step(count: int, outcome: Option<Backend.Error>): (r: (int, Option<Call>))
    ensures outcome.Some? ==> r == (0, Some(Fail(outcome.value)))
    ensures outcome.None? ==> r.0 == count - 1 && (r.1.Some? <==> count == 1) && (r.1.Some? ==> r.1.value == Done)
  {
    match outcome
    case Some(e) => (0, Some(Fail(e)))
    case None => (count - 1, if count - 1 == 0 then Some(Done) else None)
  }

  /** The callbacks fired, in order, by the completions `outcomes` starting from `count`. */
  function Run(count: int, outcomes: seq<Option<Backend.Error>>): (calls: seq<Call>)
    decreases |outcomes|
  {
    if |outcomes| == 0 then []
    else
      var (next, call) := Step(count, outcomes[0]);
      (if call.Some? then [call.value] else []) + Run(next, outcomes[1..])
  }

  /** Each completion fires at most one callback. */
  lemma {:induction false} RunBound(count: int, outcomes: seq<Option<Backend.Error>>)
    ensures |Run(count, outcomes)| <= |outcomes|
    decreases |outcomes|
  {
    if |outcomes| > 0 {
      RunBound(Step(count, outcomes[0]).0, outcomes[1..]);
    }
  }

  predicate AllSucceed(outcomes: seq<Option<Backend.Error>>) {
    forall i :: 0 <= i < |outcomes| ==> outcomes[i].None?
  }

  /** `fn(err)` once for each failed completion, in completion order. */
  function Failures(outcomes: seq<Option<Backend.Error>>): (reports: seq<Call>)
    decreases |outcomes|
  {
    if |outcomes| == 0 then []
    else (if outcomes[0].Some? then [Fail(outcomes[0].value)] else []) + Failures(outcomes[1..])
  }

  /** Once the counter is latched at or below zero, only failures reach the callback. */
  lemma {:induction false} RunLatched(count: int, outcomes: seq<Option<Backend.Error>>)
    requires count <= 0
    ensures Run(count, outcomes) == Failures(outcomes)
    decreases |outcomes|
  {
    if |outcomes| > 0 {
      var (next, call) := Step(count, outcomes[0]);
      RunLatched(next, outcomes[1..]);
    }
  }

  /**
   * Starting from the number of pending deletes: if every delete succeeds the
   * callback fires once, with `Done`, after the last completion; otherwise it
   * fires once per failure and never with `Done`.
   */
  lemma {:induction false} RunFromPending(outcomes: seq<Option<Backend.Error>>)
    requires |outcomes| > 0
    ensures Run(|outcomes|, outcomes) == if AllSucceed(outcomes) then [Done] else Failures(outcomes)
    decreases |outcomes|
  {
    var n := |outcomes|;
    var tail := outcomes[1..];
    if outcomes[0].Some? {
      RunLatched(0, tail);
    } else if n == 1 {
      assert AllSucceed(outcomes);
    } else {
      RunFromPending(tail);
      assert AllSucceed(outcomes) <==> AllSucceed(tail) by {
        if AllSucceed(tail) {
          forall i | 0 <= i < n ensures outcomes[i].None? {
            if i > 0 { assert outcomes[i] == tail[i - 1]; }
          }
        }
      }
    }
  }

  /** `Failures` holds exactly the failures: no `Done`, and empty only when every delete succeeded. */
  lemma {:induction false} FailuresAreFailures(outcomes: seq<Option<Backend.Error>>)
    ensures Done !in Failures(outcomes)
    ensures Failures(outcomes) == [] <==> AllSucceed(outcomes)
    decreases |outcomes|
  {
    if |outcomes| > 0 {
      var tail := outcomes[1..];
      FailuresAreFailures(tail);
      assert AllSucceed(outcomes) <==> outcomes[0].None? && AllSucceed(tail) by {
        if outcomes[0].None? && AllSucceed(tail) {
          forall i | 0 <= i < |outcomes| ensures outcomes[i].None? {
            if i > 0 { assert outcomes[i] == tail[i - 1]; }
          }
        }
      }
    }
  }

  /**
   * The callbacks of a bulk delete that answers zero matches with
   * `fn(null, null)` at once (src/index.js and lib/index.js).
   */
  function Bulk(outcomes: seq<Option<Backend.Error>>): (calls: seq<Call>)
    ensures AllSucceed(outcomes) ==> calls == [Done]
    ensures !AllSucceed(outcomes) ==> calls == Failures(outcomes) && calls != [] && Done !in calls
  {
    FailuresAreFailures(outcomes);
    if |outcomes| == 0 then [Done]
    else RunFromPending(outcomes); Run(|outcomes|, outcomes)
  }

  /**
   * The callbacks of a bulk delete with no zero-match exit (index.js): with
   * nothing to delete the callback never fires.
   */
  lemma NoExitCallbacks(outcomes: seq<Option<Backend.Error>>)
    ensures |outcomes| == 0 ==> Run(|outcomes|, outcomes) == []
    ensures |outcomes| > 0 && AllSucceed(outcomes) ==> Run(|outcomes|, outcomes) == [Done]
    ensures !AllSucceed(outcomes) ==> Run(|outcomes|, outcomes) == Failures(outcomes) && Done !in Failures(outcomes)
  {
    FailuresAreFailures(outcomes);
    if |outcomes| > 0 {
      RunFromPending(outcomes);
    }
  }

  /**
   * Latching the counter stops `Done`, not further errors: two failed
   * deletes call the callback twice, once with each error.
   */
  lemma EachFailureReported(e1: Backend.Error, e2: Backend.Error)
    ensures Run(2, [Some(e1), Some(e2)]) == [Fail(e1), Fail(e2)]
    ensures Run(3, [None, Some(e1), None]) == [Fail(e1)]
  {
    assert [Some(e1), Some(e2)][1..] == [Some(e2)];
    assert [Some(e2)][1..] == [];
    assert Run(0, [Some(e2)]) == [Fail(e2)] + Run(0, []);
    assert [None, Some(e1), None][1..] == [Some(e1), None];
    assert [Some(e1), None][1..] == [None];
    var last: seq<Option<Backend.Error>> := [None];
    assert last[1..] == [];
    assert Run(0, [None]) == Run(-1, []);
    assert Run(2, [Some(e1), None]) == [Fail(e1)] + Run(0, [None]);
  }

  /** The completion outcome of each key's delete, in key order. */
  function Outcomes(keys: seq<string>, fail: string -> Option<Backend.Error>): (os: seq<Option<Backend.Error>>)
    ensures |os| == |keys| && forall i :: 0 <= i < |keys| ==> os[i] == fail(keys[i])
  {
    seq(|keys|, i requires 0 <= i < |keys| => fail(keys[i]))
  }

  /** The data left after deleting `keys` in order, each delete removing its key unless it failed. */
  function Remaining(data: map<string, Backend.Entry>, keys: seq<string>, fail: string -> Option<Backend.Error>): (left: map<string, Backend.Entry>)
    decreases |keys|
  {
    if |keys| == 0 then data
    else
      var last := keys[|keys| - 1];
      Remaining(data, keys[..|keys| - 1], fail) - Gone(last, fail(last))
  }

  /** `DEL k` for each key, in order. */
  function DelCommands(keys: seq<string>): (cmds: seq<Backend.Command>)
    decreases |keys|
  {
    if |keys| == 0 then [] else DelCommands(keys[..|keys| - 1]) + [Backend.Del(keys[|keys| - 1])]
  }

  /**
   * A bulk delete removes exactly the listed keys whose delete succeeded and
   * leaves every other entry as it was.
   */
  lemma {:induction false} RemainingKeys(data: map<string, Backend.Entry>, keys: seq<string>, fail: string -> Option<Backend.Error>, k: string)
    ensures k in Remaining(data, keys, fail) <==> k in data && !(k in keys && fail(k).None?)
    ensures k in Remaining(data, keys, fail) ==> Remaining(data, keys, fail)[k] == data[k]
    decreases |keys|
  {
    if |keys| > 0 {
      var init := keys[..|keys| - 1];
      RemainingKeys(data, init, fail, k);
      assert keys == init + [keys[|keys| - 1]];
    }
  }

  /** One `DEL` per key, in key order. */
  lemma {:induction false} DelCommandsOrder(keys: seq<string>)
    ensures |DelCommands(keys)| == |keys|
    ensures forall i :: 0 <= i < |keys| ==> DelCommands(keys)[i] == Backend.Del(keys[i])
    decreases |keys|
  {
    if |keys| > 0 {
      var init := keys[..|keys| - 1];
      DelCommandsOrder(init);
      assert forall i :: 0 <= i < |init| ==> init[i] == keys[i];
    }
  }

  /**
   * `Run` after one more completion: the callbacks fired so far, extended by
   * the one this completion fires, still lead to the whole run.
   */
  lemma RunAdvance(prior: seq<Call>, count: int, outcomes: seq<Option<Backend.Error>>, i: nat, total: seq<Call>)
    requires i < |outcomes|
    requires prior + Run(count, outcomes[i..]) == total
    ensures var (next, call) := Step(count, outcomes[i]);
      (prior + if call.Some? then [call.value] else []) + Run(next, outcomes[i + 1..]) == total
  {
    var (next, call) := Step(count, outcomes[i]);
    var here := if call.Some? then [call.value] else [];
    var later := Run(next, outcomes[i + 1..]);
    assert outcomes[i..][0] == outcomes[i];
    assert outcomes[i..][1..] == outcomes[i + 1..];
    assert Run(count, outcomes[i..]) == here + later;
    assert (prior + here) + later == prior + (here + later);
  }

  /** `Remaining` and `DelCommands` over one more key. */
  lemma ExtendPrefix(data: map<string, Backend.Entry>, keys: seq<string>, fail: string -> Option<Backend.Error>, i: nat)
    requires i < |keys|
    ensures Remaining(data, keys[..i + 1], fail) == Remaining(data, keys[..i], fail) - Gone(keys[i], fail(keys[i]))
    ensures DelCommands(keys[..i + 1]) == DelCommands(keys[..i]) + [Backend.Del(keys[i])]
  {
    assert keys[..i + 1][..i] == keys[..i];
  }

  /** The key a delete removed: itself on success, nothing on failure. */
  function Gone(key: string, failure: Option<Backend.Error>): set<string> {
    if failure.None? then {key} else {}
  }

  /**
   * One key's `DEL` and the completion closure that follows it: the counter
   * afterwards and the callback fired, as `Step` says.
   */
  method DeleteOne(client: Backend.Client, key: string, failure: Option<Backend.Error>, count: int)
    returns (next: int, call: Option<Call>)
    modifies client
    ensures client.log == old(client.log) + [Backend.Del(key)]
    ensures client.data == old(client.data) - Gone(key, failure)
    ensures (next, call) == Step(count, failure)
  {
    var r := client.Del(key, failure);
    if r.Failure? {
      next := 0;
      call := Some(Fail(r.error));
    } else {
      next := count - 1;
      call := if next == 0 then Some(Done) else None;
    }
  }

  /**
   * Issue one `DEL` per key and feed each completion through the shared
   * counter exactly as the per-key closures do.
   */
  method DeleteEach(client: Backend.Client, keys: seq<string>, fail: string -> Option<Backend.Error>)
    returns (calls: seq<Call>)
    modifies client
    ensures client.log == old(client.log) + DelCommands(keys)
    ensures client.data == Remaining(old(client.data), keys, fail)
    ensures calls == Run(|keys|, Outcomes(keys, fail))
  {
    ghost var os := Outcomes(keys, fail);
    ghost var data0, log0 := client.data, client.log;
    var count := |keys|;
    calls := [];
    var i := 0;
    while i < |keys|
      invariant 0 <= i <= |keys|
      invariant client.log == log0 + DelCommands(keys[..i])
      invariant client.data == Remaining(data0, keys[..i], fail)
      invariant calls + Run(count, os[i..]) == Run(|keys|, os)
    {
      RunAdvance(calls, count, os, i, Run(|keys|, os));
      ExtendPrefix(data0, keys, fail, i);
      var failure := fail(keys[i]);
      assert failure == os[i];
      var call;
      count, call := DeleteOne(client, keys[i], failure, count);
      if call.Some? {
        calls := calls + [call.value];
      }
      i := i + 1;
    }
    assert keys[..i] == keys;
    assert os[i..] == [];
  }
}
