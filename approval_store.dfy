/**
 * The approval requests of lib/approval-store.ts: an insertion-ordered map
 * from request id to request, with create, get, status update, the list of
 * pending requests, and a polling wait for a decision.
 *
 * The module-level `Map` becomes the field of a class. The wait loop reads
 * the clock and the store while other handlers may decide the request, so
 * both are oracles indexed by the poll: `clock(0)` is the start time,
 * `clock(k + 1)` the reading that guards poll `k`, and `observed(k)` what
 * `get(id)` returned at poll `k`.
 */
module ApprovalStore {
  import opened Wrappers
  import opened JsMap
  import opened Types

  const DefaultTimeoutMs: int := 300000
  const PollIntervalMs: nat := 1000
  const TimeoutMessage := "Approval timeout"

  /** `Array.from(values).filter((r) => r.status === 'pending')`. */
  function PendingOf(values: seq<ApprovalRequest>): (r: seq<ApprovalRequest>)
    ensures |r| <= |values|
    ensures forall k :: 0 <= k < |r| ==> r[k].status == Pending
  {
    if values == [] then []
    else
      var last := values[|values| - 1];
      PendingOf(values[..|values| - 1]) + (if last.status == Pending then [last] else [])
  }

  /** The filter keeps exactly the pending requests. */
  lemma {:induction false} PendingOfMembers(values: seq<ApprovalRequest>)
    ensures forall x :: x in PendingOf(values) <==> x in values && x.status == Pending
  {
    if values != [] {
      PendingOfMembers(values[..|values| - 1]);
      assert values == values[..|values| - 1] + [values[|values| - 1]];
    }
  }

  /** The filter keeps the order of the map: two pending requests appear in insertion order. */
  lemma {:induction false} PendingOfOrder(values: seq<ApprovalRequest>, i: nat, j: nat)
    requires i < j < |PendingOf(values)|
    ensures exists p, q :: (0 <= p < q < |values| &&
      values[p] == PendingOf(values)[i] && values[q] == PendingOf(values)[j])
  {
    var init := values[..|values| - 1];
    var s := PendingOf(values);
    var si := PendingOf(init);
    if j < |si| {
      PendingOfOrder(init, i, j);
      var p, q :| 0 <= p < q < |init| && init[p] == si[i] && init[q] == si[j];
      assert values[p] == s[i] && values[q] == s[j];
    } else {
      assert s[j] == values[|values| - 1];
      PendingOfMembers(init);
      assert s[i] in init by { assert s[i] == si[i]; }
      var p :| 0 <= p < |init| && init[p] == s[i];
      assert values[p] == s[i];
    }
  }

  class Store {
    var requests: JsMap<ApprovalRequest>

    /** The map is well formed and every request is filed under its own id. */
    ghost predicate Valid()
      reads this
    {
      requests.Valid() && forall id :: id in requests.entries ==> requests.entries[id].id == id
    }

    constructor ()
      ensures Valid()
      ensures requests.keys == [] && requests.entries == map[]
    {
      requests := Empty();
    }

    /** `create`: files the request under its id, replacing any request already there. */
    method Create(request: ApprovalRequest)
      requires Valid()
      modifies this
      ensures Valid()
      ensures requests == old(requests).Set(request.id, request)
      ensures requests.Get(request.id) == Some(request)
      ensures forall id :: id != request.id ==> requests.Get(id) == old(requests).Get(id)
    {
      requests := requests.Set(request.id, request);
    }

    /** `get`: the request filed under `id`, or `undefined`. */
    method Get(id: string) returns (r: Option<ApprovalRequest>)
      requires Valid()
      ensures r.Some? <==> id in requests.entries
      ensures r.Some? ==> r.value == requests.entries[id] && r.value.id == id
    {
      r := requests.Get(id);
    }

    /**
     * `update`: an unknown id changes nothing; a known request gets the new
     * status and nothing else (the feedback is not stored).
     */
    method Update(id: string, status: ApprovalStatus, feedback: Option<string>)
      requires Valid()
      requires status != Pending
      modifies this
      ensures Valid()
      ensures id !in old(requests.entries) ==> requests == old(requests)
      ensures id in old(requests.entries) ==>
        requests == old(requests).Set(id, old(requests.entries[id]).(status := status))
      ensures requests.keys == old(requests.keys)
      ensures forall k :: k != id ==> requests.Get(k) == old(requests).Get(k)
    {
      var request := requests.Get(id);
      if request.Some? {
        requests := requests.Set(id, request.value.(status := status));
      }
    }

    /** `getPending`: the pending requests, in insertion order. */
    function GetPending(): (r: seq<ApprovalRequest>)
      reads this
      requires Valid()
      ensures r == PendingOf(requests.Values())
      ensures forall x :: x in r <==> (exists id :: id in requests.entries && requests.entries[id] == x) && x.status == Pending
      ensures forall k :: 0 <= k < |r| ==> r[k].status == Pending && r[k].id in requests.entries
    {
      var values := requests.Values();
      PendingOfMembers(values);
      ValuesMembers(requests);
      PendingOf(values)
    }
  }

  /** Creating a request and reading it back. */
  lemma CreateThenGet(m: JsMap<ApprovalRequest>, request: ApprovalRequest, other: ApprovalRequest)
    requires m.Valid()
    ensures m.Set(request.id, request).Get(request.id) == Some(request)
    ensures other.id == request.id ==> m.Set(request.id, request).Set(other.id, other).Get(request.id) == Some(other)
  {
  }

  /** Updating a stored request changes the listed values at its position only. */
  lemma UpdatedValues(m: JsMap<ApprovalRequest>, id: string, status: ApprovalStatus,
                      after: JsMap<ApprovalRequest>, before: seq<ApprovalRequest>, now: seq<ApprovalRequest>)
    requires m.Valid() && id in m.entries
    requires forall k :: k in m.entries ==> m.entries[k].id == k
    requires after == m.Set(id, m.entries[id].(status := status))
    requires before == m.Values() && now == after.Values()
    ensures |now| == |before| == |m.keys|
    ensures forall k :: 0 <= k < |m.keys| ==> before[k].id == m.keys[k]
    ensures forall k :: 0 <= k < |m.keys| && m.keys[k] != id ==> now[k] == before[k]
    ensures forall k :: 0 <= k < |m.keys| && m.keys[k] == id ==> now[k].status == status
  {
    assert after.keys == m.keys;
    forall k | 0 <= k < |m.keys| ensures before[k].id == m.keys[k] {
      assert m.keys[k] in m.entries;
    }
  }

  /**
   * Two listings of the same ids, where only the entries under `id` changed
   * and those are no longer pending: the pending requests of the second are
   * those of the first but for `id`.
   */
  lemma PendingReplaced(ids: seq<string>, before: seq<ApprovalRequest>, now: seq<ApprovalRequest>,
                        id: string, x: ApprovalRequest)
    requires |now| == |before| == |ids|
    requires forall k :: 0 <= k < |ids| ==> before[k].id == ids[k]
    requires forall k :: 0 <= k < |ids| && ids[k] != id ==> now[k] == before[k]
    requires forall k :: 0 <= k < |ids| && ids[k] == id ==> now[k].status != Pending
    ensures x in now && x.status == Pending <==> x in before && x.status == Pending && x.id != id
  {
    if x in now && x.status == Pending {
      var k :| 0 <= k < |now| && now[k] == x;
      assert ids[k] != id;
      assert before[k] == x;
    }
    if x in before && x.status == Pending && x.id != id {
      var k :| 0 <= k < |before| && before[k] == x;
      assert now[k] == x;
    }
  }

  /** A decided request leaves the pending list, and every other pending request stays. */
  lemma UpdateLeavesPending(m: JsMap<ApprovalRequest>, id: string, status: ApprovalStatus, x: ApprovalRequest)
    requires m.Valid() && status != Pending && id in m.entries
    requires forall k :: k in m.entries ==> m.entries[k].id == k
    ensures var after := m.Set(id, m.entries[id].(status := status));
      x in PendingOf(after.Values()) <==> x in PendingOf(m.Values()) && x.id != id
  {
    var after := m.Set(id, m.entries[id].(status := status));
    var before, now := m.Values(), after.Values();
    UpdatedValues(m, id, status, after, before, now);
    PendingReplaced(m.keys, before, now, id, x);
    PendingOfMembers(now);
    PendingOfMembers(before);
  }

  // ---------------------------------------------------------------------
  // waitForApproval

  /**
   * Time moves forward, and by at least the poll interval between the check
   * that guards a poll and the next one, since each undecided poll sleeps.
   */
  ghost predicate ClockAdvances(clock: nat -> int) {
    (forall k: nat :: clock(k) <= clock(k + 1)) &&
    (forall k: nat :: 0 < k ==> clock(k) + PollIntervalMs <= clock(k + 1))
  }

  /** A poll that sees a decided request. */
  predicate Decided(o: Option<ApprovalRequest>) {
    o.Some? && o.value.status != Pending
  }

  /** The time since the start at the check that guards poll `k`. */
  function Elapsed(clock: nat -> int, k: nat): int {
    clock(k + 1) - clock(0)
  }

  /** The outcome of the wait from poll `k` on. */
  function WaitFrom(clock: nat -> int, observed: nat -> Option<ApprovalRequest>, timeoutMs: int, k: nat)
    : Result<ApprovalStatus, string>
    requires ClockAdvances(clock)
    decreases clock(0) + timeoutMs - clock(k + 1)
  {
    if Elapsed(clock, k) >= timeoutMs then Failure(TimeoutMessage)
    else if Decided(observed(k)) then Success(observed(k).value.status)
    else
      assert clock(k + 1) < clock(k + 2);
      WaitFrom(clock, observed, timeoutMs, k + 1)
  }

  /** The check guarding poll `q` comes at least `q` poll intervals after the start. */
  lemma {:induction false} ElapsedGrows(clock: nat -> int, q: nat)
    requires ClockAdvances(clock)
    ensures Elapsed(clock, q) >= PollIntervalMs * q
  {
    if q > 0 {
      ElapsedGrows(clock, q - 1);
      assert clock(q) + PollIntervalMs <= clock(q + 1);
    }
  }

  /** The timeout in force: the argument, or five minutes when it is left out. */
  function TimeoutOf(timeout: Option<int>): int {
    if timeout.Some? then timeout.value else DefaultTimeoutMs
  }

  /** How many times the wait from poll `k` on has called `get` when it ends. */
  function WaitPolls(clock: nat -> int, observed: nat -> Option<ApprovalRequest>, timeoutMs: int, k: nat): nat
    requires ClockAdvances(clock)
    decreases clock(0) + timeoutMs - clock(k + 1)
  {
    if Elapsed(clock, k) >= timeoutMs then k
    else if Decided(observed(k)) then k + 1
    else
      assert clock(k + 1) < clock(k + 2);
      WaitPolls(clock, observed, timeoutMs, k + 1)
  }

  /**
   * `waitForApproval`: polls until a decision is seen or the time is up;
   * `polls` counts the calls to `get`, at most 300 with the default timeout.
   */
  method WaitForApproval(timeout: Option<int>, clock: nat -> int, observed: nat -> Option<ApprovalRequest>)
    returns (r: Result<ApprovalStatus, string>, ghost polls: nat)
    requires ClockAdvances(clock)
    ensures r == WaitFrom(clock, observed, TimeoutOf(timeout), 0)
    ensures polls == WaitPolls(clock, observed, TimeoutOf(timeout), 0)
    ensures timeout.None? ==> polls <= DefaultTimeoutMs / PollIntervalMs
  {
    var timeoutMs := if timeout.Some? then timeout.value else DefaultTimeoutMs;
    var startTime := clock(0);
    var k: nat := 0;
    while clock(k + 1) - startTime < timeoutMs
      invariant WaitFrom(clock, observed, timeoutMs, 0) == WaitFrom(clock, observed, timeoutMs, k)
      invariant WaitPolls(clock, observed, timeoutMs, 0) == WaitPolls(clock, observed, timeoutMs, k)
      invariant timeout.None? ==> k <= DefaultTimeoutMs / PollIntervalMs
      decreases startTime + timeoutMs - clock(k + 1)
    {
      ElapsedGrows(clock, k);
      var request := observed(k);
      if request.Some? && request.value.status != Pending {
        return Success(request.value.status), k + 1;
      }
      // The one-second sleep.
      assert clock(k + 1) + PollIntervalMs <= clock(k + 2);
      k := k + 1;
    }
    return Failure(TimeoutMessage), k;
  }

  /**
   * What the poll count means: every poll before the last came in time and
   * saw nothing decided; a decision was seen by the last poll, in time; a
   * timeout comes at the check after the last poll.
   */
  lemma {:induction false} WaitPollsMeaning(clock: nat -> int, observed: nat -> Option<ApprovalRequest>, timeoutMs: int, k: nat)
    requires ClockAdvances(clock)
    ensures var polls := WaitPolls(clock, observed, timeoutMs, k);
      var r := WaitFrom(clock, observed, timeoutMs, k);
      && k <= polls
      && (forall q :: k <= q < polls ==> Elapsed(clock, q) < timeoutMs)
      && (forall q :: k <= q && q + 1 < polls ==> !Decided(observed(q)))
      && (r.Success? ==> k < polls && Decided(observed(polls - 1)) && r.value == observed(polls - 1).value.status)
      && (r.Failure? ==> Elapsed(clock, polls) >= timeoutMs && (polls == k || !Decided(observed(polls - 1))))
    decreases clock(0) + timeoutMs - clock(k + 1)
  {
    if Elapsed(clock, k) < timeoutMs && !Decided(observed(k)) {
      assert clock(k + 1) < clock(k + 2);
      WaitPollsMeaning(clock, observed, timeoutMs, k + 1);
    }
  }

  /** Every poll comes in time, so with the default five minutes there are at most 300. */
  lemma DefaultWaitPolls(clock: nat -> int, observed: nat -> Option<ApprovalRequest>)
    requires ClockAdvances(clock)
    ensures WaitPolls(clock, observed, DefaultTimeoutMs, 0) <= DefaultTimeoutMs / PollIntervalMs
  {
    var polls := WaitPolls(clock, observed, DefaultTimeoutMs, 0);
    WaitPollsMeaning(clock, observed, DefaultTimeoutMs, 0);
    if polls > 0 {
      ElapsedGrows(clock, polls - 1);
    }
  }

  /**
   * A decision is the status the first deciding poll saw, within the time;
   * every earlier poll was in time and saw nothing decided.
   */
  lemma {:induction false} WaitDecision(clock: nat -> int, observed: nat -> Option<ApprovalRequest>, timeoutMs: int, k: nat)
    requires ClockAdvances(clock)
    requires WaitFrom(clock, observed, timeoutMs, k).Success?
    ensures exists p: nat :: (k <= p && Decided(observed(p)) &&
      observed(p).value.status == WaitFrom(clock, observed, timeoutMs, k).value &&
      Elapsed(clock, p) < timeoutMs &&
      forall q: nat :: k <= q < p ==> !Decided(observed(q)))
    ensures WaitFrom(clock, observed, timeoutMs, k).value != Pending
    decreases clock(0) + timeoutMs - clock(k + 1)
  {
    if !Decided(observed(k)) {
      assert clock(k + 1) < clock(k + 2);
      WaitDecision(clock, observed, timeoutMs, k + 1);
      var p: nat :| k + 1 <= p && Decided(observed(p)) &&
        observed(p).value.status == WaitFrom(clock, observed, timeoutMs, k + 1).value &&
        Elapsed(clock, p) < timeoutMs &&
        forall q: nat :: k + 1 <= q < p ==> !Decided(observed(q));
      assert forall q: nat :: k <= q < p ==> !Decided(observed(q));
    }
  }

  /** A timeout means some poll came too late and none before it saw a decision. */
  lemma {:induction false} WaitTimeout(clock: nat -> int, observed: nat -> Option<ApprovalRequest>, timeoutMs: int, k: nat)
    requires ClockAdvances(clock)
    requires WaitFrom(clock, observed, timeoutMs, k).Failure?
    ensures WaitFrom(clock, observed, timeoutMs, k).error == TimeoutMessage
    ensures exists p: nat :: (k <= p && Elapsed(clock, p) >= timeoutMs &&
      forall q: nat :: k <= q < p ==> !Decided(observed(q)) && Elapsed(clock, q) < timeoutMs)
    decreases clock(0) + timeoutMs - clock(k + 1)
  {
    if Elapsed(clock, k) < timeoutMs {
      assert clock(k + 1) < clock(k + 2);
      WaitTimeout(clock, observed, timeoutMs, k + 1);
      var p: nat :| k + 1 <= p && Elapsed(clock, p) >= timeoutMs &&
        forall q: nat :: k + 1 <= q < p ==> !Decided(observed(q)) && Elapsed(clock, q) < timeoutMs;
      assert forall q: nat :: k <= q < p ==> !Decided(observed(q)) && Elapsed(clock, q) < timeoutMs;
    }
  }

  /** A request decided before the wait starts is reported at the first poll, when it comes in time. */
  lemma AlreadyDecided(clock: nat -> int, observed: nat -> Option<ApprovalRequest>, timeoutMs: int)
    requires ClockAdvances(clock)
    requires Decided(observed(0)) && Elapsed(clock, 0) < timeoutMs
    ensures WaitFrom(clock, observed, timeoutMs, 0) == Success(observed(0).value.status)
  {
  }
}
