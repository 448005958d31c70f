/**
 * The in-memory registry of phone-enrichment jobs (lib/phone-enrichment-store.ts).
 * Jobs live in an insertion-ordered map keyed by job id; the request path
 * creates them, the provider's callback completes them, and a periodic
 * sweep deletes those older than one hour. The current time is a parameter
 * of every operation that reads the clock, and the interval timer is
 * represented by the handle `setInterval` returned.
 */
module PhoneEnrichmentStore {
  import opened Wrappers
  import opened JsMap
  import Types

  datatype JobStatus = Pending | Completed | Failed {
    function Name(): string {
      match this
      case Pending => "pending"
      case Completed => "completed"
      case Failed => "failed"
    }
  }

  datatype Job = Job(
    jobId: string,
    companyUrl: string,
    companyName: string,
    contactIds: seq<string>,
    status: JobStatus,
    enrichedContacts: seq<Types.Contact>,
    createdAt: int,
    completedAt: Option<int>,
    error: Option<string>)

  /** Jobs older than this many milliseconds are swept. */
  const RetentionMs: int := 60 * 60 * 1000

  /** The sweep runs every ten minutes. */
  const CleanupIntervalMs: int := 10 * 60 * 1000

  /** The record `createJob` stores. */
  function NewJob(jobId: string, companyUrl: string, companyName: string, contactIds: seq<string>, now: int): Job {
    Job(jobId, companyUrl, companyName, contactIds, Pending, [], now, None, None)
  }

  /** The in-place edit `updateJob` makes, whatever the job's status was. */
  function CompletedJob(job: Job, contacts: seq<Types.Contact>, now: int): Job {
    job.(status := Completed, enrichedContacts := contacts, completedAt := Some(now))
  }

  /** The in-place edit `failJob` makes, whatever the job's status was. */
  function FailedJob(job: Job, error: string, now: int): Job {
    job.(status := Failed, error := Some(error), completedAt := Some(now))
  }

  /** `a.some((id) => b.includes(id))`. */
  function SharesId(a: seq<string>, b: seq<string>): (r: bool)
    ensures r <==> exists i :: 0 <= i < |a| && a[i] in b
  {
    if a == [] then false
    else if a[0] in b then true
    else
      var r := SharesId(a[1..], b);
      assert r <==> exists i :: 1 <= i < |a| && a[i] in b by {
        if r {
          var i :| 0 <= i < |a[1..]| && a[1..][i] in b;
          assert a[i + 1] == a[1..][i];
        }
      }
      r
  }

  /** A job that the sweep with this cutoff keeps. */
  predicate Kept(entries: map<string, Job>, id: string, cutoff: int) {
    id in entries && entries[id].createdAt >= cutoff
  }

  /** The ids among `ids` that the sweep keeps, in their original order. */
  function Survivors(ids: seq<string>, entries: map<string, Job>, cutoff: int): (r: seq<string>)
    ensures |r| <= |ids|
  {
    if ids == [] then []
    else
      var last := ids[|ids| - 1];
      Survivors(ids[..|ids| - 1], entries, cutoff) + (if Kept(entries, last, cutoff) then [last] else [])
  }

  /** The sweep keeps exactly the ids whose jobs are recent enough. */
  lemma {:induction false} SurvivorsMembers(ids: seq<string>, entries: map<string, Job>, cutoff: int)
    ensures forall id :: id in Survivors(ids, entries, cutoff) <==> id in ids && Kept(entries, id, cutoff)
  {
    if ids != [] {
      SurvivorsMembers(ids[..|ids| - 1], entries, cutoff);
      assert ids == ids[..|ids| - 1] + [ids[|ids| - 1]];
    }
  }

  /** The ids among `ids` that the sweep deletes, in their original order. */
  function Expired(ids: seq<string>, entries: map<string, Job>, cutoff: int): (r: seq<string>)
  {
    if ids == [] then []
    else
      var last := ids[|ids| - 1];
      Expired(ids[..|ids| - 1], entries, cutoff) + (if Kept(entries, last, cutoff) then [] else [last])
  }

  /** Every id is either kept or deleted: the deleted count is the size difference. */
  lemma {:induction false} SurvivorsExpiredPartition(ids: seq<string>, entries: map<string, Job>, cutoff: int)
    ensures |Survivors(ids, entries, cutoff)| + |Expired(ids, entries, cutoff)| == |ids|
    ensures forall id :: id in Expired(ids, entries, cutoff) <==> id in ids && !Kept(entries, id, cutoff)
  {
    if ids != [] {
      SurvivorsExpiredPartition(ids[..|ids| - 1], entries, cutoff);
      assert ids == ids[..|ids| - 1] + [ids[|ids| - 1]];
    }
  }

  /** A sweep keeps the order of the jobs it keeps: survivors form a subsequence. */
  lemma {:induction false} SurvivorsSubsequence(ids: seq<string>, entries: map<string, Job>, cutoff: int, i: nat, j: nat)
    requires i < j < |Survivors(ids, entries, cutoff)|
    ensures exists p, q :: (0 <= p < q < |ids| &&
      ids[p] == Survivors(ids, entries, cutoff)[i] && ids[q] == Survivors(ids, entries, cutoff)[j])
  {
    var init := ids[..|ids| - 1];
    var s := Survivors(ids, entries, cutoff);
    var si := Survivors(init, entries, cutoff);
    if j < |si| {
      SurvivorsSubsequence(init, entries, cutoff, i, j);
      var p, q :| 0 <= p < q < |init| && init[p] == si[i] && init[q] == si[j];
      assert ids[p] == s[i] && ids[q] == s[j];
    } else {
      assert s[j] == ids[|ids| - 1];
      SurvivorsMembers(init, entries, cutoff);
      assert s[i] in init by { assert s[i] == si[i]; }
      var p :| 0 <= p < |init| && init[p] == s[i];
      assert ids[p] == s[i];
    }
  }

  /** The survivors of one more key: the key is appended when it is kept. */
  lemma SurvivorsSnoc(ids: seq<string>, k: nat, entries: map<string, Job>, cutoff: int)
    requires k < |ids|
    ensures Survivors(ids[..k + 1], entries, cutoff) ==
      Survivors(ids[..k], entries, cutoff) + (if Kept(entries, ids[k], cutoff) then [ids[k]] else [])
  {
    assert ids[..k + 1][..k] == ids[..k];
  }

  /** In a duplicate-free key order, key `k` is neither among the earlier survivors nor later. */
  lemma SweepKeyFresh(ids: seq<string>, k: nat, entries: map<string, Job>, cutoff: int)
    requires k < |ids| && Distinct(ids)
    ensures ids[k] !in Survivors(ids[..k], entries, cutoff) && ids[k] !in ids[k + 1..]
  {
    SurvivorsMembers(ids[..k], entries, cutoff);
    assert ids[k] !in ids[..k];
  }

  /** What the finished sweep loop establishes about the map it leaves and its count. */
  lemma SweepOutcome(before: JsMap<Job>, after: JsMap<Job>, cutoff: int, cleaned: nat)
    requires SweepInv(before, after, |before.keys|, cutoff)
    requires cleaned + |Survivors(before.keys[..|before.keys|], before.entries, cutoff)| == |before.keys|
    ensures after.Valid()
    ensures after.keys == Survivors(before.keys, before.entries, cutoff)
    ensures forall id :: id in after.entries <==> id in before.entries && Kept(before.entries, id, cutoff)
    ensures forall id :: id in after.entries ==> after.entries[id] == before.entries[id]
    ensures cleaned == |Expired(before.keys, before.entries, cutoff)|
  {
    assert before.keys[..|before.keys|] == before.keys;
    SurvivorsExpiredPartition(before.keys, before.entries, cutoff);
    SurvivorsMembers(before.keys, before.entries, cutoff);
  }

  /** The sweep loop's invariant after visiting the first `k` keys of `before`. */
  ghost predicate SweepInv(before: JsMap<Job>, m: JsMap<Job>, k: nat, cutoff: int) {
    && before.Valid() && m.Valid() && k <= |before.keys|
    && m.keys == Survivors(before.keys[..k], before.entries, cutoff) + before.keys[k..]
    && (forall id :: id in m.entries ==> id in before.entries && m.entries[id] == before.entries[id])
  }

  /** Deleting key `k` from the order the sweep has reached drops it and nothing else. */
  lemma DeleteReachedKey(ids: seq<string>, k: nat, entries: map<string, Job>, cutoff: int,
                         kept: seq<string>, keys: seq<string>)
    requires k < |ids| && Distinct(ids)
    requires kept == Survivors(ids[..k], entries, cutoff) && keys == kept + ids[k..]
    ensures Without(keys, ids[k]) == kept + ids[k + 1..]
  {
    assert ids[k..] == [ids[k]] + ids[k + 1..];
    assert keys == kept + [ids[k]] + ids[k + 1..];
    SweepKeyFresh(ids, k, entries, cutoff);
    WithoutSplit(kept, ids[k], ids[k + 1..]);
  }

  /** An expired key adds no survivor. */
  lemma ExpiredNoSurvivor(ids: seq<string>, k: nat, entries: map<string, Job>, cutoff: int)
    requires k < |ids| && !Kept(entries, ids[k], cutoff)
    ensures Survivors(ids[..k + 1], entries, cutoff) == Survivors(ids[..k], entries, cutoff)
  {
    SurvivorsSnoc(ids, k, entries, cutoff);
  }

  /** An expired key is deleted: the invariant moves on with no new survivor. */
  lemma SweepDeleteKeeps(before: JsMap<Job>, m: JsMap<Job>, k: nat, cutoff: int)
    requires SweepInv(before, m, k, cutoff) && k < |before.keys|
    requires before.keys[k] in m.entries && m.entries[before.keys[k]].createdAt < cutoff
    ensures SweepInv(before, m.Delete(before.keys[k]), k + 1, cutoff)
    ensures Survivors(before.keys[..k + 1], before.entries, cutoff) == Survivors(before.keys[..k], before.entries, cutoff)
  {
    var ids := before.keys;
    var id := ids[k];
    assert m.entries[id] == before.entries[id];
    ExpiredNoSurvivor(ids, k, before.entries, cutoff);
    DeleteReachedKey(ids, k, before.entries, cutoff, Survivors(ids[..k], before.entries, cutoff), m.keys);
  }

  /** A kept key is appended to the survivors. */
  lemma KeptSurvivor(ids: seq<string>, k: nat, entries: map<string, Job>, cutoff: int)
    requires k < |ids| && Kept(entries, ids[k], cutoff)
    ensures Survivors(ids[..k + 1], entries, cutoff) == Survivors(ids[..k], entries, cutoff) + [ids[k]]
  {
    SurvivorsSnoc(ids, k, entries, cutoff);
  }

  /** A recent or missing key is passed over: the invariant moves on. */
  lemma SweepSkipKeeps(before: JsMap<Job>, m: JsMap<Job>, k: nat, cutoff: int)
    requires SweepInv(before, m, k, cutoff) && k < |before.keys|
    requires !(before.keys[k] in m.entries && m.entries[before.keys[k]].createdAt < cutoff)
    ensures SweepInv(before, m, k + 1, cutoff)
    ensures Survivors(before.keys[..k + 1], before.entries, cutoff) ==
      Survivors(before.keys[..k], before.entries, cutoff) + [before.keys[k]]
  {
    var ids := before.keys;
    var id := ids[k];
    SkipReachedKey(ids, k, Survivors(ids[..k], before.entries, cutoff), m.keys);
    assert m.entries[id] == before.entries[id];
    KeptSurvivor(ids, k, before.entries, cutoff);
  }

  /** The order the sweep has reached holds key `k`, followed by the rest of the snapshot. */
  lemma SkipReachedKey(ids: seq<string>, k: nat, kept: seq<string>, keys: seq<string>)
    requires k < |ids| && keys == kept + ids[k..]
    ensures ids[k] in keys && keys == (kept + [ids[k]]) + ids[k + 1..]
  {
    assert ids[k..] == [ids[k]] + ids[k + 1..];
    assert keys[|kept|] == ids[k];
  }

  /** One turn of the sweep loop: key `k` of the snapshot is deleted when expired, and counted. */
  method SweepStep(before: JsMap<Job>, m: JsMap<Job>, k: nat, cutoff: int, cleaned: nat)
    returns (m': JsMap<Job>, cleaned': nat)
    requires SweepInv(before, m, k, cutoff) && k < |before.keys|
    requires cleaned + |Survivors(before.keys[..k], before.entries, cutoff)| == k
    ensures SweepInv(before, m', k + 1, cutoff)
    ensures cleaned' + |Survivors(before.keys[..k + 1], before.entries, cutoff)| == k + 1
  {
    var id := before.keys[k];
    if id in m.entries && m.entries[id].createdAt < cutoff {
      SweepDeleteKeeps(before, m, k, cutoff);
      m' := m.Delete(id);
      cleaned' := cleaned + 1;
    } else {
      SweepSkipKeeps(before, m, k, cutoff);
      m' := m;
      cleaned' := cleaned;
    }
  }

  /**
   * The loop of `cleanupOldJobs` over a snapshot of the keys: deletes every
   * job created before `cutoff` and counts the deletions.
   */
  method Sweep(before: JsMap<Job>, cutoff: int) returns (after: JsMap<Job>, cleaned: nat)
    requires before.Valid()
    ensures after.Valid()
    ensures after.keys == Survivors(before.keys, before.entries, cutoff)
    ensures forall id :: id in after.entries <==> id in before.entries && Kept(before.entries, id, cutoff)
    ensures forall id :: id in after.entries ==> after.entries[id] == before.entries[id]
    ensures cleaned == |Expired(before.keys, before.entries, cutoff)|
  {
    var ids := before.keys;
    after := before;
    cleaned := 0;
    assert ids[..0] == [] && ids[0..] == ids;
    for k := 0 to |ids|
      invariant SweepInv(before, after, k, cutoff)
      invariant cleaned + |Survivors(ids[..k], before.entries, cutoff)| == k
    {
      after, cleaned := SweepStep(before, after, k, cutoff, cleaned);
    }
    SweepOutcome(before, after, cutoff, cleaned);
  }

  class Store {
    var jobs: JsMap<Job>
    var cleanupInterval: Option<nat>

    /** The map is well formed and every job is filed under its own id. */
    ghost predicate Valid()
      reads this
    {
      jobs.Valid() && forall id :: id in jobs.entries ==> jobs.entries[id].jobId == id
    }

    /** A new store starts empty with its ten-minute sweep timer running. */
    constructor (timer: nat)
      ensures Valid()
      ensures jobs.keys == [] && jobs.entries == map[]
      ensures cleanupInterval == Some(timer)
    {
      jobs := Empty();
      cleanupInterval := Some(timer);
    }

    /** `createJob`: a pending job, replacing any job already filed under `jobId`. */
    method CreateJob(jobId: string, companyUrl: string, companyName: string, contactIds: seq<string>, now: int)
      requires Valid()
      modifies this
      ensures Valid()
      ensures jobs == old(jobs).Set(jobId, NewJob(jobId, companyUrl, companyName, contactIds, now))
      ensures jobs.Get(jobId) == Some(Job(jobId, companyUrl, companyName, contactIds, Pending, [], now, None, None))
      ensures forall id :: id != jobId ==> jobs.Get(id) == old(jobs).Get(id)
      ensures cleanupInterval == old(cleanupInterval)
    {
      var job := NewJob(jobId, companyUrl, companyName, contactIds, now);
      jobs := jobs.Set(jobId, job);
    }

    /** `updateJob`: an unknown id changes nothing; a known one is completed whatever its status. */
    method UpdateJob(jobId: string, contacts: seq<Types.Contact>, now: int)
      requires Valid()
      modifies this
      ensures Valid()
      ensures jobId !in old(jobs.entries) ==> jobs == old(jobs)
      ensures jobId in old(jobs.entries) ==>
        jobs == old(jobs).Set(jobId, CompletedJob(old(jobs.entries[jobId]), contacts, now))
      ensures forall id :: id != jobId ==> jobs.Get(id) == old(jobs).Get(id)
      ensures jobs.keys == old(jobs.keys)
      ensures cleanupInterval == old(cleanupInterval)
    {
      var job := jobs.Get(jobId);
      if job.None? {
        return;
      }
      jobs := jobs.Set(jobId, CompletedJob(job.value, contacts, now));
    }

    /** `failJob`: an unknown id changes nothing; a known one is failed whatever its status. */
    method FailJob(jobId: string, error: string, now: int)
      requires Valid()
      modifies this
      ensures Valid()
      ensures jobId !in old(jobs.entries) ==> jobs == old(jobs)
      ensures jobId in old(jobs.entries) ==>
        jobs == old(jobs).Set(jobId, FailedJob(old(jobs.entries[jobId]), error, now))
      ensures forall id :: id != jobId ==> jobs.Get(id) == old(jobs).Get(id)
      ensures jobs.keys == old(jobs.keys)
      ensures cleanupInterval == old(cleanupInterval)
    {
      var job := jobs.Get(jobId);
      if job.None? {
        return;
      }
      jobs := jobs.Set(jobId, FailedJob(job.value, error, now));
    }

    /** `getJob`: the job filed under `jobId`, or `undefined`. */
    method GetJob(jobId: string) returns (r: Option<Job>)
      requires Valid()
      ensures r.Some? <==> jobId in jobs.entries
      ensures r.Some? ==> r.value == jobs.entries[jobId] && r.value.jobId == jobId
    {
      r := jobs.Get(jobId);
    }

    /** `findJobByContactIds`: the first job, in insertion order, that covers one of the ids. */
    method FindJobByContactIds(contactIds: seq<string>) returns (r: Option<Job>)
      requires Valid()
      ensures r.Some? ==> exists k :: (0 <= k < |jobs.keys| && r.value == jobs.entries[jobs.keys[k]] &&
        SharesId(r.value.contactIds, contactIds) &&
        forall m :: 0 <= m < k ==> !SharesId(jobs.entries[jobs.keys[m]].contactIds, contactIds))
      ensures r.None? ==> forall k :: 0 <= k < |jobs.keys| ==>
        !SharesId(jobs.entries[jobs.keys[k]].contactIds, contactIds)
    {
      var k := 0;
      while k < |jobs.keys|
        invariant 0 <= k <= |jobs.keys|
        invariant forall m :: 0 <= m < k ==> !SharesId(jobs.entries[jobs.keys[m]].contactIds, contactIds)
      {
        var job := jobs.entries[jobs.keys[k]];
        if SharesId(job.contactIds, contactIds) {
          return Some(job);
        }
        k := k + 1;
      }
      return None;
    }

    /**
     * `cleanupOldJobs`: deletes exactly the jobs created before `now - 1h`,
     * whatever their status; the survivors keep their records and their
     * order. Returns the number of deleted jobs (the count the source logs).
     */
    method CleanupOldJobs(now: int) returns (cleaned: nat)
      requires Valid()
      modifies this
      ensures Valid()
      ensures jobs.keys == Survivors(old(jobs.keys), old(jobs.entries), now - RetentionMs)
      ensures forall id :: id in jobs.entries <==> id in old(jobs.entries) && Kept(old(jobs.entries), id, now - RetentionMs)
      ensures forall id :: id in jobs.entries ==> jobs.entries[id] == old(jobs.entries)[id]
      ensures cleaned == |Expired(old(jobs.keys), old(jobs.entries), now - RetentionMs)|
      ensures cleanupInterval == old(cleanupInterval)
    {
      jobs, cleaned := Sweep(jobs, now - RetentionMs);
    }

    /** `stopAutoCleanup`: clears the timer once; a second call changes nothing. */
    method StopAutoCleanup() returns (cleared: Option<nat>)
      modifies this
      ensures cleanupInterval == None
      ensures cleared == old(cleanupInterval)
      ensures jobs == old(jobs)
    {
      cleared := cleanupInterval;
      if cleanupInterval.Some? {
        cleanupInterval := None;
      }
    }
  }

  /** Creating a job and reading it back: pending, no contacts, stamped `now`. */
  lemma CreateThenGet(m: JsMap<Job>, jobId: string, url: string, name: string, ids: seq<string>, now: int)
    requires m.Valid()
    ensures var job := m.Set(jobId, NewJob(jobId, url, name, ids, now)).Get(jobId);
      job.Some? && job.value.status == Pending && job.value.enrichedContacts == [] &&
      job.value.companyUrl == url && job.value.companyName == name && job.value.contactIds == ids &&
      job.value.createdAt == now && job.value.completedAt.None? && job.value.error.None?
  {
  }

  /** Completing keeps identity, company, contact ids, creation time and error. */
  lemma CompleteKeepsIdentity(job: Job, contacts: seq<Types.Contact>, now: int)
    ensures var j := CompletedJob(job, contacts, now);
      j.status == Completed && j.enrichedContacts == contacts && j.completedAt == Some(now) &&
      j.jobId == job.jobId && j.companyUrl == job.companyUrl && j.companyName == job.companyName &&
      j.contactIds == job.contactIds && j.createdAt == job.createdAt && j.error == job.error
  {
  }

  /** Failing keeps the enriched contacts (and everything but status, error and completion time). */
  lemma FailKeepsContacts(job: Job, error: string, now: int)
    ensures var j := FailedJob(job, error, now);
      j.status == Failed && j.error == Some(error) && j.completedAt == Some(now) &&
      j.enrichedContacts == job.enrichedContacts && j.jobId == job.jobId &&
      j.contactIds == job.contactIds && j.createdAt == job.createdAt
  {
  }

  /** A terminal job is rewritten by a later callback: the last write wins. */
  lemma TerminalJobIsRewritten(job: Job, first: seq<Types.Contact>, second: seq<Types.Contact>, t1: int, t2: int)
    ensures CompletedJob(CompletedJob(job, first, t1), second, t2) == CompletedJob(job, second, t2)
    ensures CompletedJob(FailedJob(job, "x", t1), second, t2).status == Completed
  {
  }
}
