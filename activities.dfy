/**
 * Activities: what the provider's activities endpoint returns, the record the tracker
 * stores per activity, the lookback window of a sync, and the effect of the sync's
 * upsert loop on the activity collection.
 */
module Activities {
  import opened Wrappers
  import Collections

  const SecondsPerDay: int := 24 * 3600
  /** The lookback of `/fetch-activities` when the request gives no `days`. */
  const DefaultLookbackDays: int := 10

  /**
   * One element of the provider's activity list. The numeric fields are carried over
   * unchanged and never computed with (`distance` is a float in the provider's JSON).
   */
  datatype ProviderActivity = ProviderActivity(
    id: int,
    name: string,
    distance: real,
    movingTime: int,
    elapsedTime: int,
    startDate: string,
    sportType: string)

  /** A document of the activity collection, keyed by `activityId`. */
  datatype Activity = Activity(
    userId: string,
    activityId: int,
    name: string,
    distance: real,
    movingTime: int,
    elapsedTime: int,
    startDate: string,
    sportType: string)

  /** The document written for `act` on behalf of the requesting `userId`. */
  function Record(userId: string, act: ProviderActivity): Activity
  {
    Activity(userId, act.id, act.name, act.distance, act.movingTime, act.elapsedTime, act.startDate, act.sportType)
  }

  /** `days` from the request body, defaulting when it is omitted. */
  function LookbackDays(days: Option<int>): int
  {
    if days.Some? then days.value else DefaultLookbackDays
  }

  /** The `after` bound sent to the provider: `days` whole days before now. */
  function LookbackStart(nowSec: int, days: Option<int>): int
  {
    nowSec - LookbackDays(days) * SecondsPerDay
  }

  /** The window is 86400 seconds per day, ten days when omitted, and ends now. */
  lemma LookbackWindow(nowSec: int, days: Option<int>)
    ensures days.None? ==> LookbackStart(nowSec, days) == nowSec - 864000
    ensures days.Some? ==> nowSec - LookbackStart(nowSec, days) == days.value * 86400
    ensures days.Some? && days.value >= 0 ==> LookbackStart(nowSec, days) <= nowSec
  {
  }

  // ---------------------------------------------------------------------------
  // The sync's upsert loop

  /** The last activity of `batch` with the given id, if any. */
  function Latest(batch: seq<ProviderActivity>, id: int): Option<ProviderActivity>
  {
    if batch == [] then None
    else if batch[|batch| - 1].id == id then Some(batch[|batch| - 1])
    else Latest(batch[..|batch| - 1], id)
  }

  /**
   * The activity collection after upserting every element of `batch` in order, each
   * under its own id, on behalf of `userId`.
   */
  function UpsertAll(store: map<int, Activity>, userId: string, batch: seq<ProviderActivity>): map<int, Activity>
  {
    if batch == [] then store
    else
      var last := batch[|batch| - 1];
      Collections.Upsert(UpsertAll(store, userId, batch[..|batch| - 1]), last.id, Record(userId, last))
  }

  /** `Latest` finds an element exactly when there is one with that id, and none after it has that id. */
  lemma {:induction false} LatestIsLastOccurrence(batch: seq<ProviderActivity>, id: int)
    ensures Latest(batch, id).Some? <==> exists i :: 0 <= i < |batch| && batch[i].id == id
    ensures Latest(batch, id).Some? ==>
      exists i :: 0 <= i < |batch| && batch[i] == Latest(batch, id).value && batch[i].id == id &&
        forall j :: i < j < |batch| ==> batch[j].id != id
  {
    if batch != [] {
      var n := |batch| - 1;
      var prefix := batch[..n];
      LatestIsLastOccurrence(prefix, id);
      if batch[n].id != id {
        if Latest(prefix, id).Some? {
          var i :| 0 <= i < |prefix| && prefix[i] == Latest(prefix, id).value && prefix[i].id == id &&
            forall j :: i < j < |prefix| ==> prefix[j].id != id;
          assert batch[i] == prefix[i];
          assert forall j :: i < j < |batch| ==> batch[j].id != id by {
            forall j | i < j < |batch| ensures batch[j].id != id {
              if j < n { assert batch[j] == prefix[j]; }
            }
          }
        } else {
          forall i | 0 <= i < |batch| ensures batch[i].id != id {
            if i < n { assert batch[i] == prefix[i]; }
          }
        }
      }
    }
  }

  /**
   * After the loop, an id is stored exactly when it was stored before or occurs in the
   * batch; an id of the batch holds the record of its latest payload for `userId`, and
   * any other id keeps its old document.
   */
  lemma {:induction false} UpsertAllAt(store: map<int, Activity>, userId: string, batch: seq<ProviderActivity>, id: int)
    ensures id in UpsertAll(store, userId, batch) <==> id in store || Latest(batch, id).Some?
    ensures Latest(batch, id).Some? ==> UpsertAll(store, userId, batch)[id] == Record(userId, Latest(batch, id).value)
    ensures id in store && Latest(batch, id).None? ==> UpsertAll(store, userId, batch)[id] == store[id]
  {
    if batch != [] {
      UpsertAllAt(store, userId, batch[..|batch| - 1], id);
    }
  }

  /** The batch's ids are added to the collection's keys, and no other key appears. */
  lemma UpsertAllKeys(store: map<int, Activity>, userId: string, batch: seq<ProviderActivity>)
    ensures UpsertAll(store, userId, batch).Keys == store.Keys + set i | 0 <= i < |batch| :: batch[i].id
  {
    var after := UpsertAll(store, userId, batch);
    var ids := set i | 0 <= i < |batch| :: batch[i].id;
    forall id ensures id in after <==> id in store.Keys + ids {
      UpsertAllAt(store, userId, batch, id);
      LatestIsLastOccurrence(batch, id);
    }
  }

  /** Re-running the loop over the same batch leaves the collection as it is. */
  lemma UpsertAllIdempotent(store: map<int, Activity>, userId: string, batch: seq<ProviderActivity>)
    ensures UpsertAll(UpsertAll(store, userId, batch), userId, batch) == UpsertAll(store, userId, batch)
  {
    var once := UpsertAll(store, userId, batch);
    var twice := UpsertAll(once, userId, batch);
    forall id ensures (id in twice <==> id in once) && (id in once ==> twice[id] == once[id]) {
      UpsertAllAt(store, userId, batch, id);
      UpsertAllAt(once, userId, batch, id);
    }
    assert twice.Keys == once.Keys;
  }

  /**
   * Upserting one batch after another is upserting their concatenation: for every id the
   * later payload wins, which is what two overlapping syncs converge to.
   */
  lemma {:induction false} UpsertAllConcat(store: map<int, Activity>, userId: string, first: seq<ProviderActivity>, second: seq<ProviderActivity>)
    ensures UpsertAll(store, userId, first + second) == UpsertAll(UpsertAll(store, userId, first), userId, second)
    decreases |second|
  {
    if second == [] {
      assert first + second == first;
    } else {
      var n := |second| - 1;
      assert (first + second)[..|first + second| - 1] == first + second[..n];
      assert (first + second)[|first + second| - 1] == second[n];
      UpsertAllConcat(store, userId, first, second[..n]);
    }
  }

  /** In a batch without repeated ids, the latest payload of each id is its only one. */
  lemma LatestOfDistinct(batch: seq<ProviderActivity>, k: int)
    requires forall i, j :: 0 <= i < j < |batch| ==> batch[i].id != batch[j].id
    requires 0 <= k < |batch|
    ensures Latest(batch, batch[k].id) == Some(batch[k])
  {
    LatestIsLastOccurrence(batch, batch[k].id);
    var i :| 0 <= i < |batch| && batch[i] == Latest(batch, batch[k].id).value && batch[i].id == batch[k].id &&
      forall j :: i < j < |batch| ==> batch[j].id != batch[k].id;
    assert i == k;
  }

  /**
   * A re-sync with three known and one new activity: the collection ends with exactly
   * the four ids, the known ones refreshed to the new payloads.
   */
  lemma ResyncAddsOnlyTheNewActivity(userId: string, a: seq<ProviderActivity>, b: seq<ProviderActivity>)
    requires |a| == 3 && a[0].id == 10 && a[1].id == 11 && a[2].id == 12
    requires |b| == 4 && b[0].id == 10 && b[1].id == 11 && b[2].id == 12 && b[3].id == 13
    ensures UpsertAll(map[], userId, a).Keys == {10, 11, 12}
    ensures UpsertAll(UpsertAll(map[], userId, a), userId, b).Keys == {10, 11, 12, 13}
    ensures forall k :: 0 <= k < 4 ==> UpsertAll(UpsertAll(map[], userId, a), userId, b)[b[k].id] == Record(userId, b[k])
  {
    var first := UpsertAll(map[], userId, a);
    var final := UpsertAll(first, userId, b);
    var idsA := set i | 0 <= i < |a| :: a[i].id;
    var idsB := set i | 0 <= i < |b| :: b[i].id;
    UpsertAllKeys(map[], userId, a);
    assert idsA == {10, 11, 12} by {
      assert a[0].id in idsA && a[1].id in idsA && a[2].id in idsA;
    }
    UpsertAllKeys(first, userId, b);
    assert idsB == {10, 11, 12, 13} by {
      assert b[0].id in idsB && b[1].id in idsB && b[2].id in idsB && b[3].id in idsB;
    }
    assert forall i :: 0 <= i < |b| ==> b[i].id == 10 + i;
    forall k | 0 <= k < 4 ensures final[b[k].id] == Record(userId, b[k]) {
      UpsertAllAt(first, userId, b, b[k].id);
      LatestOfDistinct(b, k);
    }
  }
}
