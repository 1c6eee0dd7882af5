/**
 * The model table as mutable state, and the two admin bulk endpoints that loop over a
 * list of ids, fetching each record, changing it and writing it back one at a time.
 */
module ModelTable {
  import opened Json
  import opened ModelRecords
  import opened AccessPolicy
  import opened BulkMerge

  /** How many entries of `ids`, counted with repetition, name a record of `s`. */
  function CountPresent(s: Store, ids: seq<string>): (n: nat)
    ensures n <= |ids|
  {
    if ids == [] then 0
    else CountPresent(s, ids[..|ids| - 1]) + (if ids[|ids| - 1] in s then 1 else 0)
  }

  lemma {:induction false} CountPresentAppend(s: Store, a: seq<string>, b: seq<string>)
    ensures CountPresent(s, a + b) == CountPresent(s, a) + CountPresent(s, b)
  {
    if b == [] {
      assert a + b == a;
    } else {
      var b' := b[..|b| - 1];
      assert (a + b)[..|a + b| - 1] == a + b';
      CountPresentAppend(s, a, b');
    }
  }

  /** The count reaches `|ids|` exactly when every id names a record. */
  lemma {:induction false} CountPresentAll(s: Store, ids: seq<string>)
    ensures CountPresent(s, ids) == |ids| <==> forall i :: 0 <= i < |ids| ==> ids[i] in s
  {
    if ids != [] {
      var init := ids[..|ids| - 1];
      CountPresentAll(s, init);
      assert forall i :: 0 <= i < |init| ==> init[i] == ids[i];
    }
  }

  /** The count is zero exactly when no id names a record. */
  lemma {:induction false} CountPresentNone(s: Store, ids: seq<string>)
    ensures CountPresent(s, ids) == 0 <==> forall i :: 0 <= i < |ids| ==> ids[i] !in s
  {
    if ids != [] {
      var init := ids[..|ids| - 1];
      CountPresentNone(s, init);
      assert forall i :: 0 <= i < |init| ==> init[i] == ids[i];
    }
  }

  /** Whether the merge raises on the record that `id` names (an absent id is skipped, not a failure). */
  predicate MergeFails(s: Store, id: string, updates: Updates) {
    id in s && Merge(s[id], updates).Err?
  }

  /** The position of the first id whose merge raises, or `|ids|` when none does. */
  function FirstFailure(s: Store, ids: seq<string>, updates: Updates): (k: nat)
    ensures k <= |ids|
    ensures forall i :: 0 <= i < k ==> !MergeFails(s, ids[i], updates)
    ensures k < |ids| ==> MergeFails(s, ids[k], updates)
  {
    if ids == [] then 0
    else if MergeFails(s, ids[0], updates) then 0
    else 1 + FirstFailure(s, ids[1..], updates)
  }

  lemma PrefixStep(ids: seq<string>, i: nat)
    requires i < |ids|
    ensures ids[..i + 1] == ids[..i] + [ids[i]]
    ensures ids[..i + 1][..i] == ids[..i]
  {
  }

  lemma CountPresentStep(s: Store, ids: seq<string>, i: nat)
    requires i < |ids|
    ensures CountPresent(s, ids[..i + 1]) == CountPresent(s, ids[..i]) + (if ids[i] in s then 1 else 0)
  {
    PrefixStep(ids, i);
  }

  /** The table after switching the records `ids` names, one id after the other. */
  function Toggled(s: Store, ids: seq<string>, active: bool): (r: Store)
    ensures r.Keys == s.Keys
  {
    if ids == [] then s
    else
      var cur := Toggled(s, ids[..|ids| - 1], active);
      var id := ids[|ids| - 1];
      if id in cur then cur[id := cur[id].(isActive := active)] else cur
  }

  /** Every record named in `ids` is switched to `active`, every other record is as it was. */
  lemma {:induction false} ToggledRecords(s: Store, ids: seq<string>, active: bool)
    ensures forall id :: id in s ==>
      Toggled(s, ids, active)[id] == if id in ids then s[id].(isActive := active) else s[id]
  {
    if ids != [] {
      var init := ids[..|ids| - 1];
      ToggledRecords(s, init, active);
      assert ids == init + [ids[|ids| - 1]];
      forall id | id in s
        ensures Toggled(s, ids, active)[id] == if id in ids then s[id].(isActive := active) else s[id]
      {
        assert id in ids <==> id in init || id == ids[|ids| - 1];
      }
    }
  }

  lemma ToggledWellKeyed(s: Store, ids: seq<string>, active: bool)
    requires WellKeyed(s)
    ensures WellKeyed(Toggled(s, ids, active))
  {
    ToggledRecords(s, ids, active);
  }

  /** Every record named in `ids` merged once, every other record as it was. */
  function MergedStore(s: Store, ids: seq<string>, updates: Updates): (r: Store)
    ensures r.Keys == s.Keys
  {
    map id | id in s :: if id in ids then MergedOrSame(s[id], updates) else s[id]
  }

  /** The record the loop finds for `id` merges as the original record does, even when `id` came before. */
  lemma MergedStoreRecord(s: Store, done: seq<string>, id: string, updates: Updates)
    requires id in s
    requires forall j :: 0 <= j < |done| ==> !MergeFails(s, done[j], updates)
    ensures Merge(MergedStore(s, done, updates)[id], updates) == Merge(s[id], updates)
  {
    if id in done {
      var j :| 0 <= j < |done| && done[j] == id;
      assert !MergeFails(s, done[j], updates);
      MergeIdempotent(s[id], updates);
    }
  }

  /** One more id: its record is merged (if present) and nothing else changes. */
  lemma MergedStoreStep(s: Store, done: seq<string>, id: string, updates: Updates)
    requires id in s ==> Merge(s[id], updates).Ok?
    ensures MergedStore(s, done + [id], updates) ==
      var cur := MergedStore(s, done, updates);
      if id in s then cur[id := Merge(s[id], updates).value] else cur
  {
    var cur := MergedStore(s, done, updates);
    var next := MergedStore(s, done + [id], updates);
    forall k | k in s ensures next[k] == if k == id then Merge(s[id], updates).value else cur[k] {
      assert k in done + [id] <==> k in done || k == id;
    }
  }

  lemma MergedStoreWellKeyed(s: Store, done: seq<string>, updates: Updates)
    requires WellKeyed(s)
    ensures WellKeyed(MergedStore(s, done, updates))
  {
  }

  class Table {
    var models: Store

    /**
     * Storage's primary key: the table is keyed by the record's own id, so `Models.get_model_by_id(id)`
     * returns a record whose `id` is `id`. Every method keeps it.
     */
    ghost predicate Valid()
      reads this
    {
      WellKeyed(models)
    }

    constructor (initial: Store)
      requires WellKeyed(initial)
      ensures Valid() && models == initial
    {
      models := initial;
    }

    /**
     * POST /models/bulk/toggle (admin only): sets `isActive` on every named record, skips
     * absent ids, and counts the hits with repetition.
     */
    method BulkToggle(caller: Caller, ids: seq<string>, active: bool) returns (count: nat)
      requires IsAdmin(caller)
      requires Valid()
      modifies this
      ensures Valid()
      ensures models.Keys == old(models).Keys
      ensures forall id :: id in old(models) && id in ids ==> models[id] == old(models)[id].(isActive := active)
      ensures forall id :: id in old(models) && id !in ids ==> models[id] == old(models)[id]
      ensures count == CountPresent(old(models), ids)
    {
      count := 0;
      var i := 0;
      while i < |ids|
        invariant 0 <= i <= |ids|
        invariant models == Toggled(old(models), ids[..i], active)
        invariant count == CountPresent(old(models), ids[..i])
      {
        var id := ids[i];
        PrefixStep(ids, i);
        CountPresentStep(old(models), ids, i);
        if id in models {
          models := models[id := models[id].(isActive := active)];
          count := count + 1;
        }
        i := i + 1;
      }
      assert ids[..i] == ids;
      ToggledWellKeyed(old(models), ids, active);
      ToggledRecords(old(models), ids, active);
    }

    /**
     * One turn of the bulk update loop: fetch the record `ids[i]` names, merge, write it back.
     * `s` is the table before the loop.
     */
    method UpdateOne(ids: seq<string>, i: nat, updates: Updates, ghost s: Store) returns (ok: bool, hit: bool)
      requires i < |ids|
      requires Valid() && WellKeyed(s)
      requires FirstFailure(s, ids, updates) >= i
      requires models == MergedStore(s, ids[..i], updates)
      modifies this
      ensures Valid()
      ensures ok <==> FirstFailure(s, ids, updates) > i
      ensures hit <==> ids[i] in s
      ensures ok ==> models == MergedStore(s, ids[..i + 1], updates)
      ensures !ok ==> models == old(models)
    {
      var id := ids[i];
      ok, hit := true, id in models;
      if hit {
        MergedStoreRecord(s, ids[..i], id, updates);
        var res := MergeRecord(models[id], updates);
        if res.Err? {
          ok := false;
          return;
        }
        models := models[id := res.value];
      }
      PrefixStep(ids, i);
      MergedStoreStep(s, ids[..i], id, updates);
      MergedStoreWellKeyed(s, ids[..i + 1], updates);
    }

    /**
     * POST /models/bulk/update (admin only): merges `updates` into every named record in
     * order, skipping absent ids. When a merge raises, the records before it stay written,
     * that record and the rest are untouched, and the call fails.
     */
    method BulkUpdate(caller: Caller, ids: seq<string>, updates: Updates) returns (r: Result<nat, Error>)
      requires IsAdmin(caller)
      requires Valid()
      modifies this
      ensures Valid()
      ensures var k := FirstFailure(old(models), ids, updates);
        && models == MergedStore(old(models), ids[..k], updates)
        && r == if k == |ids| then Ok(CountPresent(old(models), ids)) else Err(MergeFailed)
    {
      var count := 0;
      var i := 0;
      while i < |ids|
        invariant 0 <= i <= |ids|
        invariant Valid()
        invariant FirstFailure(old(models), ids, updates) >= i
        invariant models == MergedStore(old(models), ids[..i], updates)
        invariant count == CountPresent(old(models), ids[..i])
      {
        CountPresentStep(old(models), ids, i);
        var ok, hit := UpdateOne(ids, i, updates, old(models));
        if !ok {
          return Err(MergeFailed);
        }
        if hit {
          count := count + 1;
        }
        i := i + 1;
      }
      assert ids[..i] == ids;
      r := Ok(count);
    }
  }
}
