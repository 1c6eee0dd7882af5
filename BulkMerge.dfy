/**
 * The per-record merge of a bulk update: the shallow `meta` update, then the capabilities
 * union, then the tag action, each applied to the record's `meta` in this fixed order.
 * Where the source raises (a missing key, a value that is not a list, an unhashable element
 * handed to `set`), the merge is `Err(MergeFailed)`.
 */
module BulkMerge {
  import opened Json
  import opened ModelRecords
  import opened TagLists

  /** The `updates` object of a bulk update request. */
  type Updates = map<string, Value>

  const META := "meta"
  const CAPABILITIES := "capabilities"
  const TAGS := "tags"
  const TAG_ACTION := "tag_action"
  const ADD := Str("add")
  const REMOVE := Str("remove")

  /** `a` and `b` have the same keys and values, except possibly at `key`. */
  ghost predicate SameExcept(a: Meta, b: Meta, key: string) {
    && (forall k :: k in a && k != key ==> k in b && b[k] == a[k])
    && (forall k :: k in b && k != key ==> k in a)
  }

  predicate AllHashable(xs: seq<Value>) {
    forall v :: v in xs ==> Hashable(v)
  }

  /** The list under `key`: the empty list when the key is absent, `None` when the value is not a list. */
  function ListOrEmpty(meta: Meta, key: string): Option<seq<Value>> {
    if key !in meta then Some([])
    else match meta[key]
      case List(items) => Some(items)
      case _ => None
  }

  /**
   * One element of a key/value sequence handed to `dict.update`: an element must unpack into
   * exactly two parts, the first a string key. A two-element list does, and so does a
   * two-character string (its characters). Anything else raises.
   */
  function Pair(item: Value): (r: Option<(string, Value)>)
    ensures item.List? && |item.items| == 2 && item.items[0].Str? ==> r == Some((item.items[0].s, item.items[1]))
    ensures r.Some? ==> item.List? || (item.Str? && |item.s| == 2)
  {
    match item
    case List(parts) =>
      if |parts| == 2 && parts[0].Str? then Some((parts[0].s, parts[1])) else None
    case Str(cs) =>
      if |cs| == 2 then Some(([cs[0]], Str([cs[1]]))) else None
    case _ => None
  }

  /** The keys and values a sequence of pairs writes, one pair after the other, so later pairs win. */
  function PairFields(items: seq<Value>): Option<map<string, Value>> {
    if items == [] then Some(map[])
    else match (PairFields(items[..|items| - 1]), Pair(items[|items| - 1]))
      case (Some(fields), Some((k, v))) => Some(fields[k := v])
      case _ => None
  }

  /** A sequence of pairs is accepted exactly when every element is a pair. */
  lemma {:induction false} PairFieldsDefined(items: seq<Value>)
    ensures PairFields(items).Some? <==> forall i :: 0 <= i < |items| ==> Pair(items[i]).Some?
  {
    if items != [] {
      var init := items[..|items| - 1];
      PairFieldsDefined(init);
      assert forall i :: 0 <= i < |init| ==> init[i] == items[i];
    }
  }

  /** Every key written comes from some pair. */
  lemma {:induction false} PairFieldsKeys(items: seq<Value>)
    requires PairFields(items).Some?
    ensures forall k :: k in PairFields(items).value ==>
      exists i :: 0 <= i < |items| && Pair(items[i]).Some? && Pair(items[i]).value.0 == k
  {
    if items != [] {
      var init := items[..|items| - 1];
      PairFieldsKeys(init);
      forall k | k in PairFields(items).value
        ensures exists i :: 0 <= i < |items| && Pair(items[i]).Some? && Pair(items[i]).value.0 == k
      {
        if k != Pair(items[|items| - 1]).value.0 {
          var i :| 0 <= i < |init| && Pair(init[i]).Some? && Pair(init[i]).value.0 == k;
          assert init[i] == items[i];
        }
      }
    }
  }

  /** A key takes the value of the last pair that names it. */
  lemma {:induction false} PairFieldsLastWins(items: seq<Value>, i: nat)
    requires PairFields(items).Some?
    requires i < |items| && Pair(items[i]).Some?
    requires forall j :: i < j < |items| && Pair(items[j]).Some? ==> Pair(items[j]).value.0 != Pair(items[i]).value.0
    ensures Pair(items[i]).value.0 in PairFields(items).value
    ensures PairFields(items).value[Pair(items[i]).value.0] == Pair(items[i]).value.1
  {
    var init := items[..|items| - 1];
    if i < |items| - 1 {
      assert init[i] == items[i];
      forall j | i < j < |init| && Pair(init[j]).Some? ensures Pair(init[j]).value.0 != Pair(init[i]).value.0 {
        assert init[j] == items[j];
      }
      PairFieldsLastWins(init, i);
    }
  }

  /**
   * What `dict.update(v)` writes: an object's fields; for anything iterable, the pairs it yields.
   * An empty list or string yields none; a non-empty string yields one-character strings, which are
   * not pairs; `null`, booleans and numbers are not iterable.
   */
  function UpdateFields(v: Value): (r: Option<map<string, Value>>)
    ensures v.Obj? ==> r == Some(v.fields)
    ensures v == List([]) || v == Str("") ==> r == Some(map[])
    ensures v.Null? || v.Bool? || v.Num? || (v.Str? && v.s != "") ==> r == None
    ensures v.List? ==> (r.Some? <==> forall i :: 0 <= i < |v.items| ==> Pair(v.items[i]).Some?)
  {
    match v
    case Obj(fields) => Some(fields)
    case List(items) => PairFieldsDefined(items); PairFields(items)
    case Str(cs) => if cs == "" then Some(map[]) else None
    case _ => None
  }

  /** Step 1, `model.meta.update(updates["meta"])`: a shallow merge in which the update's keys win. */
  function MergeMeta(meta: Meta, updates: Updates): (r: Result<Meta, Error>)
    ensures META !in updates ==> r == Ok(meta)
    ensures META in updates ==> (r.Ok? <==> UpdateFields(updates[META]).Some?)
    ensures r.Ok? && META in updates ==>
      var fields := UpdateFields(updates[META]).value;
      && r.value.Keys == meta.Keys + fields.Keys
      && (forall k :: k in fields ==> r.value[k] == fields[k])
      && (forall k :: k in meta && k !in fields ==> r.value[k] == meta[k])
  {
    if META !in updates then Ok(meta)
    else match UpdateFields(updates[META])
      case Some(fields) => Ok(meta + fields)
      case None => Err(MergeFailed)
  }

  /** The capabilities step runs only when the updates carry both `capabilities` and `meta`. */
  predicate CapabilitiesRequested(updates: Updates) {
    CAPABILITIES in updates && META in updates
  }

  /**
   * Step 2: append the requested capabilities to the record's list (empty when absent),
   * then keep each element once. Only membership is promised, not order.
   */
  function MergeCapabilities(meta: Meta, updates: Updates): (r: Result<Meta, Error>)
    ensures !CapabilitiesRequested(updates) ==> r == Ok(meta)
    ensures CapabilitiesRequested(updates) ==>
      (r.Ok? <==>
        && ListOrEmpty(meta, CAPABILITIES).Some?
        && updates[CAPABILITIES].List?
        && AllHashable(ListOrEmpty(meta, CAPABILITIES).value)
        && AllHashable(updates[CAPABILITIES].items))
    ensures r.Ok? ==> SameExcept(meta, r.value, CAPABILITIES)
    ensures r.Ok? && CapabilitiesRequested(updates) ==>
      && CAPABILITIES in r.value
      && r.value[CAPABILITIES].List?
      && NoDup(r.value[CAPABILITIES].items)
      && AllHashable(r.value[CAPABILITIES].items)
      && (forall v :: v in r.value[CAPABILITIES].items <==>
            v in ListOrEmpty(meta, CAPABILITIES).value || v in updates[CAPABILITIES].items)
  {
    if !CapabilitiesRequested(updates) then Ok(meta)
    else match (ListOrEmpty(meta, CAPABILITIES), updates[CAPABILITIES])
      case (Some(have), List(extra)) =>
        if AllHashable(have) && AllHashable(extra) then
          DedupMembers(have + extra);
          DedupNoDup(have + extra);
          Ok(meta[CAPABILITIES := List(Dedup(have + extra))])
        else Err(MergeFailed)
      case _ => Err(MergeFailed)
  }

  /** The tag step runs only when the updates carry both `tags` and `tag_action`. */
  predicate TagsRequested(updates: Updates) {
    TAGS in updates && TAG_ACTION in updates
  }

  /**
   * Step 3: `add` appends the requested tags that are missing (the list defaults to empty),
   * `remove` filters the requested tags out (the record must already have a `tags` key),
   * any other action leaves the tags alone.
   */
  function MergeTags(meta: Meta, updates: Updates): (r: Result<Meta, Error>)
    ensures !TagsRequested(updates) ==> r == Ok(meta)
    ensures TagsRequested(updates) && updates[TAG_ACTION] != ADD && updates[TAG_ACTION] != REMOVE ==> r == Ok(meta)
    ensures r.Ok? ==> SameExcept(meta, r.value, TAGS)
    ensures TagsRequested(updates) && updates[TAG_ACTION] == ADD ==>
      && (r.Ok? <==> ListOrEmpty(meta, TAGS).Some? && updates[TAGS].List?)
      && (r.Ok? ==>
            var before := ListOrEmpty(meta, TAGS).value;
            && TAGS in r.value && r.value[TAGS].List?
            && |before| <= |r.value[TAGS].items|
            && r.value[TAGS].items[..|before|] == before
            && (forall z :: z in r.value[TAGS].items[|before|..] <==> z in updates[TAGS].items && z !in before)
            && NoDup(r.value[TAGS].items[|before|..])
            && (NoDup(before) ==> NoDup(r.value[TAGS].items))
            && r.value[TAGS].items == TagsAdded(before, updates[TAGS].items))
    ensures TagsRequested(updates) && updates[TAG_ACTION] == REMOVE ==>
      && (r.Ok? <==> TAGS in meta && meta[TAGS].List? && updates[TAGS].List?)
      && (r.Ok? ==>
            && TAGS in r.value && r.value[TAGS].List?
            && (forall z :: z in r.value[TAGS].items <==> z in meta[TAGS].items && z !in updates[TAGS].items)
            && r.value[TAGS].items == Without(meta[TAGS].items, updates[TAGS].items))
  {
    if !TagsRequested(updates) then Ok(meta)
    else if updates[TAG_ACTION] == ADD then
      match (ListOrEmpty(meta, TAGS), updates[TAGS])
        case (Some(before), List(incoming)) =>
          TagsAddedShape(before, incoming);
          if NoDup(before) then TagsAddedNoDup(before, incoming); Ok(meta[TAGS := List(TagsAdded(before, incoming))])
          else Ok(meta[TAGS := List(TagsAdded(before, incoming))])
        case _ => Err(MergeFailed)
    else if updates[TAG_ACTION] == REMOVE then
      if TAGS !in meta then Err(MergeFailed)
      else match (meta[TAGS], updates[TAGS])
        case (List(before), List(drop)) =>
          WithoutMembers(before, drop);
          Ok(meta[TAGS := List(Without(before, drop))])
        case _ => Err(MergeFailed)
    else Ok(meta)
  }

  /** The whole per-record merge; only `meta` can change. */
  function Merge(m: Model, updates: Updates): (r: Result<Model, Error>)
    ensures r.Ok? ==> r.value == m.(meta := r.value.meta)
    ensures META !in updates && !TagsRequested(updates) ==> r == Ok(m)
  {
    match MergeMeta(m.meta, updates)
    case Err(e) => Err(e)
    case Ok(m1) =>
      match MergeCapabilities(m1, updates)
      case Err(e) => Err(e)
      case Ok(m2) =>
        match MergeTags(m2, updates)
        case Err(e) => Err(e)
        case Ok(m3) => Ok(m.(meta := m3))
  }

  /** The record after the merge, or the record itself when the merge fails. */
  function MergedOrSame(m: Model, updates: Updates): Model {
    match Merge(m, updates)
    case Ok(m') => m'
    case Err(_) => m
  }

  lemma TagsIdempotent(meta: Meta, updates: Updates)
    requires MergeTags(meta, updates).Ok?
    ensures MergeTags(MergeTags(meta, updates).value, updates) == MergeTags(meta, updates)
  {
    var m3 := MergeTags(meta, updates).value;
    if TagsRequested(updates) && updates[TAG_ACTION] == ADD {
      var before := ListOrEmpty(meta, TAGS).value;
      TagsAddedIdempotent(before, updates[TAGS].items);
      assert m3[TAGS := List(TagsAdded(m3[TAGS].items, updates[TAGS].items))] == m3;
    } else if TagsRequested(updates) && updates[TAG_ACTION] == REMOVE {
      WithoutIdempotent(meta[TAGS].items, updates[TAGS].items);
      assert m3[TAGS := List(Without(m3[TAGS].items, updates[TAGS].items))] == m3;
    }
  }

  lemma CapabilitiesIdempotent(meta: Meta, updates: Updates)
    requires MergeCapabilities(meta, updates).Ok?
    ensures MergeCapabilities(MergeCapabilities(meta, updates).value, updates) == MergeCapabilities(meta, updates)
  {
    if CapabilitiesRequested(updates) {
      var m2 := MergeCapabilities(meta, updates).value;
      var d := m2[CAPABILITIES].items;
      var extra := updates[CAPABILITIES].items;
      DedupAbsorbs(d, extra);
      assert m2[CAPABILITIES := List(Dedup(d + extra))] == m2;
    }
  }

  /** The capabilities step gives the same list when the list it reads is the same. */
  lemma CapabilitiesAgree(a: Meta, b: Meta, updates: Updates)
    requires CapabilitiesRequested(updates)
    requires ListOrEmpty(a, CAPABILITIES) == ListOrEmpty(b, CAPABILITIES)
    requires MergeCapabilities(a, updates).Ok?
    ensures MergeCapabilities(b, updates) == Ok(b[CAPABILITIES := MergeCapabilities(a, updates).value[CAPABILITIES]])
  {
  }

  /** With the capabilities step requested, the second pass's first two steps lead back to a first-pass state. */
  lemma SecondPassWithCapabilities(m1: Meta, m2: Meta, m3: Meta, updates: Updates)
    requires META in updates && UpdateFields(updates[META]).Some? && CapabilitiesRequested(updates)
    requires forall k :: k in UpdateFields(updates[META]).value ==> k in m1 && m1[k] == UpdateFields(updates[META]).value[k]
    requires MergeCapabilities(m1, updates) == Ok(m2)
    requires MergeTags(m2, updates) == Ok(m3)
    ensures var fields := UpdateFields(updates[META]).value;
      MergeCapabilities(m3 + fields, updates) == Ok(if TAGS in fields then m2 else m3)
  {
    var fields := UpdateFields(updates[META]).value;
    var n1 := m3 + fields;
    var n2 := n1[CAPABILITIES := m2[CAPABILITIES]];
    if CAPABILITIES in fields {
      assert ListOrEmpty(n1, CAPABILITIES) == ListOrEmpty(m1, CAPABILITIES);
      CapabilitiesAgree(m1, n1, updates);
    } else {
      assert n1[CAPABILITIES] == m2[CAPABILITIES];
      CapabilitiesIdempotent(m1, updates);
      CapabilitiesAgree(m2, n1, updates);
    }
    assert MergeCapabilities(n1, updates) == Ok(n2);
    if TAGS in fields {
      assert n2 == m2 by {
        forall k | k in n2 ensures k in m2 && n2[k] == m2[k] {
          if k != CAPABILITIES && k !in fields {
            assert k != TAGS && k in m3;
          }
        }
        assert n2.Keys == m2.Keys;
      }
    } else {
      assert n2 == m3 by {
        forall k | k in n2 ensures k in m3 && n2[k] == m3[k] {
          if k != CAPABILITIES && k in fields {
            assert k != TAGS && k in m1;
          }
        }
        assert n2.Keys == m3.Keys;
      }
    }
  }

  /** Without the capabilities step, the second pass's meta update leads back to a first-pass state. */
  lemma SecondPassWithoutCapabilities(m1: Meta, m3: Meta, updates: Updates)
    requires META in updates && UpdateFields(updates[META]).Some? && !CapabilitiesRequested(updates)
    requires forall k :: k in UpdateFields(updates[META]).value ==> k in m1 && m1[k] == UpdateFields(updates[META]).value[k]
    requires MergeTags(m1, updates) == Ok(m3)
    ensures var fields := UpdateFields(updates[META]).value;
      m3 + fields == if TAGS in fields then m1 else m3
  {
    var fields := UpdateFields(updates[META]).value;
    var n1 := m3 + fields;
    if TAGS in fields {
      assert n1 == m1 by {
        forall k | k in n1 ensures k in m1 && n1[k] == m1[k] {
          if k !in fields {
            assert k != TAGS && k in m3;
          }
        }
        assert n1.Keys == m1.Keys;
      }
    } else {
      assert n1 == m3 by {
        forall k | k in n1 ensures k in m3 && n1[k] == m3[k] {
          if k in fields {
            assert k != TAGS && k in m1;
          }
        }
        assert n1.Keys == m3.Keys;
      }
    }
  }

  /**
   * Merging a record that was already merged with the same updates changes nothing more.
   * A bulk update that names an id twice therefore has the effect of naming it once.
   */
  lemma MergeIdempotent(m: Model, updates: Updates)
    requires Merge(m, updates).Ok?
    ensures Merge(Merge(m, updates).value, updates) == Merge(m, updates)
  {
    var m1 := MergeMeta(m.meta, updates).value;
    var m2 := MergeCapabilities(m1, updates).value;
    var m3 := MergeTags(m2, updates).value;
    assert Merge(m, updates).value.meta == m3;
    TagsIdempotent(m2, updates);
    if META !in updates {
      assert MergeMeta(m3, updates) == Ok(m3);
      assert MergeCapabilities(m3, updates) == Ok(m3);
    } else {
      var fields := UpdateFields(updates[META]).value;
      assert MergeMeta(m3, updates) == Ok(m3 + fields);
      if CapabilitiesRequested(updates) {
        SecondPassWithCapabilities(m1, m2, m3, updates);
      } else {
        SecondPassWithoutCapabilities(m1, m3, updates);
      }
    }
  }

  /** The tag step of the in-place merge, on the meta produced by the first two steps. */
  method ApplyTags(meta: Meta, updates: Updates) returns (r: Result<Meta, Error>)
    ensures r == MergeTags(meta, updates)
  {
    r := Ok(meta);
    if TAGS in updates && TAG_ACTION in updates {
      var action := updates[TAG_ACTION];
      if action == ADD {
        var before := if TAGS in meta then meta[TAGS] else List([]);
        var incoming := updates[TAGS];
        if !before.List? || !incoming.List? {
          return Err(MergeFailed);
        }
        var tags := AppendNewTags(before.items, incoming.items);
        r := Ok(meta[TAGS := List(tags)]);
      } else if action == REMOVE {
        if TAGS !in meta || !meta[TAGS].List? || !updates[TAGS].List? {
          return Err(MergeFailed);
        }
        r := Ok(meta[TAGS := List(Without(meta[TAGS].items, updates[TAGS].items))]);
      }
    }
  }

  /** The source's in-place merge of one record, step by step. */
  method MergeRecord(m: Model, updates: Updates) returns (r: Result<Model, Error>)
    ensures r == Merge(m, updates)
  {
    var meta := m.meta;
    if META in updates {
      match UpdateFields(updates[META]) {
        case Some(fields) => meta := meta + fields;
        case None => return Err(MergeFailed);
      }
    }
    assert MergeMeta(m.meta, updates) == Ok(meta);
    if CAPABILITIES in updates && META in updates {
      var have := if CAPABILITIES in meta then meta[CAPABILITIES] else List([]);
      var extra := updates[CAPABILITIES];
      if !have.List? || !extra.List? || !AllHashable(have.items) || !AllHashable(extra.items) {
        return Err(MergeFailed);
      }
      meta := meta[CAPABILITIES := List(Dedup(have.items + extra.items))];
    }
    var m2 := meta;
    assert MergeCapabilities(MergeMeta(m.meta, updates).value, updates) == Ok(m2);
    var tagged := ApplyTags(m2, updates);
    match tagged {
      case Err(e) => r := Err(e);
      case Ok(m3) => r := Ok(m.(meta := m3));
    }
  }
}
