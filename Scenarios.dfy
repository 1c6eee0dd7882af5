/** Concrete cases of the bulk endpoints' behaviour, stated over the model. */
module Scenarios {
  import opened Json
  import opened ModelRecords
  import opened TagLists
  import opened BulkMerge
  import opened ModelTable

  function Record(id: string, meta: Meta): Model {
    Model(id, "owner", None, id, map[], meta, None, true)
  }

  /** Capabilities ["x"] merged with ["x", "y"] hold exactly "x" and "y", once each. */
  lemma CapabilitiesUnion()
    ensures var m := Record("m", map[CAPABILITIES := List([Str("x")])]);
      var u := map[CAPABILITIES := List([Str("x"), Str("y")]), META := Obj(map[])];
      var r := Merge(m, u);
      && r.Ok? && r.value.meta[CAPABILITIES].List?
      && (forall v :: v in r.value.meta[CAPABILITIES].items <==> v == Str("x") || v == Str("y"))
      && NoDup(r.value.meta[CAPABILITIES].items)
  {
    var m := Record("m", map[CAPABILITIES := List([Str("x")])]);
    var u := map[CAPABILITIES := List([Str("x"), Str("y")]), META := Obj(map[])];
    assert m.meta + map[] == m.meta;
    assert UpdateFields(Obj(map[])) == Some(map[]);
    assert MergeMeta(m.meta, u) == Ok(m.meta);
    assert ListOrEmpty(m.meta, CAPABILITIES) == Some([Str("x")]);
  }

  /** A `meta` update given as a list of key/value pairs writes those keys; a later pair wins. */
  lemma MetaPairsExample(meta: Meta)
    ensures var d := [Str("description"), Str("d")];
      var e := [Str("description"), Str("e")];
      MergeMeta(meta, map[META := List([List(d), List(e)])]) == Ok(meta["description" := Str("e")])
  {
    var d := [Str("description"), Str("d")];
    var e := [Str("description"), Str("e")];
    var items := [List(d), List(e)];
    assert items[..1] == [List(d)] && [List(d)][..0] == [];
    assert Pair(List(d)) == Some(("description", Str("d")));
    assert Pair(List(e)) == Some(("description", Str("e")));
    assert PairFields([List(d)]) == Some(map["description" := Str("d")]);
    assert map["description" := Str("d")]["description" := Str("e")] == map["description" := Str("e")];
    assert PairFields(items) == Some(map["description" := Str("e")]);
    assert meta + map["description" := Str("e")] == meta["description" := Str("e")];
  }

  /** An empty `meta` list changes no key, and the capabilities step still runs. */
  lemma MetaEmptyListExample(m: Model)
    ensures var u := map[META := List([]), CAPABILITIES := List([Str("x")])];
      var r := Merge(m, u);
      CAPABILITIES !in m.meta ==> r == Ok(m.(meta := m.meta[CAPABILITIES := List([Str("x")])]))
  {
    var u := map[META := List([]), CAPABILITIES := List([Str("x")])];
    assert m.meta + map[] == m.meta;
    assert UpdateFields(List([])) == Some(map[]);
    assert MergeMeta(m.meta, u) == Ok(m.meta);
    if CAPABILITIES !in m.meta {
      assert ListOrEmpty(m.meta, CAPABILITIES) == Some([]);
      assert [] + [Str("x")] == [Str("x")];
      assert [Str("x")][1..] == [];
      assert Dedup([Str("x")]) == [Str("x")];
      assert MergeCapabilities(m.meta, u) == Ok(m.meta[CAPABILITIES := List([Str("x")])]);
    }
  }

  lemma AddedAB()
    ensures TagsAdded([Str("a")], [Str("a"), Str("b")]) == [Str("a"), Str("b")]
  {
    var inc := [Str("a"), Str("b")];
    assert inc[1..] == [Str("b")];
    assert [Str("b")][1..] == [];
    assert Dedup([Str("b")]) == [Str("b")];
    assert Dedup(inc) == [Str("a"), Str("b")];
    assert [Str("a"), Str("b")][1..] == [Str("b")];
  }

  /** Adding ["a", "b"] to a record tagged ["a"] gives ["a", "b"]. */
  lemma TagsAddExample()
    ensures var m := Record("m", map[TAGS := List([Str("a")])]);
      var u := map[TAGS := List([Str("a"), Str("b")]), TAG_ACTION := ADD];
      Merge(m, u) == Ok(m.(meta := map[TAGS := List([Str("a"), Str("b")])]))
  {
    var m := Record("m", map[TAGS := List([Str("a")])]);
    var u := map[TAGS := List([Str("a"), Str("b")]), TAG_ACTION := ADD];
    assert MergeMeta(m.meta, u) == Ok(m.meta) && MergeCapabilities(m.meta, u) == Ok(m.meta);
    assert ListOrEmpty(m.meta, TAGS) == Some([Str("a")]);
    AddedAB();
    assert MergeTags(m.meta, u) == Ok(m.meta[TAGS := List([Str("a"), Str("b")])]);
    assert m.meta[TAGS := List([Str("a"), Str("b")])] == map[TAGS := List([Str("a"), Str("b")])];
  }

  /** Adding tags to a record without a `tags` key starts from the empty list. */
  lemma TagsAddDefaultExample()
    ensures var m := Record("m", map[]);
      Merge(m, map[TAGS := List([Str("a")]), TAG_ACTION := ADD]) == Ok(m.(meta := map[TAGS := List([Str("a")])]))
  {
    assert [Str("a")][1..] == [];
    assert Dedup([Str("a")]) == [Str("a")];
    assert TagsAdded([], [Str("a")]) == [Str("a")];
  }

  /** Removing ["a"] from a record tagged ["a", "b"] gives ["b"]. */
  lemma TagsRemoveExample()
    ensures var m := Record("m", map[TAGS := List([Str("a"), Str("b")])]);
      var u := map[TAGS := List([Str("a")]), TAG_ACTION := REMOVE];
      Merge(m, u) == Ok(m.(meta := map[TAGS := List([Str("b")])]))
  {
    assert [Str("a"), Str("b")][1..] == [Str("b")];
    assert [Str("b")][1..] == [];
    assert Without([Str("a"), Str("b")], [Str("a")]) == [Str("b")];
    var m := Record("m", map[TAGS := List([Str("a"), Str("b")])]);
    var u := map[TAGS := List([Str("a")]), TAG_ACTION := REMOVE];
    assert MergeMeta(m.meta, u) == Ok(m.meta) && MergeCapabilities(m.meta, u) == Ok(m.meta);
    assert MergeTags(m.meta, u) == Ok(m.meta[TAGS := List([Str("b")])]);
    assert m.meta[TAGS := List([Str("b")])] == map[TAGS := List([Str("b")])];
  }

  /** A remove on a record without a `tags` key fails, even with nothing to remove. */
  lemma TagsRemoveMissingExample()
    ensures Merge(Record("m", map[]), map[TAGS := List([]), TAG_ACTION := REMOVE]) == Err(MergeFailed)
  {
  }

  /** Tags sent without a `tag_action` leave the record as it was. */
  lemma TagsWithoutAction(m: Model, tags: Value)
    ensures Merge(m, map[TAGS := tags]) == Ok(m)
  {
  }

  /** Toggling [X, missing, Y] in a table holding X and Y counts two. */
  lemma BulkToggleSkipsMissing(x: Model, y: Model)
    requires x.id == "X" && y.id == "Y"
    ensures CountPresent(map["X" := x, "Y" := y], ["X", "missing", "Y"]) == 2
  {
    var s := map["X" := x, "Y" := y];
    var ids := ["X", "missing", "Y"];
    assert ids[..|ids| - 1] == ["X", "missing"];
    assert ["X", "missing"][..1] == ["X"];
    assert ["X"][..0] == [];
    assert "missing" !in s;
    assert CountPresent(s, ["X"]) == 1;
    assert CountPresent(s, ["X", "missing"]) == 1;
  }
}
