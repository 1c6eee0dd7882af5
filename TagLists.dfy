/**
 * The list operations of the bulk merge: filtering out (`tag remove`), first-occurrence
 * de-duplication (the capabilities' `list(set(...))`) and append-if-absent (`tag add`).
 */
module TagLists {
  import opened Json

  predicate NoDup(xs: seq<Value>) {
    forall i, j :: 0 <= i < j < |xs| ==> xs[i] != xs[j]
  }

  /** The elements of `xs` that are not in `drop`, in their order in `xs`. */
  function Without(xs: seq<Value>, drop: seq<Value>): (r: seq<Value>)
    ensures |r| <= |xs|
  {
    if xs == [] then [] else (if xs[0] in drop then [] else [xs[0]]) + Without(xs[1..], drop)
  }

  /** Each element of `xs` once, at its first occurrence. */
  function Dedup(xs: seq<Value>): (r: seq<Value>)
    ensures |r| <= |xs|
  {
    if xs == [] then [] else [xs[0]] + Without(Dedup(xs[1..]), [xs[0]])
  }

  /** Exactly the elements of `xs` that are not in `drop` survive filtering. */
  lemma {:induction false} WithoutMembers(xs: seq<Value>, drop: seq<Value>)
    ensures forall z :: z in Without(xs, drop) <==> z in xs && z !in drop
  {
    if xs != [] {
      WithoutMembers(xs[1..], drop);
      assert xs == [xs[0]] + xs[1..];
    }
  }

  /** De-duplication keeps every element and adds none. */
  lemma {:induction false} DedupMembers(xs: seq<Value>)
    ensures forall z :: z in Dedup(xs) <==> z in xs
  {
    if xs != [] {
      DedupMembers(xs[1..]);
      WithoutMembers(Dedup(xs[1..]), [xs[0]]);
      assert xs == [xs[0]] + xs[1..];
    }
  }

  /** De-duplication leaves no element twice. */
  lemma {:induction false} DedupNoDup(xs: seq<Value>)
    ensures NoDup(Dedup(xs))
  {
    if xs != [] {
      var rest := Dedup(xs[1..]);
      DedupNoDup(xs[1..]);
      WithoutKeepsNoDup(rest, [xs[0]]);
      WithoutMembers(rest, [xs[0]]);
      NoDupCons(xs[0], Without(rest, [xs[0]]));
    }
  }

  /** What `tag add` leaves: the old list, then the new tags not already present, in first-appearance order. */
  function TagsAdded(tags: seq<Value>, incoming: seq<Value>): seq<Value> {
    tags + Without(Dedup(incoming), tags)
  }

  lemma NoDupCons(x: Value, xs: seq<Value>)
    requires x !in xs && NoDup(xs)
    ensures NoDup([x] + xs)
  {
    forall i, j | 0 <= i < j < |[x] + xs| ensures ([x] + xs)[i] != ([x] + xs)[j] {
      if i > 0 {
        assert ([x] + xs)[i] == xs[i - 1] && ([x] + xs)[j] == xs[j - 1];
      } else {
        assert ([x] + xs)[j] == xs[j - 1];
      }
    }
  }

  lemma NoDupTail(xs: seq<Value>)
    requires NoDup(xs) && xs != []
    ensures NoDup(xs[1..]) && xs[0] !in xs[1..]
  {
    forall i, j | 0 <= i < j < |xs[1..]| ensures xs[1..][i] != xs[1..][j] {
      assert xs[1..][i] == xs[i + 1] && xs[1..][j] == xs[j + 1];
    }
    forall k | 0 <= k < |xs[1..]| ensures xs[1..][k] != xs[0] {
      assert xs[1..][k] == xs[k + 1];
    }
  }

  lemma NoDupAppend(a: seq<Value>, b: seq<Value>)
    requires NoDup(a) && NoDup(b)
    requires forall z :: z in a ==> z !in b
    ensures NoDup(a + b)
  {
    forall i, j | 0 <= i < j < |a + b| ensures (a + b)[i] != (a + b)[j] {
      if j < |a| {
        assert (a + b)[i] == a[i] && (a + b)[j] == a[j];
      } else if i < |a| {
        assert (a + b)[i] == a[i] && (a + b)[j] == b[j - |a|];
        assert a[i] in a && b[j - |a|] in b;
      } else {
        assert (a + b)[i] == b[i - |a|] && (a + b)[j] == b[j - |a|];
      }
    }
  }

  lemma {:induction false} WithoutKeepsNoDup(xs: seq<Value>, drop: seq<Value>)
    requires NoDup(xs)
    ensures NoDup(Without(xs, drop))
  {
    if xs != [] {
      NoDupTail(xs);
      WithoutKeepsNoDup(xs[1..], drop);
      if xs[0] !in drop {
        WithoutMembers(xs[1..], drop);
        NoDupCons(xs[0], Without(xs[1..], drop));
      }
    }
  }

  /** Filtering distributes over concatenation: the survivors keep their relative order. */
  lemma {:induction false} WithoutAppend(a: seq<Value>, b: seq<Value>, drop: seq<Value>)
    ensures Without(a + b, drop) == Without(a, drop) + Without(b, drop)
  {
    if a == [] {
      assert a + b == b;
    } else {
      assert (a + b)[0] == a[0] && (a + b)[1..] == a[1..] + b;
      WithoutAppend(a[1..], b, drop);
    }
  }

  /** Filtering by a list none of whose elements occur changes nothing. */
  lemma {:induction false} WithoutNothing(xs: seq<Value>, drop: seq<Value>)
    requires forall z :: z in xs ==> z !in drop
    ensures Without(xs, drop) == xs
  {
    if xs != [] {
      assert xs == [xs[0]] + xs[1..];
      WithoutNothing(xs[1..], drop);
    }
  }

  /** Filtering by a list that holds every element leaves nothing. */
  lemma {:induction false} WithoutAll(xs: seq<Value>, drop: seq<Value>)
    requires forall z :: z in xs ==> z in drop
    ensures Without(xs, drop) == []
  {
    if xs != [] {
      assert xs[0] in xs;
      WithoutAll(xs[1..], drop);
    }
  }

  /** Filtering depends only on which elements `drop` holds. */
  lemma {:induction false} WithoutSameMembers(xs: seq<Value>, a: seq<Value>, b: seq<Value>)
    requires forall z :: z in a <==> z in b
    ensures Without(xs, a) == Without(xs, b)
  {
    if xs != [] {
      WithoutSameMembers(xs[1..], a, b);
    }
  }

  /** Filtering twice is filtering once by both lists. */
  lemma {:induction false} WithoutTwice(xs: seq<Value>, a: seq<Value>, b: seq<Value>)
    ensures Without(Without(xs, a), b) == Without(xs, a + b)
  {
    if xs != [] {
      var head := if xs[0] in a then [] else [xs[0]];
      WithoutAppend(head, Without(xs[1..], a), b);
      WithoutTwice(xs[1..], a, b);
    }
  }

  /** Filtering is idempotent: no removed element survives a first pass. */
  lemma WithoutIdempotent(xs: seq<Value>, drop: seq<Value>)
    ensures Without(Without(xs, drop), drop) == Without(xs, drop)
  {
    WithoutMembers(xs, drop);
    WithoutNothing(Without(xs, drop), drop);
  }

  /** A list with no duplicates is its own de-duplication. */
  lemma {:induction false} DedupOfNoDup(xs: seq<Value>)
    requires NoDup(xs)
    ensures Dedup(xs) == xs
  {
    if xs != [] {
      NoDupTail(xs);
      DedupOfNoDup(xs[1..]);
      WithoutNothing(xs[1..], [xs[0]]);
      assert xs == [xs[0]] + xs[1..];
    }
  }

  /** One step of `Dedup`: the head stays, and later copies of it are dropped. */
  lemma DedupCons(x: Value, t: seq<Value>)
    ensures Dedup([x] + t) == [x] + Without(Dedup(t), [x])
  {
    assert ([x] + t)[0] == x && ([x] + t)[1..] == t;
  }

  /** De-duplicating a concatenation keeps the first part's order and adds the second part's new elements. */
  lemma {:induction false} DedupAppend(a: seq<Value>, b: seq<Value>)
    ensures Dedup(a + b) == Dedup(a) + Without(Dedup(b), a)
  {
    if a == [] {
      assert a + b == b;
      WithoutNothing(Dedup(b), a);
    } else {
      var x, t := a[0], a[1..];
      assert a == [x] + t && a + b == [x] + (t + b);
      var d, w := Dedup(t), Without(Dedup(b), t);
      calc {
        Dedup(a + b);
      == { DedupCons(x, t + b); }
        [x] + Without(Dedup(t + b), [x]);
      == { DedupAppend(t, b); }
        [x] + Without(d + w, [x]);
      == { WithoutAppend(d, w, [x]); }
        [x] + (Without(d, [x]) + Without(w, [x]));
      == { WithoutTwice(Dedup(b), t, [x]); WithoutSameMembers(Dedup(b), t + [x], a); }
        [x] + (Without(d, [x]) + Without(Dedup(b), a));
      ==
        ([x] + Without(d, [x])) + Without(Dedup(b), a);
      == { DedupCons(x, t); }
        Dedup(a) + Without(Dedup(b), a);
      }
    }
  }

  /** Appending elements already present and de-duplicating again changes nothing. */
  lemma DedupAbsorbs(d: seq<Value>, extra: seq<Value>)
    requires NoDup(d)
    requires forall z :: z in extra ==> z in d
    ensures Dedup(d + extra) == d
  {
    DedupAppend(d, extra);
    DedupOfNoDup(d);
    DedupMembers(extra);
    WithoutAll(Dedup(extra), d);
  }

  /** `tag add` keeps the old list as a prefix and appends exactly the missing new tags. */
  lemma TagsAddedShape(tags: seq<Value>, incoming: seq<Value>)
    ensures |tags| <= |TagsAdded(tags, incoming)|
    ensures TagsAdded(tags, incoming)[..|tags|] == tags
    ensures forall z :: z in TagsAdded(tags, incoming)[|tags|..] <==> z in incoming && z !in tags
    ensures NoDup(TagsAdded(tags, incoming)[|tags|..])
  {
    var r := TagsAdded(tags, incoming);
    assert r[..|tags|] == tags;
    assert r[|tags|..] == Without(Dedup(incoming), tags);
    WithoutMembers(Dedup(incoming), tags);
    DedupMembers(incoming);
    DedupNoDup(incoming);
    WithoutKeepsNoDup(Dedup(incoming), tags);
  }

  /** `tag add` on a list without duplicates gives a list without duplicates. */
  lemma TagsAddedNoDup(tags: seq<Value>, incoming: seq<Value>)
    requires NoDup(tags)
    ensures NoDup(TagsAdded(tags, incoming))
  {
    DedupNoDup(incoming);
    WithoutMembers(Dedup(incoming), tags);
    WithoutKeepsNoDup(Dedup(incoming), tags);
    NoDupAppend(tags, Without(Dedup(incoming), tags));
  }

  /** Adding the same tags a second time changes nothing. */
  lemma TagsAddedIdempotent(tags: seq<Value>, incoming: seq<Value>)
    ensures TagsAdded(TagsAdded(tags, incoming), incoming) == TagsAdded(tags, incoming)
  {
    var r := TagsAdded(tags, incoming);
    DedupMembers(incoming);
    WithoutMembers(Dedup(incoming), tags);
    WithoutAll(Dedup(incoming), r);
    assert r + [] == r;
  }

  lemma SingletonFacts(x: Value, done: seq<Value>)
    ensures Dedup([x]) == [x]
    ensures Without([x], done) == if x in done then [] else [x]
  {
    assert [x][1..] == [];
  }

  /** Adding tags one at a time, as the source's loop does, yields `TagsAdded`. */
  lemma TagsAddedStep(tags: seq<Value>, done: seq<Value>, x: Value)
    ensures TagsAdded(tags, done + [x]) ==
      var cur := TagsAdded(tags, done);
      if x in cur then cur else cur + [x]
  {
    var d := Dedup(done);
    var w := Without([x], done);
    DedupAppend(done, [x]);
    SingletonFacts(x, done);
    assert Dedup(done + [x]) == d + w;
    WithoutAppend(d, w, tags);
    assert TagsAdded(tags, done + [x]) == tags + Without(d, tags) + Without(w, tags);
    var cur := TagsAdded(tags, done);
    DedupMembers(done);
    WithoutMembers(d, tags);
    assert x in cur <==> x in tags || x in done;
    if x in cur {
      WithoutAll(w, tags);
      assert TagsAdded(tags, done + [x]) == cur;
    } else {
      SingletonFacts(x, tags);
      assert Without(w, tags) == [x];
      assert TagsAdded(tags, done + [x]) == cur + [x];
    }
  }

  /** The source's append-if-absent loop over the incoming tags. */
  method AppendNewTags(tags: seq<Value>, incoming: seq<Value>) returns (r: seq<Value>)
    ensures r == TagsAdded(tags, incoming)
  {
    r := tags;
    var i := 0;
    assert Dedup(incoming[..0]) == [];
    while i < |incoming|
      invariant 0 <= i <= |incoming|
      invariant r == TagsAdded(tags, incoming[..i])
    {
      var x := incoming[i];
      TagsAddedStep(tags, incoming[..i], x);
      assert incoming[..i + 1] == incoming[..i] + [x];
      if x !in r {
        r := r + [x];
      }
      i := i + 1;
    }
    assert incoming[..i] == incoming;
  }
}
