/** The index a connector maintains: what its emitted documents amount to. */
module Documents {
  import opened Common

  datatype Doc<V> = Upsert(id: string, doc: V) | Tombstone(id: string)

  type Index<V> = map<string, V>

  function Apply<V>(ix: Index<V>, d: Doc<V>): Index<V>
  {
    match d case Upsert(id, doc) => ix[id := doc] case Tombstone(id) => ix - {id}
  }

  function ApplyAll<V>(ix: Index<V>, docs: seq<Doc<V>>): Index<V>
    decreases |docs|
  {
    if docs == [] then ix else ApplyAll(Apply(ix, docs[0]), docs[1..])
  }

  function Tombstones<V>(ids: seq<string>): seq<Doc<V>>
  {
    if ids == [] then [] else Tombstones(ids[..|ids| - 1]) + [Tombstone(ids[|ids| - 1])]
  }

  lemma {:induction false} ApplyLookup<V>(ix: Index<V>, d: Doc<V>, id: string)
    ensures Lookup(Apply(ix, d), id) == if d.id != id then Lookup(ix, id) else if d.Upsert? then Some(d.doc) else None
  {
  }

  lemma {:induction false} ApplyNone<V>(ix: Index<V>) ensures ApplyAll(ix, []) == ix {}

  lemma {:induction false} ApplyConcat<V>(ix: Index<V>, a: seq<Doc<V>>, b: seq<Doc<V>>)
    ensures ApplyAll(ix, a + b) == ApplyAll(ApplyAll(ix, a), b)
    decreases |a|
  {
    if a == [] {
      assert a + b == b;
    } else {
      assert (a + b)[0] == a[0] && (a + b)[1..] == a[1..] + b;
      ApplyConcat(Apply(ix, a[0]), a[1..], b);
    }
  }

  lemma {:induction false} ApplyLast<V>(ix: Index<V>, a: seq<Doc<V>>, d: Doc<V>, id: string)
    ensures Lookup(ApplyAll(ix, a + [d]), id)
         == if d.id != id then Lookup(ApplyAll(ix, a), id) else if d.Upsert? then Some(d.doc) else None
  {
    ApplyConcat(ix, a, [d]);
    assert ApplyAll(ApplyAll(ix, a), [d]) == Apply(ApplyAll(ix, a), d);
  }

  /** Documents only touch what they name. */
  lemma {:induction false} OnlyNamed<V>(ix: Index<V>, docs: seq<Doc<V>>, id: string)
    requires forall d :: d in docs ==> d.id != id
    ensures Lookup(ApplyAll(ix, docs), id) == Lookup(ix, id)
    decreases |docs|
  {
    if docs != [] {
      assert docs[0] in docs;
      ApplyLookup(ix, docs[0], id);
      OnlyNamed(Apply(ix, docs[0]), docs[1..], id);
    }
  }

  lemma {:induction false} NoTombstones<V>() ensures Tombstones<V>([]) == [] {}

  lemma {:induction false} OneTombstone<V>(ids: seq<string>, id: string)
    ensures Tombstones<V>(ids + [id]) == Tombstones<V>(ids) + [Tombstone(id)]
  {
    assert (ids + [id])[..|ids|] == ids;
  }

  lemma {:induction false} TombstonesNamed<V>(ids: seq<string>, d: Doc<V>)
    ensures d in Tombstones<V>(ids) <==> d.Tombstone? && d.id in ids
  {
    if ids != [] {
      var n := |ids| - 1;
      TombstonesNamed(ids[..n], d);
      assert ids == ids[..n] + [ids[n]];
    }
  }

  lemma {:induction false} TombstonesPrefix<V>(a: seq<string>, b: seq<string>)
    requires a <= b
    ensures Tombstones<V>(a) <= Tombstones<V>(b)
    decreases |b|
  {
    if |a| < |b| {
      TombstonesPrefix<V>(a, b[..|b| - 1]);
    } else {
      assert a == b;
    }
  }

  lemma {:induction false} TombstonesRemove<V>(ix: Index<V>, ids: seq<string>, id: string)
    ensures Lookup(ApplyAll(ix, Tombstones(ids)), id) == if id in ids then None else Lookup(ix, id)
    decreases |ids|
  {
    hide ApplyAll, Lookup;
    if ids == [] {
      ApplyNone(ix);
    } else {
      var n := |ids| - 1;
      TombstonesRemove(ix, ids[..n], id);
      ApplyLast(ix, Tombstones(ids[..n]), Tombstone(ids[n]), id);
      assert ids == ids[..n] + [ids[n]];
    }
  }
}
