/**
What can hold data of a tenant while it is being erased, and what the tenant's
own traffic, documents still in flight and other cascades can do to it meanwhile.
*/
module ErasureTraffic {
  import opened Common
  import opened Store

  /** What an external store holds: items, each owned by a tenant. */
  type Shelf = set<(Tenant, string)>

  predicate Clean(shelf: Option<Shelf>, t: Tenant)
  {
    shelf.Some? ==> forall item <- shelf.value :: item.0 != t
  }

  /** Nothing of other tenants is added or removed. */
  predicate Apart(before: Option<Shelf>, after: Option<Shelf>, t: Tenant)
  {
    match (before, after)
    case (Some(b), Some(a)) => (forall item <- a :: item.0 != t ==> item in b) && (forall item <- b :: item.0 != t ==> item in a)
    case (None, None) => true
    case _ => false
  }

  /** Everything that can hold data of a tenant.  A store that is not configured is None. */
  datatype World = World(rows: Rows, deks: Option<Shelf>, cached: set<Tenant>, vespa: Option<Shelf>, blobs: Option<Shelf>, cache: Option<Shelf>)

  ghost predicate Erased(w: World, t: Tenant)
  {
    Gone(w.rows, t) && Clean(w.deks, t) && t !in w.cached && Clean(w.vespa, t) && Clean(w.blobs, t) && Clean(w.cache, t)
  }

  predicate SameConfiguration(w: World, w': World)
  {
    && (w'.deks.None? <==> w.deks.None?) && (w'.vespa.None? <==> w.vespa.None?)
    && (w'.blobs.None? <==> w.blobs.None?) && (w'.cache.None? <==> w.cache.None?)
  }

  /** Every other tenant is left alone. */
  ghost predicate Spares(w: World, w': World, t: Tenant)
  {
    && Safe(t, w.rows, w'.rows)
    && Apart(w.deks, w'.deks, t) && Apart(w.vespa, w'.vespa, t) && Apart(w.blobs, w'.blobs, t) && Apart(w.cache, w'.cache, t)
    && w'.cached - {t} == w.cached - {t}
  }

  // ---------------------------------------------------------------- purges

  /** How a purge of one store goes: done, or broken off with `kept` among the items not yet deleted. */
  datatype Fault = Fine | Broken(kept: Shelf)

  function Swept(shelf: Option<Shelf>, t: Tenant, f: Fault): Option<Shelf>
  {
    if shelf.None? then None
    else Some(set item | item in shelf.value && (item.0 != t || (f.Broken? && item in f.kept)))
  }

  predicate Fails(shelf: Option<Shelf>, f: Fault) { shelf.Some? && f.Broken? }

  lemma {:induction false} SweptIs(shelf: Option<Shelf>, t: Tenant, f: Fault)
    ensures Apart(shelf, Swept(shelf, t, f), t) && Apart(shelf, shelf, t)
    ensures !Fails(shelf, f) ==> Clean(Swept(shelf, t, f), t)
    ensures Swept(shelf, t, f).None? <==> shelf.None?
  {
  }

  lemma {:induction false} SweptNone(t: Tenant, f: Fault) ensures Swept(None, t, f) == None {}

  // ---------------------------------------------------------------- stragglers

  datatype Place = Vespa | Blobs | Redis

  function Stock(w: World, p: Place): Option<Shelf>
  {
    match p case Vespa => w.vespa case Blobs => w.blobs case Redis => w.cache
  }

  function Stocked(w: World, p: Place, shelf: Option<Shelf>): World
  {
    match p case Vespa => w.(vespa := shelf) case Blobs => w.(blobs := shelf) case Redis => w.(cache := shelf)
  }

  predicate Has(w: World, p: Place, t: Tenant, item: string) { Stock(w, p).Some? && (t, item) in Stock(w, p).value }

  /** What the tenant's own traffic, or a second cascade, can still do while the cascade runs. */
  datatype Write =
    | Rpc(op: Op)                          // a store operation; PutToken encrypts first
    | Provision                            // an Encrypt that had found no key, here or in another process, puts one
    | Publish                              // a cipher call under way puts the key it holds back into the cache
    | Shred                                // the key is deleted again
    | Forget                               // the cached key is dropped again
    | Save(place: Place, item: string)     // a document still in the pipeline, a blob, a cache or rate-limit key
    | Drop(place: Place, item: string)     // a document's deletion, an expired key

  function Added(shelf: Option<Shelf>, t: Tenant, item: string): Option<Shelf>
  {
    if shelf.Some? then Some(shelf.value + {(t, item)}) else None
  }

  function Removed(shelf: Option<Shelf>, t: Tenant, item: string): Option<Shelf>
  {
    if shelf.Some? then Some(shelf.value - {(t, item)}) else None
  }

  /** PutWrappedDEK: the first writer wins. */
  function Provisioned(deks: Option<Shelf>, t: Tenant): Option<Shelf>
  {
    if Clean(deks, t) then Added(deks, t, "dek") else deks
  }

  /** Encrypt: a cached key is used as it is; otherwise the key store gets a key if it has none, and the process caches it. */
  function Keyed(w: World, t: Tenant): World
  {
    if t in w.cached then w else w.(deks := Provisioned(w.deks, t), cached := w.cached + {t})
  }

  function Wrote(w: World, t: Tenant, x: Write): World
  {
    match x
    case Rpc(op) =>
      if op.t != t || !Enabled(w.rows, op) then w
      else (if op.PutToken? then Keyed(w, t) else w).(rows := Do(w.rows, op))
    case Provision => w.(deks := Provisioned(w.deks, t))
    case Publish => w.(cached := w.cached + {t})
    case Shred => w.(deks := Swept(w.deks, t, Fine))
    case Forget => w.(cached := w.cached - {t})
    case Save(p, item) => Stocked(w, p, Added(Stock(w, p), t, item))
    case Drop(p, item) => Stocked(w, p, Removed(Stock(w, p), t, item))
  }

  function Raced(w: World, t: Tenant, ws: seq<Write>): World
    decreases |ws|
  {
    if ws == [] then w else Raced(Wrote(w, t, ws[0]), t, ws[1..])
  }

  // ---------------------------------------------------------------- other tenants

  lemma {:induction false} ApartTransitive(a: Option<Shelf>, b: Option<Shelf>, c: Option<Shelf>, t: Tenant)
    requires Apart(a, b, t) && Apart(b, c, t)
    ensures Apart(a, c, t)
  {
  }

  lemma {:induction false} SparesTransitive(a: World, b: World, c: World, t: Tenant)
    requires Spares(a, b, t) && Spares(b, c, t)
    ensures Spares(a, c, t)
  {
    hide Safe, Apart;
    SafeTransitive(t, a.rows, b.rows, c.rows);
    ApartTransitive(a.deks, b.deks, c.deks, t);
    ApartTransitive(a.vespa, b.vespa, c.vespa, t);
    ApartTransitive(a.blobs, b.blobs, c.blobs, t);
    ApartTransitive(a.cache, b.cache, c.cache, t);
  }

  lemma {:induction false} SparesInv(w: World, w': World, t: Tenant)
    requires Spares(w, w', t)
    ensures Inv(w'.rows)
  {
    hide Apart, Inv, Safe;
    SafeIsInv(t, w.rows, w'.rows);
  }

  lemma {:induction false} SparesItself(w: World, t: Tenant)
    requires Inv(w.rows)
    ensures Spares(w, w, t)
  {
    hide Safe, Apart, Inv;
    Unchanged(w.rows, t);
    SweptIs(w.deks, t, Fine);
    SweptIs(w.vespa, t, Fine);
    SweptIs(w.blobs, t, Fine);
    SweptIs(w.cache, t, Fine);
  }

  /** One step of the cascade on one store. */
  lemma {:induction false} SweepSpares(w: World, t: Tenant, f: Fault)
    requires Inv(w.rows)
    ensures Spares(w, w.(deks := Swept(w.deks, t, f)), t) && Spares(w, w.(vespa := Swept(w.vespa, t, f)), t)
    ensures Spares(w, w.(blobs := Swept(w.blobs, t, f)), t) && Spares(w, w.(cache := Swept(w.cache, t, f)), t)
    ensures Spares(w, w.(cached := w.cached - {t}), t)
  {
    SparesItself(w, t);
    hide Safe, Apart, Inv, Swept;
    SweptIs(w.deks, t, f);
    SweptIs(w.vespa, t, f);
    SweptIs(w.blobs, t, f);
    SweptIs(w.cache, t, f);
  }

  lemma {:induction false} OpSpares(w: World, op: Op)
    requires Inv(w.rows) && Enabled(w.rows, op)
    ensures Spares(w, w.(rows := Do(w.rows, op)), op.t)
  {
    SparesItself(w, op.t);
    OpIsSafe(w.rows, op);
    hide Safe, Apart, Inv, Do;
  }

  lemma {:induction false} ShelvesApart(shelf: Option<Shelf>, t: Tenant, item: string)
    ensures Apart(shelf, Added(shelf, t, item), t) && Apart(shelf, Removed(shelf, t, item), t) && Apart(shelf, shelf, t)
    ensures Apart(shelf, Provisioned(shelf, t), t) && Apart(shelf, Swept(shelf, t, Fine), t)
  {
    hide Clean;
  }

  lemma {:induction false} WroteSpares(w: World, t: Tenant, x: Write)
    requires Inv(w.rows)
    ensures Spares(w, Wrote(w, t, x), t)
  {
    hide Safe, Inv, Apart, Added, Removed, Provisioned, Swept, Do, Enabled;
    Unchanged(w.rows, t);
    var item := if x.Save? || x.Drop? then x.item else "";
    ShelvesApart(w.deks, t, item);
    ShelvesApart(w.vespa, t, item);
    ShelvesApart(w.blobs, t, item);
    ShelvesApart(w.cache, t, item);
    if x.Rpc? && x.op.t == t && Enabled(w.rows, x.op) { OpIsSafe(w.rows, x.op); }
  }

  lemma {:induction false} RacedSpares(w: World, t: Tenant, ws: seq<Write>)
    requires Inv(w.rows)
    ensures Spares(w, Raced(w, t, ws), t) && Inv(Raced(w, t, ws).rows)
    decreases |ws|
  {
    hide Spares, Inv, Wrote;
    if ws == [] {
      SparesItself(w, t);
    } else {
      var w1 := Wrote(w, t, ws[0]);
      WroteSpares(w, t, ws[0]);
      SparesInv(w, w1, t);
      RacedSpares(w1, t, ws[1..]);
      SparesTransitive(w, w1, Raced(w, t, ws), t);
    }
  }

  /** A step and then stragglers, on top of what has been spared so far. */
  lemma {:induction false} RaceSpares(w: World, w1: World, w2: World, t: Tenant, ws: seq<Write>)
    requires Spares(w, w1, t) && Spares(w1, w2, t)
    ensures Spares(w, w2, t) && Spares(w, Raced(w2, t, ws), t) && Inv(w2.rows) && Inv(Raced(w2, t, ws).rows)
  {
    hide Spares, Inv, Raced;
    SparesTransitive(w, w1, w2, t);
    SparesInv(w, w2, t);
    RacedSpares(w2, t, ws);
    SparesTransitive(w, w2, Raced(w2, t, ws), t);
  }

  // ---------------------------------------------------------------- what stragglers leave behind

  /** What a write can leave behind: the stored key, the cached key, an item. */
  datatype Mark = Key | Aead | Item(place: Place, item: string)

  predicate IsToken(x: Write, t: Tenant) { x.Rpc? && x.op.PutToken? && x.op.t == t }

  predicate Adds(x: Write, m: Mark, t: Tenant)
  {
    match m
    case Key => x.Provision?
    case Aead => x.Publish? || IsToken(x, t)
    case Item(p, item) => x == Save(p, item)
  }

  predicate Removes(x: Write, m: Mark)
  {
    match m case Key => x.Shred? case Aead => x.Forget? case Item(p, item) => x == Drop(p, item)
  }

  /** Nothing from position `from` on removes the mark. */
  predicate Stays(ws: seq<Write>, from: int, m: Mark) { forall j :: 0 <= from <= j < |ws| ==> !Removes(ws[j], m) }

  /** Some write adds the mark and none removes it later, or it was there before and none removes it. */
  predicate Present(ws: seq<Write>, m: Mark, t: Tenant, before: bool)
  {
    (before && Stays(ws, 0, m)) || exists i :: 0 <= i < |ws| && Adds(ws[i], m, t) && Stays(ws, i + 1, m)
  }

  /** A PutToken provisions a key exactly when no key is cached at that moment. */
  predicate Provides(ws: seq<Write>, i: nat, t: Tenant, cached: bool)
    requires i < |ws|
  {
    ws[i].Provision? || (IsToken(ws[i], t) && !Present(ws[..i], Aead, t, cached))
  }

  /** A key is stored after the writes: some write provides one and none deletes it later, or it was there before. */
  predicate Stored(ws: seq<Write>, t: Tenant, stored: bool, cached: bool)
  {
    (stored && Stays(ws, 0, Key)) || exists i :: 0 <= i < |ws| && Provides(ws, i, t, cached) && Stays(ws, i + 1, Key)
  }

  lemma {:induction false} StaysConcat(a: seq<Write>, b: seq<Write>, from: nat, m: Mark)
    ensures from <= |a| ==> (Stays(a + b, from, m) <==> Stays(a, from, m) && Stays(b, 0, m))
    ensures Stays(a + b, |a| + from, m) <==> Stays(b, from, m)
  {
    hide Removes;
    assert forall j :: 0 <= j < |b| ==> b[j] == (a + b)[|a| + j];
    assert forall j :: |a| <= j < |a + b| ==> (a + b)[j] == b[j - |a|];
    assert forall j :: 0 <= j < |a| ==> (a + b)[j] == a[j];
  }

  lemma {:induction false} PresentConcat(a: seq<Write>, b: seq<Write>, m: Mark, t: Tenant, before: bool)
    ensures Present(a + b, m, t, before) <==> Present(b, m, t, Present(a, m, t, before))
  {
    hide Adds, Stays;
    StaysConcat(a, b, 0, m);
    if i :| 0 <= i < |a + b| && Adds((a + b)[i], m, t) && Stays(a + b, i + 1, m) {
      if i < |a| {
        StaysConcat(a, b, i + 1, m);
      } else {
        StaysConcat(a, b, i - |a| + 1, m);
        assert Adds(b[i - |a|], m, t) && Stays(b, i - |a| + 1, m);
      }
    }
    if i :| 0 <= i < |b| && Adds(b[i], m, t) && Stays(b, i + 1, m) {
      StaysConcat(a, b, i + 1, m);
      assert Adds((a + b)[|a| + i], m, t) && Stays(a + b, |a| + i + 1, m);
    } else if i :| 0 <= i < |a| && Adds(a[i], m, t) && Stays(a, i + 1, m) {
      StaysConcat(a, b, i + 1, m);
      assert Stays(b, 0, m) ==> Adds((a + b)[i], m, t) && Stays(a + b, i + 1, m);
    }
  }

  lemma {:induction false} ProvidesConcat(a: seq<Write>, b: seq<Write>, i: nat, t: Tenant, cached: bool)
    requires i < |a + b|
    ensures i < |a| ==> (Provides(a + b, i, t, cached) <==> Provides(a, i, t, cached))
    ensures i >= |a| ==> (Provides(a + b, i, t, cached) <==> Provides(b, i - |a|, t, Present(a, Aead, t, cached)))
  {
    if i < |a| {
      assert (a + b)[..i] == a[..i];
    } else {
      assert (a + b)[..i] == a + b[..i - |a|];
      PresentConcat(a, b[..i - |a|], Aead, t, cached);
    }
    hide Present;
  }

  lemma {:induction false} StoredConcat(a: seq<Write>, b: seq<Write>, t: Tenant, stored: bool, cached: bool)
    ensures Stored(a + b, t, stored, cached) <==> Stored(b, t, Stored(a, t, stored, cached), Present(a, Aead, t, cached))
  {
    var late := Present(a, Aead, t, cached);
    hide Provides, Stays, Present;
    StaysConcat(a, b, 0, Key);
    forall i | 0 <= i < |a|
      ensures Stays(a + b, i + 1, Key) <==> Stays(a, i + 1, Key) && Stays(b, 0, Key)
      ensures Provides(a + b, i, t, cached) <==> Provides(a, i, t, cached)
    {
      StaysConcat(a, b, i + 1, Key);
      ProvidesConcat(a, b, i, t, cached);
    }
    forall i | 0 <= i < |b|
      ensures Stays(a + b, |a| + i + 1, Key) <==> Stays(b, i + 1, Key)
      ensures Provides(a + b, |a| + i, t, cached) <==> Provides(b, i, t, late)
    {
      StaysConcat(a, b, i + 1, Key);
      ProvidesConcat(a, b, |a| + i, t, cached);
    }
    forall i | 0 <= i < |a + b| && Provides(a + b, i, t, cached) && Stays(a + b, i + 1, Key)
      ensures Stored(b, t, Stored(a, t, stored, cached), late)
    {
      if i >= |a| { assert Provides(b, i - |a|, t, late) && Stays(b, i - |a| + 1, Key); }
    }
    forall i | 0 <= i < |b| && Provides(b, i, t, late) && Stays(b, i + 1, Key) ensures Stored(a + b, t, stored, cached) {
      assert Provides(a + b, |a| + i, t, cached) && Stays(a + b, |a| + i + 1, Key);
    }
  }

  /** What the writes leave of the tenant's keys. */
  predicate KeyTraces(w: World, w': World, t: Tenant, ws: seq<Write>)
  {
    && (t in w'.cached <==> Present(ws, Aead, t, t in w.cached))
    && (w.deks.Some? ==> (!Clean(w'.deks, t) <==> Stored(ws, t, !Clean(w.deks, t), t in w.cached)))
    && (w'.deks.None? <==> w.deks.None?)
  }

  /** What they leave in one of the other stores. */
  ghost predicate PlaceTraces(w: World, w': World, t: Tenant, p: Place, ws: seq<Write>)
  {
    && (Stock(w', p).None? <==> Stock(w, p).None?)
    && (Stock(w, p).Some? ==> forall item :: Has(w', p, t, item) <==> Present(ws, Item(p, item), t, Has(w, p, t, item)))
  }

  lemma {:induction false} OneWrite(x: Write, m: Mark, t: Tenant, before: bool)
    ensures Present([x], m, t, before) <==> Adds(x, m, t) || (before && !Removes(x, m))
  {
    hide Adds, Removes;
    assert [x][0] == x;
    assert Stays([x], 1, m);
    if Adds(x, m, t) { assert Adds([x][0], m, t) && Stays([x], 0 + 1, m); }
  }

  lemma {:induction false} OneStored(x: Write, t: Tenant, stored: bool, cached: bool)
    ensures Stored([x], t, stored, cached) <==> x.Provision? || (IsToken(x, t) && !cached) || (stored && !x.Shred?)
  {
    assert [x][..0] == [] && [x][0] == x;
    assert Present([], Aead, t, cached) <==> cached;
    assert Stays([x], 1, Key);
    assert Provides([x], 0, t, cached) <==> x.Provision? || (IsToken(x, t) && !cached);
    hide Provides, IsToken;
    if Provides([x], 0, t, cached) { assert Provides([x], 0, t, cached) && Stays([x], 0 + 1, Key); }
  }

  lemma {:induction false} ProvisionedIs(deks: Option<Shelf>, t: Tenant)
    ensures deks.Some? ==> !Clean(Provisioned(deks, t), t)
    ensures deks.Some? ==> Clean(Swept(deks, t, Fine), t)
    ensures (Provisioned(deks, t).None? <==> deks.None?) && (Swept(deks, t, Fine).None? <==> deks.None?)
  {
    if deks.Some? && Clean(deks, t) { assert (t, "dek") in Added(deks, t, "dek").value; }
  }

  lemma {:induction false} WroteKeys(w: World, t: Tenant, x: Write)
    ensures KeyTraces(w, Wrote(w, t, x), t, [x])
  {
    OneWrite(x, Aead, t, t in w.cached);
    OneStored(x, t, !Clean(w.deks, t), t in w.cached);
    ProvisionedIs(w.deks, t);
    hide Clean, Provisioned, Swept, Do, Present, Stored, Added, Removed;
  }

  lemma {:induction false} WrotePlace(w: World, t: Tenant, x: Write, p: Place)
    ensures PlaceTraces(w, Wrote(w, t, x), t, p, [x])
  {
    var w' := Wrote(w, t, x);
    hide Do, Provisioned, Swept;
    if Stock(w, p).Some? {
      forall item ensures Has(w', p, t, item) <==> Present([x], Item(p, item), t, Has(w, p, t, item)) {
        OneWrite(x, Item(p, item), t, Has(w, p, t, item));
        hide Present;
      }
    }
  }

  lemma {:induction false} KeysConcat(w: World, w1: World, w2: World, t: Tenant, a: seq<Write>, b: seq<Write>)
    requires KeyTraces(w, w1, t, a) && KeyTraces(w1, w2, t, b)
    ensures KeyTraces(w, w2, t, a + b)
  {
    PresentConcat(a, b, Aead, t, t in w.cached);
    StoredConcat(a, b, t, !Clean(w.deks, t), t in w.cached);
    hide Present, Stored, Clean;
  }

  lemma {:induction false} PlaceConcat(w: World, w1: World, w2: World, t: Tenant, p: Place, a: seq<Write>, b: seq<Write>)
    requires PlaceTraces(w, w1, t, p, a) && PlaceTraces(w1, w2, t, p, b)
    ensures PlaceTraces(w, w2, t, p, a + b)
  {
    hide Present, Has;
    if Stock(w, p).Some? {
      forall item ensures Has(w2, p, t, item) <==> Present(a + b, Item(p, item), t, Has(w, p, t, item)) {
        PresentConcat(a, b, Item(p, item), t, Has(w, p, t, item));
      }
    }
  }

  lemma {:induction false} NoWrites(w: World, t: Tenant, p: Place)
    ensures KeyTraces(w, w, t, []) && PlaceTraces(w, w, t, p, [])
  {
    hide Clean, Has;
  }

  lemma {:induction false} RacedTraces(w: World, t: Tenant, ws: seq<Write>, p: Place)
    ensures KeyTraces(w, Raced(w, t, ws), t, ws) && PlaceTraces(w, Raced(w, t, ws), t, p, ws)
    decreases |ws|
  {
    hide KeyTraces, PlaceTraces, Wrote;
    if ws == [] {
      NoWrites(w, t, p);
    } else {
      var w1 := Wrote(w, t, ws[0]);
      WroteKeys(w, t, ws[0]);
      WrotePlace(w, t, ws[0], p);
      RacedTraces(w1, t, ws[1..], p);
      KeysConcat(w, w1, Raced(w, t, ws), t, [ws[0]], ws[1..]);
      PlaceConcat(w, w1, Raced(w, t, ws), t, p, [ws[0]], ws[1..]);
      assert [ws[0]] + ws[1..] == ws;
    }
  }

  lemma {:induction false} RacedConfigured(w: World, t: Tenant, ws: seq<Write>)
    ensures SameConfiguration(w, Raced(w, t, ws))
  {
    RacedTraces(w, t, ws, Vespa);
    RacedTraces(w, t, ws, Blobs);
    RacedTraces(w, t, ws, Redis);
    hide Raced, Present, Stored, Clean, Has;
  }
}
