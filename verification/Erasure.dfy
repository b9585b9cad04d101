/**
The GDPR erasure cascade: suspend, shred the key, purge Postgres, then Vespa,
blobs and cache, then verify.  Any call can fail, possibly half way, and the
tenant's traffic goes on between the steps; the cascade stops at a failure and
is meant to be run again.
*/
module Erasure {
  import opened Common
  import opened Store
  import opened MemStore
  import opened ErasureTraffic

  /** What stragglers write right after each step; the shred is a Delete and then a Forget. */
  datatype Races = Races(suspend: seq<Write>, delete: seq<Write>, shred: seq<Write>, purge: seq<Write>, vespa: seq<Write>, blobs: seq<Write>, cache: seq<Write>)

  /** What goes wrong in one attempt. */
  datatype Faults = Faults(suspend: bool, shred: Fault, purge: bool, vespa: Fault, blobs: Fault, cache: Fault, verify: bool, races: Races)

  const NO_RACE := Races([], [], [], [], [], [], [])
  const NO_FAULT := Faults(false, Fine, false, Fine, Fine, Fine, false, NO_RACE)

  datatype Report = Report(dekDestroyed: bool, instances: nat, tokens: nat, vespaPurged: bool, blobs: nat, redisPurged: bool, verifiedEmpty: bool)

  datatype Tally = Tally(dekDestroyed: bool, instances: nat, tokens: nat)

  /** Steps 0 to 2: suspend the connectors, shred the key, purge Postgres. */
  function Authoritative(w: World, t: Tenant, f: Faults, now: nat): (World, Option<Tally>)
  {
    if f.suspend then (w, None)
    else
      var suspended := Raced(w.(rows := Do(w.rows, SetStatus(t, "PAUSED", now))), t, f.races.suspend);
      var deleted := suspended.(deks := Swept(suspended.deks, t, f.shred));
      if Fails(suspended.deks, f.shred) then (deleted, None)
      else
        var raced := Raced(deleted, t, f.races.delete);
        var shredded := Raced(raced.(cached := raced.cached - {t}), t, f.races.shred);
        if f.purge then (shredded, None)
        else
          var purged := shredded.(rows := Do(shredded.rows, Op.Purge(t)));
          (Raced(purged, t, f.races.purge),
           Some(Tally(suspended.deks.Some?, |Owned(shredded.rows, t)|, |PurgedTokens(shredded.rows, t)|)))
  }

  /** Steps 3a to 3c: Vespa and blobs must succeed, the cache is best effort.  Whether they did. */
  function External(w: World, t: Tenant, f: Faults): (World, bool)
  {
    var v := w.(vespa := Swept(w.vespa, t, f.vespa));
    if Fails(w.vespa, f.vespa) then (v, false)
    else
      var v1 := Raced(v, t, f.races.vespa);
      var b := v1.(blobs := Swept(v1.blobs, t, f.blobs));
      if Fails(v1.blobs, f.blobs) then (b, false)
      else
        var b1 := Raced(b, t, f.races.blobs);
        (Raced(b1.(cache := Swept(b1.cache, t, f.cache)), t, f.races.cache), true)
  }

  /** The tenant's items on a shelf. */
  function Items(shelf: Option<Shelf>, t: Tenant): set<(Tenant, string)>
  {
    if shelf.None? then {} else set item | item in shelf.value && item.0 == t
  }

  /** What the blob purge finds. */
  function BlobsFound(w: World, t: Tenant, f: Faults): set<(Tenant, string)>
  {
    Items(Raced(w.(vespa := Swept(w.vespa, t, f.vespa)), t, f.races.vespa).blobs, t)
  }

  /** The world as the verification reads it, and the report, if any.  `valid` is the tenant id's syntax check. */
  function Cascade(w: World, t: Tenant, valid: bool, f: Faults, now: nat): (World, Option<Report>)
  {
    if t == "" || !valid then (w, None)
    else
      var (a, purge) := Authoritative(w, t, f, now);
      if purge.None? then (a, None)
      else
        var (e, ok) := External(a, t, f);
        if !ok || f.verify || !Empty(e.rows, t) then (e, None)
        else
          (e, Some(Report(purge.value.dekDestroyed, purge.value.instances, purge.value.tokens, a.vespa.Some?, |BlobsFound(a, t, f)|,
                          w.cache.Some? && f.cache.Fine?, !Fails(w.cache, f.cache))))
  }

  class ControlPlane {
    const store: MemStore
    var deks: Option<Shelf>
    var cached: set<Tenant>
    var vespa: Option<Shelf>
    var blobs: Option<Shelf>
    var cache: Option<Shelf>

    constructor (store: MemStore, deks: Option<Shelf>, vespa: Option<Shelf>, blobs: Option<Shelf>, cache: Option<Shelf>)
      ensures View() == World(store.Rows(), deks, {}, vespa, blobs, cache)
    {
      this.store, this.deks, this.cached := store, deks, {};
      this.vespa, this.blobs, this.cache := vespa, blobs, cache;
    }

    function View(): World
      reads this, store
    {
      World(store.Rows(), deks, cached, vespa, blobs, cache)
    }

    method Race(t: Tenant, ws: seq<Write>)
      modifies this, store
      ensures View() == Raced(old(View()), t, ws)
    {
      var w := Raced(View(), t, ws);
      store.tenants, store.instances, store.syncs, store.tokens := w.rows.tenants, w.rows.instances, w.rows.syncs, w.rows.tokens;
      store.prefs, store.weights, store.feedback := w.rows.prefs, w.rows.weights, w.rows.feedback;
      deks, cached, vespa, blobs, cache := w.deks, w.cached, w.vespa, w.blobs, w.cache;
    }

    /** Steps 0 to 2: suspend the connectors, shred the key, purge Postgres. */
    method PurgeAuthoritative(t: Tenant, f: Faults, now: nat) returns (r: Option<Tally>)
      modifies this, store
      ensures (View(), r) == Authoritative(old(View()), t, f, now)
    {
      hide Raced, Do, Swept, Owned, PurgedTokens;
      if f.suspend { return None; }
      var _ := store.SetTenantConnectorStatus(t, "PAUSED", now);
      Race(t, f.races.suspend);
      var dekDestroyed := false;
      if deks.Some? {
        deks := Swept(deks, t, f.shred);
        if f.shred.Broken? { return None; }
        dekDestroyed := true;
      } else {
        SweptNone(t, f.shred);
      }
      Race(t, f.races.delete);
      cached := cached - {t};
      Race(t, f.races.shred);
      if f.purge { return None; }
      var instances, tokens := store.PurgeTenant(t);
      Race(t, f.races.purge);
      r := Some(Tally(dekDestroyed, instances, tokens));
    }

    /** Steps 3a to 3c. */
    method PurgeStores(t: Tenant, f: Faults) returns (ok: bool, vespaPurged: bool, blobsDeleted: nat, redisPurged: bool, redisFailed: bool)
      modifies this, store
      ensures (View(), ok) == External(old(View()), t, f)
      ensures ok ==> vespaPurged == old(vespa).Some? && blobsDeleted == |BlobsFound(old(View()), t, f)|
      ensures ok ==> redisFailed == Fails(old(cache), f.cache) && redisPurged == (old(cache).Some? && f.cache.Fine?)
    {
      hide Raced, Swept;
      ghost var w := View();
      vespaPurged, blobsDeleted, redisPurged, redisFailed := false, 0, false, false;
      if vespa.Some? {
        vespa := Swept(vespa, t, f.vespa);
        if f.vespa.Broken? { ok := false; return; }
        vespaPurged := true;
      } else {
        SweptNone(t, f.vespa);
      }
      ghost var v := View();
      RacedConfigured(v, t, f.races.vespa);
      Race(t, f.races.vespa);
      if blobs.Some? {
        blobsDeleted := |Items(blobs, t)|;
        blobs := Swept(blobs, t, f.blobs);
        if f.blobs.Broken? { ok := false; return; }
      } else {
        SweptNone(t, f.blobs);
      }
      ghost var b := View();
      RacedConfigured(b, t, f.races.blobs);
      Race(t, f.races.blobs);
      if cache.Some? {
        cache := Swept(cache, t, f.cache);
        redisFailed := f.cache.Broken?;
        redisPurged := !redisFailed;
      } else {
        SweptNone(t, f.cache);
      }
      Race(t, f.races.cache);
      ok := true;
    }

    /** cascadeDelete. */
    method CascadeDelete(t: Tenant, valid: bool, f: Faults, now: nat) returns (r: Option<Report>)
      modifies this, store
      ensures (View(), r) == Cascade(old(View()), t, valid, f, now)
    {
      hide Authoritative, External, Empty;
      if t == "" || !valid { return None; }
      KeepsConfigured(View(), t, f, now);
      var tally := PurgeAuthoritative(t, f, now);
      if tally.None? { return None; }
      var ok, vespaPurged, blobsDeleted, redisPurged, redisFailed := PurgeStores(t, f);
      if !ok { return None; }
      if f.verify { return None; }
      var empty := store.TenantResidue(t);
      if !empty { return None; }
      r := Some(Report(tally.value.dekDestroyed, tally.value.instances, tally.value.tokens, vespaPurged, blobsDeleted, redisPurged, !redisFailed));
    }
  }

  lemma {:induction false} KeepsConfigured(w: World, t: Tenant, f: Faults, now: nat)
    ensures SameConfiguration(w, Authoritative(w, t, f, now).0)
  {
    hide Do, Raced, Owned, PurgedTokens, Swept;
    if !f.suspend {
      var paused := w.(rows := Do(w.rows, SetStatus(t, "PAUSED", now)));
      RacedConfigured(paused, t, f.races.suspend);
      var suspended := Raced(paused, t, f.races.suspend);
      SweptIs(suspended.deks, t, f.shred);
      var deleted := suspended.(deks := Swept(suspended.deks, t, f.shred));
      var raced := Raced(deleted, t, f.races.delete);
      RacedConfigured(deleted, t, f.races.delete);
      var forgot := raced.(cached := raced.cached - {t});
      var shredded := Raced(forgot, t, f.races.shred);
      RacedConfigured(forgot, t, f.races.shred);
      RacedConfigured(shredded.(rows := Do(shredded.rows, Op.Purge(t))), t, f.races.purge);
    }
  }

  // ---------------------------------------------------------------- other tenants

  lemma {:induction false} AuthoritativeSpares(w: World, t: Tenant, f: Faults, now: nat)
    requires Inv(w.rows)
    ensures Spares(w, Authoritative(w, t, f, now).0, t)
  {
    hide Spares, Inv, Raced, Do, Swept, Owned, PurgedTokens;
    SparesItself(w, t);
    if !f.suspend {
      var paused := w.(rows := Do(w.rows, SetStatus(t, "PAUSED", now)));
      OpSpares(w, SetStatus(t, "PAUSED", now));
      RaceSpares(w, w, paused, t, f.races.suspend);
      var suspended := Raced(paused, t, f.races.suspend);
      SweepSpares(suspended, t, f.shred);
      var deleted := suspended.(deks := Swept(suspended.deks, t, f.shred));
      RaceSpares(w, suspended, deleted, t, f.races.delete);
      if !Fails(suspended.deks, f.shred) {
        var raced := Raced(deleted, t, f.races.delete);
        SweepSpares(raced, t, Fine);
        var forgot := raced.(cached := raced.cached - {t});
        RaceSpares(w, raced, forgot, t, f.races.shred);
        var shredded := Raced(forgot, t, f.races.shred);
        OpSpares(shredded, Op.Purge(t));
        RaceSpares(w, shredded, shredded.(rows := Do(shredded.rows, Op.Purge(t))), t, f.races.purge);
      }
    }
  }

  lemma {:induction false} ExternalSpares(w: World, t: Tenant, f: Faults)
    requires Inv(w.rows)
    ensures Spares(w, External(w, t, f).0, t)
  {
    hide Spares, Inv, Raced, Swept;
    SparesItself(w, t);
    var v := w.(vespa := Swept(w.vespa, t, f.vespa));
    SweepSpares(w, t, f.vespa);
    RaceSpares(w, w, v, t, f.races.vespa);
    var v1 := Raced(v, t, f.races.vespa);
    var b := v1.(blobs := Swept(v1.blobs, t, f.blobs));
    SweepSpares(v1, t, f.blobs);
    RaceSpares(w, v1, b, t, f.races.blobs);
    var b1 := Raced(b, t, f.races.blobs);
    SweepSpares(b1, t, f.cache);
    RaceSpares(w, b1, b1.(cache := Swept(b1.cache, t, f.cache)), t, f.races.cache);
  }

  /** Whatever fails and whatever races, no other tenant loses or gains anything. */
  lemma {:induction false} CascadeSpares(w: World, t: Tenant, valid: bool, f: Faults, now: nat)
    requires Inv(w.rows)
    ensures Spares(w, Cascade(w, t, valid, f, now).0, t)
  {
    hide Spares, Inv, Authoritative, External, Empty;
    SparesItself(w, t);
    AuthoritativeSpares(w, t, f, now);
    var a := Authoritative(w, t, f, now).0;
    SparesInv(w, a, t);
    ExternalSpares(a, t, f);
    SparesTransitive(w, a, External(a, t, f).0, t);
  }

  // ---------------------------------------------------------------- what a report means

  /** The writes that come after a store's own step; the cascade's Forget is one of those after its Delete. */
  function AfterCache(r: Races): seq<Write> { r.cache }

  function AfterBlobs(r: Races): seq<Write> { r.blobs + r.cache }

  function AfterVespa(r: Races): seq<Write> { r.vespa + AfterBlobs(r) }

  function AfterForget(r: Races): seq<Write> { r.shred + (r.purge + AfterVespa(r)) }

  function AfterDelete(r: Races): seq<Write> { r.delete + ([Forget] + AfterForget(r)) }

  /** Whether the process has the tenant's key cached when the Delete happens. */
  predicate CachedAtDelete(w: World, t: Tenant, r: Races) { Present(r.suspend, Aead, t, t in w.cached) }

  /** After its step no write puts anything of the tenant into the place for good. */
  ghost predicate NothingIn(ws: seq<Write>, p: Place, t: Tenant) { forall item :: !Present(ws, Item(p, item), t, false) }

  /** No straggler left anything in a configured store after that store's step. */
  ghost predicate QuietStores(w: World, t: Tenant, r: Races)
  {
    && !Present(AfterForget(r), Aead, t, false)
    && (w.deks.Some? ==> !Stored(AfterDelete(r), t, false, CachedAtDelete(w, t, r)))
    && (w.vespa.Some? ==> NothingIn(AfterVespa(r), Vespa, t))
    && (w.blobs.Some? ==> NothingIn(AfterBlobs(r), Blobs, t))
  }

  ghost predicate Quiet(w: World, t: Tenant, r: Races)
  {
    QuietStores(w, t, r) && (w.cache.Some? ==> NothingIn(AfterCache(r), Redis, t))
  }

  /** From the Delete to the end of the purge, as far as keys go. */
  lemma {:induction false} AuthoritativeTraces(w: World, t: Tenant, f: Faults, now: nat)
    requires Authoritative(w, t, f, now).1.Some?
    ensures var a, r := Authoritative(w, t, f, now).0, f.races;
            && SameConfiguration(w, a)
            && (t in a.cached <==> Present(r.delete + ([Forget] + (r.shred + r.purge)), Aead, t, CachedAtDelete(w, t, r)))
            && (w.deks.Some? ==> (!Clean(a.deks, t) <==> Stored(r.delete + ([Forget] + (r.shred + r.purge)), t, false, CachedAtDelete(w, t, r))))
  {
    hide Do, Raced, Swept, Owned, PurgedTokens, Present, Stored, Clean, Has;
    var r := f.races;
    var paused := w.(rows := Do(w.rows, SetStatus(t, "PAUSED", now)));
    RacedTraces(paused, t, r.suspend, Vespa);
    var suspended := Raced(paused, t, r.suspend);
    var deleted := suspended.(deks := Swept(suspended.deks, t, f.shred));
    SweptIs(suspended.deks, t, f.shred);
    KeepsConfigured(w, t, f, now);
    var shredded := Raced(Wrote(Raced(deleted, t, r.delete), t, Forget), t, r.shred);
    var purged := shredded.(rows := Do(shredded.rows, Op.Purge(t)));
    KeysAfterDelete(deleted, t, r, purged);
    assert Authoritative(w, t, f, now).0 == Raced(purged, t, r.purge);
    hide Authoritative;
  }

  lemma {:induction false} KeysAfterDelete(deleted: World, t: Tenant, r: Races, purged: World)
    requires var shredded := Raced(Wrote(Raced(deleted, t, r.delete), t, Forget), t, r.shred); purged == shredded.(rows := purged.rows)
    ensures KeyTraces(deleted, Raced(purged, t, r.purge), t, r.delete + ([Forget] + (r.shred + r.purge)))
  {
    var raced := Raced(deleted, t, r.delete);
    var forgot := Wrote(raced, t, Forget);
    RacedTraces(deleted, t, r.delete, Vespa);
    WroteKeys(raced, t, Forget);
    RacedTraces(forgot, t, r.shred, Vespa);
    assert KeyTraces(forgot, purged, t, r.shred);
    hide Raced, Wrote, KeyTraces;
    RacedTraces(purged, t, r.purge, Vespa);
    var end := Raced(purged, t, r.purge);
    KeysConcat(forgot, purged, end, t, r.shred, r.purge);
    KeysConcat(raced, forgot, end, t, [Forget], r.shred + r.purge);
    KeysConcat(deleted, raced, end, t, r.delete, [Forget] + (r.shred + r.purge));
  }

  /** Clean means that nothing is there. */
  lemma {:induction false} CleanIs(w: World, p: Place, t: Tenant)
    ensures Clean(Stock(w, p), t) <==> forall item :: !Has(w, p, t, item)
  {
    if Stock(w, p).Some? && exists x :: x in Stock(w, p).value && x.0 == t {
      var x :| x in Stock(w, p).value && x.0 == t;
      assert Has(w, p, t, x.1);
    }
  }

  /** From a purge of the place on, only the writes since count. */
  lemma {:induction false} PlaceAfter(w: World, w': World, t: Tenant, p: Place, ws: seq<Write>)
    requires PlaceTraces(w, w', t, p, ws) && Clean(Stock(w, p), t)
    ensures Clean(Stock(w', p), t) <==> Stock(w, p).None? || NothingIn(ws, p, t)
  {
    CleanIs(w, p, t);
    CleanIs(w', p, t);
    hide Present, Clean, Has;
  }

  lemma {:induction false} ExternalTraces(w: World, t: Tenant, f: Faults)
    requires External(w, t, f).1
    ensures var e, r := External(w, t, f).0, f.races;
            && SameConfiguration(w, e)
            && KeyTraces(w, e, t, AfterVespa(r))
            && (Clean(e.vespa, t) <==> w.vespa.None? || NothingIn(AfterVespa(r), Vespa, t))
            && (Clean(e.blobs, t) <==> w.blobs.None? || NothingIn(AfterBlobs(r), Blobs, t))
            && (!Fails(w.cache, f.cache) ==> (Clean(e.cache, t) <==> w.cache.None? || NothingIn(AfterCache(r), Redis, t)))
  {
    var r := f.races;
    var v := w.(vespa := Swept(w.vespa, t, f.vespa));
    SweptIs(w.vespa, t, f.vespa);
    var v1 := Raced(v, t, r.vespa);
    RacedConfigured(v, t, r.vespa);
    var b := v1.(blobs := Swept(v1.blobs, t, f.blobs));
    SweptIs(v1.blobs, t, f.blobs);
    var b1 := Raced(b, t, r.blobs);
    RacedConfigured(b, t, r.blobs);
    var c := b1.(cache := Swept(b1.cache, t, f.cache));
    SweptIs(b1.cache, t, f.cache);
    var e := Raced(c, t, r.cache);
    RacedConfigured(c, t, r.cache);
    SweepTraces(w, v, v1, b, b1, c, e, t, r);
    hide Raced, Swept, Clean, KeyTraces, PlaceTraces, NothingIn;
    PlaceAfter(v, e, t, Vespa, AfterVespa(r));
    PlaceAfter(b, e, t, Blobs, AfterBlobs(r));
    if !Fails(w.cache, f.cache) { PlaceAfter(c, e, t, Redis, AfterCache(r)); }
  }

  /** Each purge touches one store; what the writes around it leave elsewhere adds up. */
  lemma {:induction false} SweepTraces(w: World, v: World, v1: World, b: World, b1: World, c: World, e: World, t: Tenant, r: Races)
    requires v == w.(vespa := v.vespa) && v1 == Raced(v, t, r.vespa)
    requires b == v1.(blobs := b.blobs) && b1 == Raced(b, t, r.blobs)
    requires c == b1.(cache := c.cache) && e == Raced(c, t, r.cache)
    ensures KeyTraces(w, e, t, AfterVespa(r)) && PlaceTraces(v, e, t, Vespa, AfterVespa(r))
    ensures PlaceTraces(b, e, t, Blobs, AfterBlobs(r)) && PlaceTraces(c, e, t, Redis, AfterCache(r))
  {
    RacedTraces(v, t, r.vespa, Vespa);
    RacedTraces(b, t, r.blobs, Vespa);
    RacedTraces(b, t, r.blobs, Blobs);
    RacedTraces(c, t, r.cache, Vespa);
    RacedTraces(c, t, r.cache, Blobs);
    RacedTraces(c, t, r.cache, Redis);
    assert KeyTraces(w, b, t, r.vespa) && KeyTraces(b, c, t, r.blobs);
    assert PlaceTraces(v, b, t, Vespa, r.vespa) && PlaceTraces(b, c, t, Vespa, r.blobs) && PlaceTraces(b, c, t, Blobs, r.blobs);
    hide Raced, KeyTraces, PlaceTraces;
    KeysConcat(b, c, e, t, r.blobs, r.cache);
    KeysConcat(w, b, e, t, r.vespa, AfterBlobs(r));
    PlaceConcat(b, c, e, t, Vespa, r.blobs, r.cache);
    PlaceConcat(v, b, e, t, Vespa, r.vespa, AfterBlobs(r));
    PlaceConcat(b, c, e, t, Blobs, r.blobs, r.cache);
  }

  lemma {:induction false} AfterDeleteIs(r: Races)
    ensures AfterDelete(r) == (r.delete + ([Forget] + (r.shred + r.purge))) + AfterVespa(r)
    ensures AfterDelete(r) == (r.delete + [Forget]) + AfterForget(r)
  {
    hide AfterVespa;
  }

  /** The cascade's own Forget: what was cached before does not matter. */
  lemma {:induction false} ForgetForgets(ws: seq<Write>, late: seq<Write>, t: Tenant, cached: bool)
    ensures Present((ws + [Forget]) + late, Aead, t, cached) <==> Present(late, Aead, t, false)
  {
    PresentConcat(ws + [Forget], late, Aead, t, cached);
    PresentConcat(ws, [Forget], Aead, t, cached);
    OneWrite(Forget, Aead, t, Present(ws, Aead, t, cached));
    hide Present;
  }

  /** Everything a report is about, store by store. */
  lemma {:induction false} ReportTraces(w: World, t: Tenant, valid: bool, f: Faults, now: nat)
    requires Inv(w.rows) && Cascade(w, t, valid, f, now).1.Some?
    ensures var (w', r) := Cascade(w, t, valid, f, now);
            && Gone(w'.rows, t)
            && (t in w'.cached <==> Present(AfterForget(f.races), Aead, t, false))
            && (Clean(w'.deks, t) <==> w.deks.None? || !Stored(AfterDelete(f.races), t, false, CachedAtDelete(w, t, f.races)))
            && (Clean(w'.vespa, t) <==> w.vespa.None? || NothingIn(AfterVespa(f.races), Vespa, t))
            && (Clean(w'.blobs, t) <==> w.blobs.None? || NothingIn(AfterBlobs(f.races), Blobs, t))
            && (!Fails(w.cache, f.cache) ==> (Clean(w'.cache, t) <==> w.cache.None? || NothingIn(AfterCache(f.races), Redis, t)))
            && (r.value.verifiedEmpty <==> !Fails(w.cache, f.cache))
  {
    var a := Authoritative(w, t, f, now).0;
    CascadeSpares(w, t, valid, f, now);
    var e := External(a, t, f).0;
    SparesInv(w, e, t);
    ResidueIsExact(e.rows, t);
    assert w.deks.None? ==> Clean(w.deks, t);
    hide Authoritative, External, Spares, Inv, Empty, Gone, Present, Stored, NothingIn;
    AuthoritativeTraces(w, t, f, now);
    ExternalTraces(a, t, f);
    var r := f.races;
    var c := CachedAtDelete(w, t, r);
    AfterDeleteIs(r);
    PresentConcat(r.delete + ([Forget] + (r.shred + r.purge)), AfterVespa(r), Aead, t, c);
    StoredConcat(r.delete + ([Forget] + (r.shred + r.purge)), AfterVespa(r), t, false, c);
    ForgetForgets(r.delete, AfterForget(r), t, c);
    hide Clean, AfterVespa, AfterDelete, AfterForget, CachedAtDelete;
  }

  /**
   * With VerifiedEmpty, the tenant is erased exactly when no straggler left
   * anything in a configured store, or the key in the cipher's cache, after
   * that store's step.
   */
  lemma {:induction false} VerifiedMeansErased(w: World, t: Tenant, valid: bool, f: Faults, now: nat)
    requires Inv(w.rows)
    ensures var (w', r) := Cascade(w, t, valid, f, now);
            r.Some? && r.value.verifiedEmpty ==> (Erased(w', t) <==> Quiet(w, t, f.races))
  {
    if Cascade(w, t, valid, f, now).1.Some? { ReportTraces(w, t, valid, f, now); }
    hide Cascade, Gone, Clean, Present, Stored, NothingIn, AfterForget, AfterDelete, AfterVespa, AfterBlobs, AfterCache, CachedAtDelete, Inv;
  }

  /** A report without it means that the cache purge failed, and says the same of the other stores. */
  lemma {:induction false} UnverifiedMeansCache(w: World, t: Tenant, valid: bool, f: Faults, now: nat)
    requires Inv(w.rows)
    ensures var (w', r) := Cascade(w, t, valid, f, now);
            r.Some? && !r.value.verifiedEmpty ==>
              w.cache.Some? && f.cache.Broken? && (Erased(w'.(cache := None), t) <==> QuietStores(w, t, f.races))
  {
    if Cascade(w, t, valid, f, now).1.Some? { ReportTraces(w, t, valid, f, now); }
    assert Clean(None, t);
    hide Cascade, Gone, Clean, Present, Stored, NothingIn, AfterForget, AfterDelete, AfterVespa, AfterBlobs, AfterCache, CachedAtDelete, Inv;
  }

  /** Exactly when there is a report: every call that had to succeed did, and the verification found no row. */
  lemma {:induction false} ReportExactly(w: World, t: Tenant, valid: bool, f: Faults, now: nat)
    requires Inv(w.rows)
    ensures var (w', r) := Cascade(w, t, valid, f, now);
            r.Some? <==>
              && t != "" && valid && !f.suspend && !Fails(w.deks, f.shred) && !f.purge
              && !Fails(w.vespa, f.vespa) && !Fails(w.blobs, f.blobs) && !f.verify && Gone(w'.rows, t)
  {
    var a := Authoritative(w, t, f, now).0;
    KeepsConfigured(w, t, f, now);
    CascadeSpares(w, t, valid, f, now);
    var w' := Cascade(w, t, valid, f, now).0;
    SparesInv(w, w', t);
    ResidueIsExact(w'.rows, t);
    AuthoritativeExactly(w, t, f, now);
    ExternalExactly(a, t, f);
    hide Authoritative, External, Spares, Inv, Empty, Gone;
  }

  lemma {:induction false} AuthoritativeExactly(w: World, t: Tenant, f: Faults, now: nat)
    ensures Authoritative(w, t, f, now).1.Some? <==> !f.suspend && !Fails(w.deks, f.shred) && !f.purge
  {
    RacedConfigured(w.(rows := Do(w.rows, SetStatus(t, "PAUSED", now))), t, f.races.suspend);
    hide Do, Raced, Swept;
  }

  lemma {:induction false} ExternalExactly(w: World, t: Tenant, f: Faults)
    ensures External(w, t, f).1 <==> !Fails(w.vespa, f.vespa) && !Fails(w.blobs, f.blobs)
  {
    hide Raced, Swept;
    RacedConfigured(w.(vespa := Swept(w.vespa, t, f.vespa)), t, f.races.vespa);
  }

  /** Without stragglers the key goes before any instance, and Postgres before the other stores. */
  ghost predicate InOrder(w: World, w': World, t: Tenant)
  {
    && (Owned(w'.rows, t) != Owned(w.rows, t) ==> Clean(w'.deks, t) && t !in w'.cached)
    && (w'.vespa != w.vespa || w'.blobs != w.blobs || w'.cache != w.cache ==> Gone(w'.rows, t) && Clean(w'.deks, t) && t !in w'.cached)
  }

  lemma {:induction false} CascadeInOrder(w: World, t: Tenant, valid: bool, f: Faults, now: nat)
    requires Inv(w.rows) && f.races == NO_RACE
    ensures InOrder(w, Cascade(w, t, valid, f, now).0, t)
    ensures Cascade(w, t, valid, f, now).1.Some? ==> Cascade(w, t, valid, f, now).1.value.instances == |Owned(w.rows, t)|
  {
    var (a, tally) := Authoritative(w, t, f, now);
    AuthoritativeInOrder(w, t, f, now);
    ExternalAlone(a, t, f);
    hide Authoritative, External, Empty, Gone, Clean, Owned, Inv;
  }

  /** Without stragglers the external steps leave Postgres and the keys alone. */
  lemma {:induction false} ExternalAlone(w: World, t: Tenant, f: Faults)
    requires f.races.vespa == f.races.blobs == f.races.cache == []
    ensures var e := External(w, t, f).0; e.rows == w.rows && e.deks == w.deks && e.cached == w.cached
  {
    hide Swept;
  }

  lemma {:induction false} AuthoritativeInOrder(w: World, t: Tenant, f: Faults, now: nat)
    requires Inv(w.rows) && f.races == NO_RACE
    ensures var (a, tally) := Authoritative(w, t, f, now);
            && a.vespa == w.vespa && a.blobs == w.blobs && a.cache == w.cache
            && (Owned(a.rows, t) != Owned(w.rows, t) ==> Clean(a.deks, t) && t !in a.cached)
            && (tally.Some? ==> Gone(a.rows, t) && Clean(a.deks, t) && t !in a.cached && tally.value.instances == |Owned(w.rows, t)|)
  {
    var suspended := Do(w.rows, SetStatus(t, "PAUSED", now));
    OpIsSafe(w.rows, SetStatus(t, "PAUSED", now));
    SafeIsInv(t, w.rows, suspended);
    StatusOwns(w.rows, SetStatus(t, "PAUSED", now), t);
    PurgeLeavesNothing(suspended, t);
    assert Do(suspended, Op.Purge(t)) == Purged(suspended, t);
    SweptIs(w.deks, t, f.shred);
    hide Do, Purged, Gone, Clean, Owned, Swept, Inv, Safe;
  }

  // ---------------------------------------------------------------- the suspension and the report's figures

  ghost predicate AllPaused(s: Rows, t: Tenant)
  {
    forall id :: Owns(s, t, id) ==> s.instances[id].status == "PAUSED"
  }

  /** No straggler creates a connector or sets a status. */
  predicate LeavesStatus(ws: seq<Write>)
  {
    forall i :: 0 <= i < |ws| ==> !(ws[i].Rpc? && (ws[i].op.Create? || ws[i].op.SetStatus?))
  }

  lemma {:induction false} OpKeepsPaused(s: Rows, op: Op, t: Tenant)
    requires AllPaused(s, t) && !op.Create? && !op.SetStatus?
    ensures AllPaused(Do(s, op), t)
  {
  }

  lemma {:induction false} RacedKeepsPaused(w: World, t: Tenant, ws: seq<Write>)
    requires AllPaused(w.rows, t) && LeavesStatus(ws)
    ensures AllPaused(Raced(w, t, ws).rows, t)
    decreases |ws|
  {
    if ws != [] {
      var w1 := Wrote(w, t, ws[0]);
      assert AllPaused(w1.rows, t) by {
        if ws[0].Rpc? { OpKeepsPaused(w.rows, ws[0].op, t); }
        hide Do, AllPaused, Swept;
      }
      assert forall i :: 0 <= i < |ws[1..]| ==> ws[1..][i] == ws[i + 1];
      hide AllPaused, Wrote;
      RacedKeepsPaused(w1, t, ws[1..]);
    }
  }

  /** What the purge of Postgres finds: the world a cascade leaves when that purge fails. */
  function BeforePurge(w: World, t: Tenant, f: Faults, now: nat): World
  {
    Authoritative(w, t, f.(purge := true), now).0
  }

  /** Past the suspension, and unless stragglers interfere, every connector is paused by the time the key is shredded and the rows are purged. */
  lemma {:induction false} PausedBeforePurge(w: World, t: Tenant, f: Faults, now: nat)
    requires !f.suspend && LeavesStatus(f.races.suspend) && LeavesStatus(f.races.delete) && LeavesStatus(f.races.shred)
    ensures AllPaused(BeforePurge(w, t, f, now).rows, t)
    ensures Fails(w.deks, f.shred) ==> AllPaused(Authoritative(w, t, f, now).0.rows, t)
  {
    var paused := w.(rows := Do(w.rows, SetStatus(t, "PAUSED", now)));
    assert AllPaused(paused.rows, t);
    RacedKeepsPaused(paused, t, f.races.suspend);
    RacedConfigured(paused, t, f.races.suspend);
    var suspended := Raced(paused, t, f.races.suspend);
    var deleted := suspended.(deks := Swept(suspended.deks, t, f.shred));
    RacedKeepsPaused(deleted, t, f.races.delete);
    var raced := Raced(deleted, t, f.races.delete);
    RacedKeepsPaused(raced.(cached := raced.cached - {t}), t, f.races.shred);
    hide Do, Raced, AllPaused, Swept, Owned, PurgedTokens;
  }

  /** The tokens of a tenant. */
  function TokensOf(s: Rows, t: Tenant): set<string> { set id | id in s.tokens && s.tokens[id].tenant == t }

  /**
   * What the report's figures say: a flag is set exactly when its store is
   * configured and its purge did not fail, and the counts are of the rows and
   * blobs the purges found.
   */
  lemma {:induction false} ReportFigures(w: World, t: Tenant, valid: bool, f: Faults, now: nat)
    requires Inv(w.rows) && Cascade(w, t, valid, f, now).1.Some?
    ensures var r, p := Cascade(w, t, valid, f, now).1.value, BeforePurge(w, t, f, now);
            && (r.dekDestroyed <==> w.deks.Some? && f.shred.Fine?)
            && r.instances == |Owned(p.rows, t)| && r.tokens == |TokensOf(p.rows, t)|
            && (r.vespaPurged <==> w.vespa.Some? && f.vespa.Fine?)
            && (r.redisPurged <==> w.cache.Some? && f.cache.Fine?)
            && (r.verifiedEmpty <==> w.cache.None? || f.cache.Fine?)
  {
    KeepsConfigured(w, t, f, now);
    ReportExactly(w, t, valid, f, now);
    PurgeFinds(w, t, f, now);
    hide Authoritative, External, BeforePurge, BlobsFound, Gone, Inv, Empty, TokensOf, Owned;
  }

  lemma {:induction false} PurgeFinds(w: World, t: Tenant, f: Faults, now: nat)
    requires Inv(w.rows) && Authoritative(w, t, f, now).1.Some?
    ensures var (a, tally) := Authoritative(w, t, f, now); var p := BeforePurge(w, t, f, now);
            && a == Raced(p.(rows := Purged(p.rows, t)), t, f.races.purge)
            && tally.value == Tally(w.deks.Some?, |Owned(p.rows, t)|, |TokensOf(p.rows, t)|)
  {
    var p := BeforePurge(w, t, f, now);
    AuthoritativeSpares(w, t, f.(purge := true), now);
    SparesInv(w, p, t);
    RacedConfigured(w.(rows := Do(w.rows, SetStatus(t, "PAUSED", now))), t, f.races.suspend);
    assert Do(p.rows, Op.Purge(t)) == Purged(p.rows, t);
    assert PurgedTokens(p.rows, t) == TokensOf(p.rows, t);
    hide Do, Raced, Swept, Owned, PurgedTokens, TokensOf, Inv, Spares, Purged;
  }

  /** Without stragglers the counts are of what the tenant had. */
  lemma {:induction false} UndisturbedFigures(w: World, t: Tenant, valid: bool, f: Faults, now: nat)
    requires Inv(w.rows) && f.races == NO_RACE && Cascade(w, t, valid, f, now).1.Some?
    ensures var r := Cascade(w, t, valid, f, now).1.value;
            && r.instances == |set id | id in w.rows.instances && w.rows.instances[id].tenant == t|
            && r.tokens == |set id | id in w.rows.tokens && w.rows.tokens[id].tenant == t|
            && r.blobs == if w.blobs.None? then 0 else |set item | item in w.blobs.value && item.0 == t|
  {
    ReportFigures(w, t, valid, f, now);
    var p := BeforePurge(w, t, f, now);
    StatusOwns(w.rows, SetStatus(t, "PAUSED", now), t);
    assert p.rows == Do(w.rows, SetStatus(t, "PAUSED", now)) && p.rows.tokens == w.rows.tokens;
    AuthoritativeInOrder(w, t, f, now);
    var a := Authoritative(w, t, f, now).0;
    assert BlobsFound(a, t, f) == Items(w.blobs, t);
    assert TokensOf(p.rows, t) == TokensOf(w.rows, t);
    assert TokensOf(w.rows, t) == set id | id in w.rows.tokens && w.rows.tokens[id].tenant == t;
    assert Owned(w.rows, t) == set id | id in w.rows.instances && w.rows.instances[id].tenant == t;
    assert w.blobs.Some? ==> Items(w.blobs, t) == set item | item in w.blobs.value && item.0 == t;
    hide BeforePurge, Authoritative, External, Do, Items, BlobsFound, Gone, Empty, Inv, Owned, TokensOf;
  }

  /** An attempt without faults and stragglers erases the tenant and says so. */
  lemma {:induction false} FaultlessErases(w: World, t: Tenant, now: nat)
    requires Inv(w.rows) && t != ""
    ensures var (w', r) := Cascade(w, t, true, NO_FAULT, now); Erased(w', t) && r.Some? && r.value.verifiedEmpty
  {
    var (w', r) := Cascade(w, t, true, NO_FAULT, now);
    var a := Authoritative(w, t, NO_FAULT, now).0;
    AuthoritativeExactly(w, t, NO_FAULT, now);
    AuthoritativeInOrder(w, t, NO_FAULT, now);
    ExternalExactly(a, t, NO_FAULT);
    ExternalAlone(a, t, NO_FAULT);
    ReportExactly(w, t, true, NO_FAULT, now);
    VerifiedMeansErased(w, t, true, NO_FAULT, now);
    assert r.Some? by { hide Authoritative, External, Gone, Empty, Inv; }
    ReportTraces(w, t, true, NO_FAULT, now);
  }

  /** One PutToken for an instance that is gone by the time Postgres has been purged. */
  function LateToken(t: Tenant, id: string, c: seq<bv8>): Faults
  {
    NO_FAULT.(races := NO_RACE.(purge := [Rpc(Op.PutToken(t, id, c))]))
  }

  /**
   * VerifiedEmpty alone does not mean erased.  A PutToken that encrypts after
   * the shred provisions a new key; its store call then finds no instance, so
   * the verification, which reads Postgres only, sees nothing.
   */
  lemma {:induction false} LateTokenLeavesAKey(w: World, t: Tenant, id: string, c: seq<bv8>, now: nat)
    requires Inv(w.rows) && t != "" && w.deks.Some?
    ensures var (w', r) := Cascade(w, t, true, LateToken(t, id, c), now);
            r.Some? && r.value.verifiedEmpty && Gone(w'.rows, t) && !Clean(w'.deks, t) && t in w'.cached && !Erased(w', t)
  {
    var f := LateToken(t, id, c);
    var (w', r) := Cascade(w, t, true, f, now);
    var (a, tally) := Authoritative(w, t, f, now);
    AuthoritativeExactly(w, t, f, now);
    LateTokenChangesNoRow(w, t, id, c, now);
    ExternalAlone(a, t, f);
    ExternalExactly(a, t, f);
    ReportExactly(w, t, true, f, now);
    assert r.Some? by { hide Authoritative, External, Gone, Empty, Inv; }
    ReportTraces(w, t, true, f, now);
    LateTokenProvides(t, id, c, CachedAtDelete(w, t, f.races));
  }

  /** A connector created after the purge. */
  function LateConnector(t: Tenant, inst: Instance, id: string, now: nat): Faults
  {
    NO_FAULT.(races := NO_RACE.(purge := [Rpc(Create(t, inst, 0, id, now))]))
  }

  /** Rows that appear after the purge are noticed: the cascade then reports nothing. */
  lemma {:induction false} LateConnectorIsNoticed(w: World, t: Tenant, inst: Instance, id: string, now: nat)
    requires Inv(w.rows) && inst.tenant == t && id !in w.rows.instances
    ensures Cascade(w, t, true, LateConnector(t, inst, id, now), now).1.None?
  {
    var f := LateConnector(t, inst, id, now);
    var a := Authoritative(w, t, f, now).0;
    ReportExactly(w, t, true, f, now);
    if Cascade(w, t, true, f, now).1.Some? {
      LateConnectorStays(w, t, inst, id, now);
      ExternalAlone(a, t, f);
      hide Authoritative, External, Inv;
      assert false;
    }
  }

  lemma {:induction false} LateConnectorStays(w: World, t: Tenant, inst: Instance, id: string, now: nat)
    requires Inv(w.rows) && inst.tenant == t && id !in w.rows.instances
    requires Authoritative(w, t, LateConnector(t, inst, id, now), now).1.Some?
    ensures Owns(Authoritative(w, t, LateConnector(t, inst, id, now), now).0.rows, t, id)
  {
    var f := LateConnector(t, inst, id, now);
    PurgeFinds(w, t, f, now);
    var p := BeforePurge(w, t, f, now);
    assert p.rows == Do(w.rows, SetStatus(t, "PAUSED", now));
    var purged := p.(rows := Purged(p.rows, t));
    assert id !in purged.rows.instances;
    hide BeforePurge, Authoritative, Purged;
    CreateReads(purged.rows, inst, 0, id, now, id);
    hide Do, Owned;
  }

  lemma {:induction false} LateTokenProvides(t: Tenant, id: string, c: seq<bv8>, cached: bool)
    ensures var r := LateToken(t, id, c).races;
            Present(AfterForget(r), Aead, t, false) && Stored(AfterDelete(r), t, false, cached)
  {
    var r := LateToken(t, id, c).races;
    var late := Rpc(Op.PutToken(t, id, c));
    assert AfterForget(r) == [late];
    assert AfterDelete(r) == [Forget] + [late];
    OneWrite(late, Aead, t, false);
    OneWrite(Forget, Aead, t, cached);
    StoredConcat([Forget], [late], t, false, cached);
    OneStored(late, t, Stored([Forget], t, false, cached), false);
    hide Present, Stored;
  }

  lemma {:induction false} LateTokenChangesNoRow(w: World, t: Tenant, id: string, c: seq<bv8>, now: nat)
    requires Inv(w.rows) && t != ""
    ensures Gone(Authoritative(w, t, LateToken(t, id, c), now).0.rows, t)
  {
    var suspended := Do(w.rows, SetStatus(t, "PAUSED", now));
    OpIsSafe(w.rows, SetStatus(t, "PAUSED", now));
    SafeIsInv(t, w.rows, suspended);
    PurgeLeavesNothing(suspended, t);
    var purged := Purged(suspended, t);
    assert Do(suspended, Op.Purge(t)) == purged;
    assert Do(purged, Op.PutToken(t, id, c)) == purged;
    hide Purged, Gone, Owned, Inv, Safe, Swept, Do, PurgedTokens;
    var ws := [Rpc(Op.PutToken(t, id, c))];
    var deleted := w.(rows := suspended, deks := Swept(w.deks, t, Fine));
    assert Raced(deleted, t, []) == deleted;
    var forgot := deleted.(cached := deleted.cached - {t});
    assert Raced(forgot, t, []) == forgot;
    var x := forgot.(rows := purged);
    assert ws[0] == Rpc(Op.PutToken(t, id, c)) && ws[1..] == [];
    assert Wrote(x, t, ws[0]).rows == purged;
    assert Raced(x, t, ws) == Raced(Wrote(x, t, ws[0]), t, []) == Wrote(x, t, ws[0]);
    assert Authoritative(w, t, LateToken(t, id, c), now).0 == Raced(x, t, ws);
  }

  /** One PutToken between the Delete and the Forget. */
  function EarlyToken(t: Tenant, id: string, c: seq<bv8>): Faults
  {
    NO_FAULT.(races := NO_RACE.(delete := [Rpc(Op.PutToken(t, id, c))]))
  }

  /**
   * Not every straggler does harm: one that finds the key cached provisions
   * none, the Forget drops the cached key and the purge drops the token.
   */
  lemma {:induction false} CachedTokenIsHarmless(w: World, t: Tenant, id: string, c: seq<bv8>, now: nat)
    requires Inv(w.rows) && t != "" && t in w.cached
    ensures var (w', r) := Cascade(w, t, true, EarlyToken(t, id, c), now); r.Some? && r.value.verifiedEmpty && Erased(w', t)
  {
    var f := EarlyToken(t, id, c);
    var (w', r) := Cascade(w, t, true, f, now);
    var a := Authoritative(w, t, f, now).0;
    AuthoritativeExactly(w, t, f, now);
    PurgedAtTheEnd(w, t, f, now);
    ExternalAlone(a, t, f);
    ExternalExactly(a, t, f);
    ReportExactly(w, t, true, f, now);
    assert r.Some? by { hide Authoritative, External, Gone, Empty, Inv; }
    ReportTraces(w, t, true, f, now);
    VerifiedMeansErased(w, t, true, f, now);
    EarlyTokenIsQuiet(w, t, id, c);
    hide Cascade, Erased, Quiet, Inv;
  }

  lemma {:induction false} PurgedAtTheEnd(w: World, t: Tenant, f: Faults, now: nat)
    requires Inv(w.rows) && t != "" && Authoritative(w, t, f, now).1.Some? && f.races.purge == []
    ensures Gone(Authoritative(w, t, f, now).0.rows, t)
  {
    var paused := w.(rows := Do(w.rows, SetStatus(t, "PAUSED", now)));
    OpSpares(w, SetStatus(t, "PAUSED", now));
    SparesInv(w, paused, t);
    RacedSpares(paused, t, f.races.suspend);
    var suspended := Raced(paused, t, f.races.suspend);
    var deleted := suspended.(deks := Swept(suspended.deks, t, f.shred));
    RacedSpares(deleted, t, f.races.delete);
    var raced := Raced(deleted, t, f.races.delete);
    var forgot := raced.(cached := raced.cached - {t});
    RacedSpares(forgot, t, f.races.shred);
    var shredded := Raced(forgot, t, f.races.shred);
    PurgeLeavesNothing(shredded.rows, t);
    assert Do(shredded.rows, Op.Purge(t)) == Purged(shredded.rows, t);
    hide Do, Purged, Gone, Inv, Swept, Spares, Owned, PurgedTokens;
  }

  lemma {:induction false} EarlyTokenIsQuiet(w: World, t: Tenant, id: string, c: seq<bv8>)
    requires t in w.cached
    ensures Quiet(w, t, EarlyToken(t, id, c).races)
  {
    var r := EarlyToken(t, id, c).races;
    var token := Rpc(Op.PutToken(t, id, c));
    assert AfterForget(r) == [];
    assert AfterDelete(r) == [token] + [Forget];
    assert CachedAtDelete(w, t, r);
    StoredConcat([token], [Forget], t, false, true);
    OneStored(token, t, false, true);
    OneStored(Forget, t, false, Present([token], Aead, t, true));
    hide Stored;
  }

  // ---------------------------------------------------------------- every sequence of attempts

  /** Attempts on one tenant, each failing and racing in its own way, with the tenant's traffic going on in between. */
  ghost predicate IsRun(worlds: seq<World>, t: Tenant, faults: seq<Faults>, between: seq<seq<Write>>, nows: seq<nat>)
  {
    && |worlds| == |faults| == |between| == |nows| > 0
    && Inv(worlds[0].rows)
    && forall i :: 0 < i < |worlds| ==> worlds[i] == Cascade(Raced(worlds[i - 1], t, between[i]), t, true, faults[i], nows[i]).0
  }

  /** However the attempts went, the other tenants are as they were. */
  lemma {:induction false} OthersAreSpared(worlds: seq<World>, t: Tenant, faults: seq<Faults>, between: seq<seq<Write>>, nows: seq<nat>, n: nat)
    requires IsRun(worlds, t, faults, between, nows) && n < |worlds|
    ensures Spares(worlds[0], worlds[n], t) && Inv(worlds[n].rows)
    decreases n
  {
    hide Spares, Inv, Cascade, Raced;
    if n == 0 {
      SparesItself(worlds[0], t);
    } else {
      OthersAreSpared(worlds, t, faults, between, nows, n - 1);
      var w := Raced(worlds[n - 1], t, between[n]);
      RacedSpares(worlds[n - 1], t, between[n]);
      SparesTransitive(worlds[0], worlds[n - 1], w, t);
      CascadeSpares(w, t, true, faults[n], nows[n]);
      SparesTransitive(worlds[0], w, worlds[n], t);
      SparesInv(worlds[0], worlds[n], t);
    }
  }

  /**
   * Any number of attempts failing in any way, with traffic in between, then one
   * without fault and straggler: the tenant is erased everywhere, and no other
   * tenant has lost or gained anything.
   */
  lemma {:induction false} RetriedErasureConverges(worlds: seq<World>, t: Tenant, faults: seq<Faults>, between: seq<seq<Write>>, nows: seq<nat>)
    requires IsRun(worlds, t, faults, between, nows) && t != "" && |worlds| > 1 && faults[|worlds| - 1] == NO_FAULT
    ensures Erased(worlds[|worlds| - 1], t) && Spares(worlds[0], worlds[|worlds| - 1], t)
  {
    hide Spares, Inv, Cascade, Erased;
    var n := |worlds| - 1;
    OthersAreSpared(worlds, t, faults, between, nows, n - 1);
    OthersAreSpared(worlds, t, faults, between, nows, n);
    RacedSpares(worlds[n - 1], t, between[n]);
    FaultlessErases(Raced(worlds[n - 1], t, between[n]), t, nows[n]);
  }
}
