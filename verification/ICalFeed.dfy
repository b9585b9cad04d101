/**
Syncing a calendar feed.  Every sync fetches the whole feed; an incremental
sync emits only the difference to what the cursor remembers of the last one,
and should leave the index as if the latest feed had been indexed afresh.
Several events of a feed may share a uid (a recurring event and its overrides).
*/
module ICalFeed {
  import opened Common
  import opened Documents
  import opened ICalParse
  import opened ICalEvent
  import opened StringOrder

  function EventDocument(clock: Clock, ev: VEvent): Doc<Page>
  {
    if Canceled(ev) then Tombstone(Uid(ev)) else Upsert(Uid(ev), Rendered(clock, ev))
  }

  // ---------------------------------------------------------------- the index

  /** The last event with uid `u` in the feed. */
  function Last(events: seq<VEvent>, u: string): Option<VEvent>
  {
    if events == [] then None
    else
      var n := |events| - 1;
      if Uid(events[n]) == u then Some(events[n]) else Last(events[..n], u)
  }

  /** An event without a uid is not tracked. */
  function At(events: seq<VEvent>, u: string): Option<VEvent> { if u == "" then None else Last(events, u) }

  /** What indexing the feed afresh says about `u`: the last event with that uid decides. */
  function Expected(clock: Clock, events: seq<VEvent>, u: string): Option<Page>
  {
    match At(events, u) case Some(ev) => Shown(clock, ev) case None => None
  }

  ghost predicate IsImage(clock: Clock, ix: Index<Page>, events: seq<VEvent>)
  {
    forall u :: Lookup(ix, u) == Expected(clock, events, u)
  }

  // ---------------------------------------------------------------- the cursor

  /** `hash` stands for the SHA-256 of the body, free of collisions. */
  datatype Cursor = Cursor(hash: string, maxDtstamp: string, events: map<string, Etag>)

  function EtagsOf(events: seq<VEvent>): map<string, Etag>
  {
    if events == [] then map[]
    else
      var n := |events| - 1;
      var rest := EtagsOf(events[..n]);
      if Uid(events[n]) == "" then rest else rest[Uid(events[n]) := VersionEtag(events[n])]
  }

  function LatestStamp(events: seq<VEvent>): string
  {
    if events == [] then ""
    else
      var n := |events| - 1;
      var rest := LatestStamp(events[..n]);
      if Uid(events[n]) != "" && Less(rest, Dtstamp(events[n])) then Dtstamp(events[n]) else rest
  }

  function CursorOf(body: string, events: seq<VEvent>): Cursor
  {
    Cursor(body, LatestStamp(events), EtagsOf(events))
  }

  method BuildCursorState(body: string, events: seq<VEvent>) returns (cur: Cursor)
    ensures cur == CursorOf(body, events)
  {
    hide Uid, VersionEtag, Dtstamp, Less;
    var etags: map<string, Etag>, stamp := map[], "";
    assert events[..0] == [];
    for i := 0 to |events|
      invariant etags == EtagsOf(events[..i]) && stamp == LatestStamp(events[..i])
    {
      assert events[..i + 1][..i] == events[..i];
      var uid := Uid(events[i]);
      if uid == "" { continue; }
      etags := etags[uid := VersionEtag(events[i])];
      if Less(stamp, Dtstamp(events[i])) { stamp := Dtstamp(events[i]); }
    }
    assert events[..|events|] == events;
    cur := Cursor(body, stamp, etags);
  }

  // ---------------------------------------------------------------- what is emitted

  /** An incremental sync stays silent about a live event whose etag the cursor already has. */
  predicate Silent(prev: map<string, Etag>, ev: VEvent)
  {
    !Canceled(ev) && Uid(ev) in prev && prev[Uid(ev)] == VersionEtag(ev)
  }

  function EventDocs(clock: Clock, prev: map<string, Etag>, events: seq<VEvent>): seq<Doc<Page>>
  {
    if events == [] then []
    else
      var n := |events| - 1;
      EventDocs(clock, prev, events[..n])
      + if Uid(events[n]) == "" || Silent(prev, events[n]) then [] else [EventDocument(clock, events[n])]
  }

  lemma {:induction false} EventDocsPrefix(clock: Clock, prev: map<string, Etag>, events: seq<VEvent>, i: nat)
    requires i <= |events|
    ensures EventDocs(clock, prev, events[..i]) <= EventDocs(clock, prev, events)
    decreases |events|
  {
    hide Uid, Silent, EventDocument;
    var n := |events| - 1;
    if i <= n {
      assert events[..n][..i] == events[..i];
      EventDocsPrefix(clock, prev, events[..n], i);
    } else {
      assert events[..i] == events;
    }
  }

  /** Exactly the cursor's uids that the feed no longer has. */
  ghost predicate AreGone(uids: seq<string>, prev: map<string, Etag>, events: seq<VEvent>)
  {
    forall u :: u in uids <==> u in prev && At(events, u).None?
  }

  function Diff(clock: Clock, prev: map<string, Etag>, events: seq<VEvent>, gone: seq<string>): seq<Doc<Page>>
  {
    EventDocs(clock, prev, events) + Tombstones(gone)
  }

  /** Which calls of a pass fail: the check before the i-th event, its emission, a vanished uid's tombstone, the checkpoint. */
  datatype Faults = Faults(halt: nat -> bool, emit: nat -> bool, bury: string -> bool, save: bool)

  /** The pass does not get past the i-th event. */
  predicate Hindered(f: Faults, prev: map<string, Etag>, events: seq<VEvent>, i: nat)
    requires i < |events|
  {
    f.halt(i) || (Uid(events[i]) != "" && !Silent(prev, events[i]) && f.emit(i))
  }

  /** `k` is where the loop over the events stops: at the first it does not get past, or at the end. */
  predicate StopsAt(f: Faults, prev: map<string, Etag>, events: seq<VEvent>, k: nat)
  {
    k <= |events| && (forall i :: 0 <= i < k ==> !Hindered(f, prev, events, i)) && (k < |events| ==> Hindered(f, prev, events, k))
  }

  lemma {:induction false} Stops(f: Faults, prev: map<string, Etag>, events: seq<VEvent>, from: nat) returns (k: nat)
    requires from <= |events| && forall i :: 0 <= i < from ==> !Hindered(f, prev, events, i)
    ensures StopsAt(f, prev, events, k)
    decreases |events| - from
  {
    hide Hindered;
    k := from;
    if from < |events| && !Hindered(f, prev, events, from) { k := Stops(f, prev, events, from + 1); }
  }

  /**
   * FullSync: one document per event with a uid, up to the first call that
   * fails; the cursor once nothing failed.
   */
  method FullSync(clock: Clock, body: string, f: Faults) returns (ok: bool, emitted: seq<Doc<Page>>, cur: Cursor)
    ensures var events := EventsOfBody(body);
            exists k: nat :: StopsAt(f, map[], events, k) && emitted == EventDocs(clock, map[], events[..k]) && (ok <==> k == |events| && !f.save)
    ensures ok ==> emitted == EventDocs(clock, map[], EventsOfBody(body)) && cur == CursorOf(body, EventsOfBody(body))
    ensures !ok ==> cur == Cursor("", "", map[])
  {
    var events := ParseEvents(body);
    ghost var k := Stops(f, map[], events, 0);
    assert events[..|events|] == events;
    hide EventsOfBody, CursorOf, StopsAt, EventDocs;
    cur := Cursor("", "", map[]);
    var present;
    ok, emitted, present := Changed(clock, map[], events, f);
    if !ok { return; }
    if f.save { return false, emitted, cur; }
    cur := BuildCursorState(body, events);
  }

  method SortedUids(m: map<string, Etag>) returns (uids: seq<string>)
    ensures IsSorted(uids) && forall u :: u in uids <==> u in m
  {
    uids := [];
    var rest := m.Keys;
    while rest != {}
      invariant rest <= m.Keys && forall u :: u in uids <==> u in m && u !in rest
      decreases |rest|
    {
      var u :| u in rest;
      uids := uids + [u];
      rest := rest - {u};
    }
    SortSorts(uids);
    assert forall u :: u in uids <==> u in multiset(uids);
    uids := Sort(uids);
    assert forall u :: u in uids <==> u in multiset(uids);
  }

  /** The uids not in `present`, in order. */
  function Missing(uids: seq<string>, present: set<string>): seq<string>
  {
    if uids == [] then []
    else Missing(uids[..|uids| - 1], present) + if uids[|uids| - 1] in present then [] else [uids[|uids| - 1]]
  }

  lemma {:induction false} MissingIs(uids: seq<string>, present: set<string>, u: string)
    ensures u in Missing(uids, present) <==> u in uids && u !in present
  {
    if uids != [] {
      var n := |uids| - 1;
      MissingIs(uids[..n], present, u);
      assert uids == uids[..n] + [uids[n]];
    }
  }

  lemma {:induction false} MissingPrefix(uids: seq<string>, present: set<string>, i: nat)
    requires i <= |uids|
    ensures Missing(uids[..i], present) <= Missing(uids, present)
    decreases |uids|
  {
    var n := |uids| - 1;
    if i <= n {
      assert uids[..n][..i] == uids[..i];
      MissingPrefix(uids[..n], present, i);
    } else {
      assert uids[..i] == uids;
    }
  }

  lemma {:induction false} MissingNext(uids: seq<string>, present: set<string>, i: nat)
    requires i < |uids|
    ensures uids[i] in present ==> Missing(uids[..i + 1], present) == Missing(uids[..i], present)
    ensures uids[i] !in present ==> Missing(uids[..i + 1], present) == Missing(uids[..i], present) + [uids[i]]
    ensures uids[i] !in present ==> Tombstones<Page>(Missing(uids[..i + 1], present)) == Tombstones<Page>(Missing(uids[..i], present)) + [Tombstone(uids[i])]
  {
    assert uids[..i + 1][..i] == uids[..i];
    if uids[i] !in present { OneTombstone<Page>(Missing(uids[..i], present), uids[i]); }
  }

  /** `j` is where the loop over the vanished uids stops. */
  predicate BuriesUpTo(f: Faults, gone: seq<string>, j: nat)
  {
    j <= |gone| && (forall i :: 0 <= i < j ==> !f.bury(gone[i])) && (j < |gone| ==> f.bury(gone[j]))
  }

  /** The second loop of IncrementalSync: tombstones for what is gone, in ascending order. */
  method Vanished(prev: map<string, Etag>, present: set<string>, f: Faults) returns (ok: bool, emitted: seq<Doc<Page>>, ghost gone: seq<string>)
    ensures ok ==> forall d :: d in emitted <==> d.Tombstone? && d.id in prev && d.id !in present
    ensures exists j: nat :: BuriesUpTo(f, gone, j) && emitted == Tombstones(gone[..j]) && (ok <==> j == |gone|)
    ensures IsSorted(gone) && forall u :: u in gone <==> u in prev && u !in present
  {
    hide Missing, Tombstones, Less;
    var uids := SortedUids(prev);
    gone := Missing(uids, present);
    MissingSorted(uids, present);
    forall u ensures u in gone <==> u in prev && u !in present { MissingIs(uids, present, u); }
    emitted := [];
    NothingMissing(uids, present);
    for i := 0 to |uids|
      invariant Missing(uids[..i], present) <= gone
      invariant emitted == Tombstones(Missing(uids[..i], present))
      invariant forall j :: 0 <= j < |Missing(uids[..i], present)| ==> !f.bury(gone[j])
    {
      MissingNext(uids, present, i);
      MissingPrefix(uids, present, i + 1);
      if uids[i] in present { continue; }
      if f.bury(uids[i]) {
        ghost var j := |Missing(uids[..i], present)|;
        assert gone[..j] == Missing(uids[..i], present) && gone[j] == uids[i];
        assert BuriesUpTo(f, gone, j);
        return false, emitted, gone;
      }
      emitted := emitted + [Tombstone(uids[i])];
    }
    assert uids[..|uids|] == uids && gone[..|gone|] == gone;
    assert BuriesUpTo(f, gone, |gone|);
    forall d ensures d in emitted <==> d.Tombstone? && d.id in gone { TombstonesNamed(gone, d); }
    ok := true;
  }

  lemma {:induction false} MissingSorted(uids: seq<string>, present: set<string>)
    requires IsSorted(uids)
    ensures IsSorted(Missing(uids, present))
  {
    hide Less;
    if uids != [] {
      var n := |uids| - 1;
      MissingSorted(uids[..n], present);
      var m := Missing(uids[..n], present);
      forall i | 0 <= i < |m| ensures !Less(uids[n], m[i]) {
        MissingIs(uids[..n], present, m[i]);
        assert m[i] in uids[..n];
        var k :| 0 <= k < n && uids[k] == m[i];
      }
    }
  }

  lemma {:induction false} NothingMissing(uids: seq<string>, present: set<string>)
    ensures Missing(uids[..0], present) == [] && Tombstones<Page>(Missing(uids[..0], present)) == []
  {
  }

  /** The loop over the events: changed and cancelled ones are emitted, and the uids seen are kept. */
  method Changed(clock: Clock, prev: map<string, Etag>, events: seq<VEvent>, f: Faults) returns (ok: bool, emitted: seq<Doc<Page>>, present: set<string>)
    ensures forall k: nat :: StopsAt(f, prev, events, k) ==> emitted == EventDocs(clock, prev, events[..k]) && (ok <==> k == |events|)
    ensures ok ==> emitted == EventDocs(clock, prev, events) && forall u :: u in present <==> At(events, u).Some?
  {
    hide Uid, EventDocument, Canceled, VersionEtag, Silent;
    emitted, present := [], {};
    assert events[..0] == [];
    for i := 0 to |events|
      invariant emitted == EventDocs(clock, prev, events[..i])
      invariant forall j :: 0 <= j < i ==> !Hindered(f, prev, events, j)
      invariant forall u :: u in present <==> At(events[..i], u).Some?
    {
      var ev := events[i];
      assert events[..i + 1][..i] == events[..i];
      if f.halt(i) {
        assert Hindered(f, prev, events, i);
        return false, emitted, present;
      }
      var uid := Uid(ev);
      if uid == "" { continue; }
      present := present + {uid};
      if !Silent(prev, ev) {
        if f.emit(i) {
          assert Hindered(f, prev, events, i);
          return false, emitted, present;
        }
        emitted := emitted + [EventDocument(clock, ev)];
      }
    }
    assert events[..|events|] == events;
    ok := true;
  }

  /** What an incremental pass over a changed feed has emitted, and whether it ended well. */
  ghost predicate IsPass(clock: Clock, prev: map<string, Etag>, events: seq<VEvent>, gone: seq<string>, f: Faults, ok: bool, emitted: seq<Doc<Page>>, k: nat, j: nat)
  {
    && AreGone(gone, prev, events) && IsSorted(gone) && StopsAt(f, prev, events, k) && BuriesUpTo(f, gone, j)
    && (ok <==> k == |events| && j == |gone|)
    && emitted == EventDocs(clock, prev, events[..k]) + if k == |events| then Tombstones(gone[..j]) else []
  }

  /** IncrementalSync: nothing for an identical body, else changed events and tombstones, up to the first call that fails. */
  method IncrementalSync(clock: Clock, prev: Cursor, body: string, f: Faults) returns (ok: bool, emitted: seq<Doc<Page>>, cur: Cursor, ghost gone: seq<string>)
    ensures body == prev.hash ==> ok && emitted == [] && cur == prev
    ensures body != prev.hash ==> exists k: nat, j: nat :: IsPass(clock, prev.events, EventsOfBody(body), gone, f, ok, emitted, k, j)
    ensures body != prev.hash && ok ==> emitted == Diff(clock, prev.events, EventsOfBody(body), gone) && cur == CursorOf(body, EventsOfBody(body))
    ensures !ok ==> cur == prev
  {
    if body == prev.hash { return true, [], prev, []; }
    var events := ParseEvents(body);
    ghost var k := Stops(f, prev.events, events, 0);
    assert events[..|events|] == events;
    hide EventsOfBody, CursorOf, EventDocs, Tombstones, Last, StopsAt, IsSorted, BuriesUpTo;
    cur := prev;
    var present;
    ok, emitted, present := Changed(clock, prev.events, events, f);
    if !ok {
      gone := SomeGone(prev.events, events);
      ghost var j := Buries(f, gone, 0);
      assert IsPass(clock, prev.events, events, gone, f, false, emitted, k, j) by { assert emitted + [] == emitted; }
      return;
    }
    var tombstones;
    ok, tombstones, gone := Vanished(prev.events, present, f);
    ghost var j: nat :| BuriesUpTo(f, gone, j) && tombstones == Tombstones(gone[..j]) && (ok <==> j == |gone|);
    emitted := emitted + tombstones;
    assert IsPass(clock, prev.events, events, gone, f, ok, emitted, k, j);
    assert gone[..|gone|] == gone;
    if !ok { return; }
    cur := BuildCursorState(body, events);
  }

  lemma {:induction false} Buries(f: Faults, gone: seq<string>, from: nat) returns (j: nat)
    requires from <= |gone| && forall i :: 0 <= i < from ==> !f.bury(gone[i])
    ensures BuriesUpTo(f, gone, j)
    decreases |gone| - from
  {
    j := from;
    if from < |gone| && !f.bury(gone[from]) { j := Buries(f, gone, from + 1); }
  }

  /** A pass that failed has emitted the beginning of the difference. */
  lemma {:induction false} PassIsPrefix(clock: Clock, prev: map<string, Etag>, events: seq<VEvent>, gone: seq<string>, f: Faults, ok: bool, emitted: seq<Doc<Page>>, k: nat, j: nat)
    requires IsPass(clock, prev, events, gone, f, ok, emitted, k, j)
    ensures emitted <= Diff(clock, prev, events, gone)
  {
    EventDocsPrefix(clock, prev, events, k);
    TombstonesPrefix<Page>(gone[..j], gone);
    assert events[..|events|] == events;
    hide EventDocs, Tombstones, StopsAt, AreGone;
  }

  /** The uids that are gone, listed in ascending order. */
  lemma {:induction false} SomeGone(prev: map<string, Etag>, events: seq<VEvent>) returns (gone: seq<string>)
    ensures IsSorted(gone) && AreGone(gone, prev, events)
  {
    gone := Listed(prev.Keys, events);
    SortSorts(gone);
    assert forall u :: u in gone <==> u in multiset(gone);
    assert forall u :: u in Sort(gone) <==> u in multiset(Sort(gone));
    gone := Sort(gone);
    hide Sort, Last, IsSorted;
  }

  lemma {:induction false} Listed(keys: set<string>, events: seq<VEvent>) returns (gone: seq<string>)
    ensures forall u :: u in gone <==> u in keys && At(events, u).None?
    decreases |keys|
  {
    hide Last;
    gone := [];
    if keys != {} {
      var u :| u in keys;
      gone := Listed(keys - {u}, events);
      if At(events, u).None? { gone := gone + [u]; }
    }
  }

  // ---------------------------------------------------------------- where the index lands

  /** The last event with uid `u` that is emitted. */
  function LastLoud(prev: map<string, Etag>, events: seq<VEvent>, u: string): Option<VEvent>
  {
    if events == [] then None
    else
      var n := |events| - 1;
      if Uid(events[n]) == u && !Silent(prev, events[n]) then Some(events[n]) else LastLoud(prev, events[..n], u)
  }

  function LoudAt(prev: map<string, Etag>, events: seq<VEvent>, u: string): Option<VEvent> { if u == "" then None else LastLoud(prev, events, u) }

  /** The difference says nothing about `u`. */
  predicate Quiet(prev: map<string, Etag>, events: seq<VEvent>, u: string)
  {
    LoudAt(prev, events, u).None? && (At(events, u).None? ==> u !in prev)
  }

  lemma {:induction false} LoudIsThere(prev: map<string, Etag>, events: seq<VEvent>, u: string)
    ensures LastLoud(prev, events, u).Some? ==>
              var ev := LastLoud(prev, events, u).value; Last(events, u).Some? && Uid(ev) == u && !Silent(prev, ev)
  {
    hide Uid, Silent;
    if events != [] { LoudIsThere(prev, events[..|events| - 1], u); }
  }

  /** After the first loop: the last emitted event of a uid decides, the rest is untouched. */
  lemma {:induction false} EventDocsLand(clock: Clock, ix: Index<Page>, prev: map<string, Etag>, events: seq<VEvent>, u: string)
    ensures Lookup(ApplyAll(ix, EventDocs(clock, prev, events)), u)
         == match LoudAt(prev, events, u) case Some(ev) => Shown(clock, ev) case None => Lookup(ix, u)
    decreases |events|
  {
    hide Uid, Silent, Canceled, Rendered, ApplyAll;
    if events == [] {
      ApplyNone(ix);
    } else {
      var n := |events| - 1;
      var docs := EventDocs(clock, prev, events[..n]);
      EventDocsLand(clock, ix, prev, events[..n], u);
      if Uid(events[n]) == "" || Silent(prev, events[n]) {
        assert docs + [] == docs;
      } else {
        ApplyLast(ix, docs, EventDocument(clock, events[n]), u);
      }
    }
  }

  /** A whole difference: where it is quiet the index stays, elsewhere the last thing said holds. */
  lemma {:induction false} DiffLands(clock: Clock, ix: Index<Page>, prev: map<string, Etag>, events: seq<VEvent>, gone: seq<string>, u: string)
    requires AreGone(gone, prev, events)
    ensures Lookup(ApplyAll(ix, Diff(clock, prev, events, gone)), u)
         == if Quiet(prev, events, u) then Lookup(ix, u)
            else match LoudAt(prev, events, u) case Some(ev) => Shown(clock, ev) case None => None
  {
    LoudIsThere(prev, events, u);
    hide Silent, Uid, Last, LastLoud, ApplyAll, EventDocs, Tombstones, Shown;
    ApplyConcat(ix, EventDocs(clock, prev, events), Tombstones(gone));
    TombstonesRemove(ApplyAll(ix, EventDocs(clock, prev, events)), gone, u);
    EventDocsLand(clock, ix, prev, events, u);
  }

  /** The index agrees with the feed wherever the difference says nothing. */
  ghost predicate AgreesWhereQuiet(clock: Clock, ix: Index<Page>, prev: map<string, Etag>, events: seq<VEvent>)
  {
    forall u :: Quiet(prev, events, u) ==> Lookup(ix, u) == Expected(clock, events, u)
  }

  /** Where it says something, the last event it emits shows what the last event of the uid shows. */
  ghost predicate LastWordHolds(clock: Clock, prev: map<string, Etag>, events: seq<VEvent>)
  {
    forall u :: LoudAt(prev, events, u).Some? ==> Shown(clock, LoudAt(prev, events, u).value) == Expected(clock, events, u)
  }

  /**
   * Exactly when a sync lands on the feed.  Whatever earlier, possibly failed,
   * passes left in the index: applying the difference makes it the image of
   * the feed if and only if it already agreed wherever the difference is quiet
   * and no emitted event is followed by a different, silent one of its uid.
   */
  lemma {:induction false} DiffExact(clock: Clock, ix: Index<Page>, prev: map<string, Etag>, events: seq<VEvent>, gone: seq<string>)
    requires AreGone(gone, prev, events)
    ensures IsImage(clock, ApplyAll(ix, Diff(clock, prev, events, gone)), events)
       <==> AgreesWhereQuiet(clock, ix, prev, events) && LastWordHolds(clock, prev, events)
  {
    var ix' := ApplyAll(ix, Diff(clock, prev, events, gone));
    forall u ensures Lookup(ix', u) == Expected(clock, events, u) <==>
                       && (Quiet(prev, events, u) ==> Lookup(ix, u) == Expected(clock, events, u))
                       && (LoudAt(prev, events, u).Some? ==> Shown(clock, LoudAt(prev, events, u).value) == Expected(clock, events, u))
    {
      DiffLands(clock, ix, prev, events, gone, u);
      hide Silent, Uid, Last, LastLoud, ApplyAll, Diff, Shown;
    }
    hide Quiet, Expected, Lookup, LoudAt, Shown, ApplyAll, Diff, AreGone;
    assert IsImage(clock, ix', events) <==> forall u :: Lookup(ix', u) == Expected(clock, events, u);
  }

  // ---------------------------------------------------------------- whole runs

  /** The cursor remembers the version of the last event of every uid. */
  lemma {:induction false} EtagsAt(events: seq<VEvent>, u: string)
    ensures u in EtagsOf(events) <==> At(events, u).Some?
    ensures At(events, u).Some? ==> EtagsOf(events)[u] == VersionEtag(At(events, u).value)
  {
    hide Uid, VersionEtag;
    if events != [] { EtagsAt(events[..|events| - 1], u); }
  }

  lemma {:induction false} LastNames(events: seq<VEvent>, u: string)
    ensures Last(events, u).Some? ==> Uid(Last(events, u).value) == u && Last(events, u).value in events
  {
    hide Uid;
    if events != [] { LastNames(events[..|events| - 1], u); }
  }

  /** Every event with the uid is live and of the given version. */
  predicate AllAlike(events: seq<VEvent>, u: string, version: Etag)
  {
    forall ev <- events :: Uid(ev) == u ==> !Canceled(ev) && VersionEtag(ev) == version
  }

  /**
   * If the last event of `u` keeps its version_etag, then its document is the
   * same as before and no other event of `u` has another version.
   */
  predicate VersionTells(clock: Clock, a: VEvent, b: VEvent, events: seq<VEvent>, u: string)
  {
    VersionEtag(a) == VersionEtag(b) && !Canceled(b) ==> Shown(clock, a) == Shown(clock, b) && AllAlike(events, u, VersionEtag(b))
  }

  /** No change from `a` to `b` hides behind an unchanged version_etag. */
  ghost predicate NoHiddenChange(clock: Clock, a: seq<VEvent>, b: seq<VEvent>)
  {
    forall u :: At(a, u).Some? && At(b, u).Some? ==> VersionTells(clock, At(a, u).value, At(b, u).value, b, u)
  }

  /** Events alike are all silent, and the other way round. */
  lemma {:induction false} AlikeIsQuiet(prev: map<string, Etag>, events: seq<VEvent>, u: string)
    requires u in prev
    ensures LastLoud(prev, events, u).None? <==> AllAlike(events, u, prev[u])
  {
    hide Uid, Canceled, VersionEtag;
    if events != [] {
      var n := |events| - 1;
      AlikeIsQuiet(prev, events[..n], u);
      assert events == events[..n] + [events[n]];
    }
  }

  /** The last event decides when it is emitted. */
  lemma {:induction false} LoudLast(prev: map<string, Etag>, events: seq<VEvent>, u: string)
    requires Last(events, u).Some? && !Silent(prev, Last(events, u).value)
    ensures LastLoud(prev, events, u) == Last(events, u)
  {
    hide Uid, Silent;
    var n := |events| - 1;
    if Uid(events[n]) != u { LoudLast(prev, events[..n], u); }
  }

  /** An emitted event of another version, or a cancelled one, does not show what a silent one shows. */
  lemma {:induction false} LoudDiffers(clock: Clock, prev: map<string, Etag>, loud: VEvent, silent: VEvent)
    requires Uid(loud) == Uid(silent) && !Silent(prev, loud) && Silent(prev, silent)
    ensures Shown(clock, loud) != Shown(clock, silent)
  {
    if VersionEtag(loud) != VersionEtag(silent) { VersionShows(clock, loud, silent); }
    hide Uid, VersionEtag, Rendered, Canceled;
  }

  lemma {:induction false} AgreementAt(clock: Clock, ix: Index<Page>, a: seq<VEvent>, prev: map<string, Etag>, b: seq<VEvent>, u: string)
    requires IsImage(clock, ix, a) && prev == EtagsOf(a)
    ensures && (Quiet(prev, b, u) ==> Lookup(ix, u) == Expected(clock, b, u))
            && (LoudAt(prev, b, u).Some? ==> Shown(clock, LoudAt(prev, b, u).value) == Expected(clock, b, u))
       <==> (At(a, u).Some? && At(b, u).Some? ==> VersionTells(clock, At(a, u).value, At(b, u).value, b, u))
  {
    EtagsAt(a, u);
    assert Lookup(ix, u) == Expected(clock, a, u);
    LastNames(b, u);
    LoudIsThere(prev, b, u);
    if At(b, u).Some? {
      var y := At(b, u).value;
      if Silent(prev, y) {
        AlikeIsQuiet(prev, b, u);
        if LastLoud(prev, b, u).Some? { LoudDiffers(clock, prev, LastLoud(prev, b, u).value, y); }
      } else {
        LoudLast(prev, b, u);
      }
    }
    hide Uid, VersionEtag, Canceled, Last, LastLoud, EtagsOf, IsImage, Lookup, Shown, AllAlike;
  }

  /**
   * From the image of one feed, the difference leads to the image of the next
   * if and only if no change hides behind an unchanged version_etag.
   */
  lemma {:induction false} DiffConvergesExactly(clock: Clock, ix: Index<Page>, a: seq<VEvent>, b: seq<VEvent>, gone: seq<string>)
    requires IsImage(clock, ix, a) && AreGone(gone, EtagsOf(a), b)
    ensures IsImage(clock, ApplyAll(ix, Diff(clock, EtagsOf(a), b, gone)), b) <==> NoHiddenChange(clock, a, b)
  {
    var prev := EtagsOf(a);
    DiffExact(clock, ix, prev, b, gone);
    forall u ensures && (Quiet(prev, b, u) ==> Lookup(ix, u) == Expected(clock, b, u))
                     && (LoudAt(prev, b, u).Some? ==> Shown(clock, LoudAt(prev, b, u).value) == Expected(clock, b, u))
                <==> (At(a, u).Some? && At(b, u).Some? ==> VersionTells(clock, At(a, u).value, At(b, u).value, b, u))
    {
      AgreementAt(clock, ix, a, prev, b, u);
    }
    hide VersionTells, At, EtagsOf, IsImage, Lookup, Quiet, LoudAt, Shown, Expected, ApplyAll, Diff, AreGone;
  }

  /** What a sync has on disk: the index and the cursor. */
  datatype State = State(ix: Index<Page>, cur: Cursor)

  /** A FullSync into an empty index. */
  predicate Started(clock: Clock, s: State, body: string)
  {
    s.ix == ApplyAll(map[], EventDocs(clock, map[], EventsOfBody(body))) && s.cur == CursorOf(body, EventsOfBody(body))
  }

  /** One completed IncrementalSync (its contract, applied to the index). */
  ghost predicate Synced(clock: Clock, s: State, body: string, s': State, gone: seq<string>)
  {
    if body == s.cur.hash then s' == s
    else
      && AreGone(gone, s.cur.events, EventsOfBody(body))
      && s'.ix == ApplyAll(s.ix, Diff(clock, s.cur.events, EventsOfBody(body), gone))
      && s'.cur == CursorOf(body, EventsOfBody(body))
  }

  ghost predicate IsRun(clock: Clock, bodies: seq<string>, states: seq<State>, gones: seq<seq<string>>)
  {
    && |bodies| == |states| == |gones| > 0
    && Started(clock, states[0], bodies[0])
    && forall i :: 0 < i < |bodies| ==> Synced(clock, states[i - 1], bodies[i], states[i], gones[i])
  }

  /** The i-th feed is the one before, or changes nothing behind an unchanged version_etag. */
  ghost predicate Tells(clock: Clock, bodies: seq<string>, i: nat)
    requires 0 < i < |bodies|
  {
    bodies[i] == bodies[i - 1] || NoHiddenChange(clock, EventsOfBody(bodies[i - 1]), EventsOfBody(bodies[i]))
  }

  /** A full sync lands on the feed, overrides of a uid included. */
  lemma {:induction false} StartIsImage(clock: Clock, s: State, body: string)
    requires Started(clock, s, body)
    ensures IsImage(clock, s.ix, EventsOfBody(body))
  {
    var events := EventsOfBody(body);
    hide EventsOfBody, Last, LastLoud, ApplyAll, EventDocs, Uid, Shown;
    forall u ensures Lookup(s.ix, u) == Expected(clock, events, u) {
      EventDocsLand(clock, map[], map[], events, u);
      if Last(events, u).Some? { LoudLast(map[], events, u); } else { LoudIsThere(map[], events, u); }
    }
  }

  lemma {:induction false} CursorFollows(clock: Clock, bodies: seq<string>, states: seq<State>, gones: seq<seq<string>>, n: nat)
    requires IsRun(clock, bodies, states, gones) && n < |bodies|
    ensures states[n].cur == CursorOf(bodies[n], EventsOfBody(bodies[n]))
    decreases n
  {
    hide EventsOfBody, ApplyAll, Diff, EtagsOf, LatestStamp, AreGone;
    if n > 0 {
      CursorFollows(clock, bodies, states, gones, n - 1);
      assert Synced(clock, states[n - 1], bodies[n], states[n], gones[n]);
    }
  }

  /** One more sync keeps the index the image of the feed if and only if the feed tells what changed. */
  lemma {:induction false} SyncConverges(clock: Clock, bodies: seq<string>, states: seq<State>, gones: seq<seq<string>>, n: nat)
    requires IsRun(clock, bodies, states, gones) && 0 < n < |bodies| && IsImage(clock, states[n - 1].ix, EventsOfBody(bodies[n - 1]))
    ensures IsImage(clock, states[n].ix, EventsOfBody(bodies[n])) <==> Tells(clock, bodies, n)
  {
    CursorFollows(clock, bodies, states, gones, n - 1);
    hide EventsOfBody, ApplyAll, Diff, EtagsOf, LatestStamp, AreGone, IsImage, NoHiddenChange;
    assert Synced(clock, states[n - 1], bodies[n], states[n], gones[n]);
    if bodies[n] != bodies[n - 1] {
      DiffConvergesExactly(clock, states[n - 1].ix, EventsOfBody(bodies[n - 1]), EventsOfBody(bodies[n]), gones[n]);
    }
  }

  /** After the n-th sync the index is the image of the n-th feed. */
  ghost predicate InStep(clock: Clock, bodies: seq<string>, states: seq<State>, n: nat)
  {
    n < |bodies| == |states| && IsImage(clock, states[n].ix, EventsOfBody(bodies[n]))
  }

  lemma {:induction false} StartsInStep(clock: Clock, bodies: seq<string>, states: seq<State>, gones: seq<seq<string>>)
    requires IsRun(clock, bodies, states, gones)
    ensures InStep(clock, bodies, states, 0) && |bodies| > 0
  {
    hide Started, IsImage, EventsOfBody;
    StartIsImage(clock, states[0], bodies[0]);
  }

  lemma {:induction false} StaysInStep(clock: Clock, bodies: seq<string>, states: seq<State>, gones: seq<seq<string>>, n: nat)
    requires IsRun(clock, bodies, states, gones) && 0 < n < |bodies| && InStep(clock, bodies, states, n - 1)
    ensures InStep(clock, bodies, states, n) <==> Tells(clock, bodies, n)
  {
    SyncConverges(clock, bodies, states, gones, n);
    hide IsImage, Tells, EventsOfBody, Started, Synced;
  }

  lemma {:induction false} InStepUpTo(clock: Clock, bodies: seq<string>, states: seq<State>, gones: seq<seq<string>>, n: nat)
    requires IsRun(clock, bodies, states, gones) && n < |bodies|
    ensures (forall i :: 0 <= i <= n ==> InStep(clock, bodies, states, i)) <==> forall i :: 0 < i <= n ==> Tells(clock, bodies, i)
    decreases n
  {
    hide IsRun, InStep, Tells;
    if n == 0 {
      StartsInStep(clock, bodies, states, gones);
    } else {
      InStepUpTo(clock, bodies, states, gones, n - 1);
      if InStep(clock, bodies, states, n - 1) { StaysInStep(clock, bodies, states, gones, n); }
    }
  }

  /**
   * Feed after feed, for any number of syncs: the index is the image of the
   * latest feed at all times if and only if no feed hides a change from the one
   * before it behind an unchanged version_etag.
   */
  lemma {:induction false} FeedConverges(clock: Clock, bodies: seq<string>, states: seq<State>, gones: seq<seq<string>>)
    requires IsRun(clock, bodies, states, gones)
    ensures (forall n :: 0 <= n < |bodies| ==> InStep(clock, bodies, states, n)) <==> forall i :: 0 < i < |bodies| ==> Tells(clock, bodies, i)
  {
    StartsInStep(clock, bodies, states, gones);
    InStepUpTo(clock, bodies, states, gones, |bodies| - 1);
    hide IsRun, InStep, Tells;
  }

  /**
   * Overrides defeat the difference: after a full sync of a feed with two live
   * events of one uid and different versions, a sync of any other text that
   * still has just these two emits the first again and loses the second.
   */
  lemma {:induction false} OverrideIsLost(clock: Clock, m: VEvent, o: VEvent, ix: Index<Page>, gone: seq<string>)
    requires Uid(m) == Uid(o) != "" && !Canceled(m) && !Canceled(o) && VersionEtag(m) != VersionEtag(o)
    requires IsImage(clock, ix, [m, o]) && AreGone(gone, EtagsOf([m, o]), [m, o])
    ensures Lookup(ix, Uid(m)) == Some(Rendered(clock, o))
    ensures EventDocs(clock, EtagsOf([m, o]), [m, o]) == [Upsert(Uid(m), Rendered(clock, m))]
    ensures Lookup(ApplyAll(ix, Diff(clock, EtagsOf([m, o]), [m, o], gone)), Uid(m)) == Some(Rendered(clock, m))
    ensures !NoHiddenChange(clock, [m, o], [m, o])
  {
    hide Uid, Canceled, VersionEtag, Rendered, ApplyAll, Lookup;
    var prev, u := EtagsOf([m, o]), Uid(m);
    assert [m, o][..1] == [m] && [m][..0] == [];
    assert Last([m, o], u) == Some(o) && Lookup(ix, u) == Expected(clock, [m, o], u);
    EtagsAt([m, o], u);
    assert EventDocs(clock, prev, [m]) == EventDocs(clock, prev, []) + [EventDocument(clock, m)];
    assert LastLoud(prev, [m, o], u) == LastLoud(prev, [m], u) == Some(m);
    DiffLands(clock, ix, prev, [m, o], gone, u);
    assert m in [m, o];
    assert !AllAlike([m, o], u, VersionEtag(o));
    assert !VersionTells(clock, o, o, [m, o], u);
  }

  // ---------------------------------------------------------------- failed passes

  lemma {:induction false} EventDocsAreLoud(clock: Clock, prev: map<string, Etag>, events: seq<VEvent>, d: Doc<Page>)
    requires d in EventDocs(clock, prev, events)
    ensures LoudAt(prev, events, d.id).Some?
    decreases |events|
  {
    hide Uid, Silent, Canceled, Rendered;
    var n := |events| - 1;
    if d in EventDocs(clock, prev, events[..n]) { EventDocsAreLoud(clock, prev, events[..n], d); }
  }

  lemma {:induction false} DiffIsLoud(clock: Clock, prev: map<string, Etag>, events: seq<VEvent>, gone: seq<string>, d: Doc<Page>)
    requires AreGone(gone, prev, events) && d in Diff(clock, prev, events, gone)
    ensures !Quiet(prev, events, d.id)
  {
    hide Silent, Last, LastLoud, EventDocs, Tombstones;
    if d in EventDocs(clock, prev, events) { EventDocsAreLoud(clock, prev, events, d); } else { TombstonesNamed(gone, d); }
  }

  /**
   * A pass over feed `b` that failed after any part of its emissions does no
   * harm to a later pass over `c` that still speaks of every uid `b` spoke of.
   */
  lemma {:induction false} FailedPassHarmless(clock: Clock, ix: Index<Page>, prev: map<string, Etag>, b: seq<VEvent>, gone: seq<string>, emitted: seq<Doc<Page>>, c: seq<VEvent>)
    requires AreGone(gone, prev, b) && emitted <= Diff(clock, prev, b, gone)
    requires forall u :: Quiet(prev, c, u) ==> Quiet(prev, b, u)
    requires AgreesWhereQuiet(clock, ix, prev, c)
    ensures AgreesWhereQuiet(clock, ApplyAll(ix, emitted), prev, c)
  {
    hide AreGone, Diff, ApplyAll, Expected, Lookup, Quiet;
    forall u | Quiet(prev, c, u) ensures Lookup(ApplyAll(ix, emitted), u) == Expected(clock, c, u) {
      forall d | d in emitted ensures d.id != u {
        assert d in Diff(clock, prev, b, gone);
        DiffIsLoud(clock, prev, b, gone, d);
      }
      OnlyNamed(ix, emitted, u);
    }
  }

  /**
   * Otherwise the harm lasts: a change emitted by a pass that then failed, and
   * withdrawn by the feed before the next pass, stays in the index, since the
   * cursor still holds the old version and no later sync of that feed emits anything.
   */
  lemma {:induction false} WithdrawnChangeSticks(clock: Clock, a: VEvent, b: VEvent)
    requires Uid(a) == Uid(b) != "" && !Canceled(a) && !Canceled(b) && VersionEtag(a) != VersionEtag(b)
    ensures IsImage(clock, map[Uid(a) := Rendered(clock, a)], [a])
    ensures EventDocs(clock, EtagsOf([a]), [b]) == [Upsert(Uid(a), Rendered(clock, b))]
    ensures !IsImage(clock, ApplyAll(map[Uid(a) := Rendered(clock, a)], [Upsert(Uid(a), Rendered(clock, b))]), [a])
    ensures EventDocs(clock, EtagsOf([a]), [a]) == []
  {
    VersionShows(clock, b, a);
    OneEvent(clock, a);
    OneDoc(clock, EtagsOf([a]), a);
    OneDoc(clock, EtagsOf([a]), b);
    var ix, d := map[Uid(a) := Rendered(clock, a)], Upsert(Uid(a), Rendered(clock, b));
    ApplyLast(ix, [], d, Uid(a));
    assert [] + [d] == [d];
    hide Uid, Canceled, VersionEtag, Rendered, IsImage, ApplyAll, EventDocs, EtagsOf, Last, Lookup, Expected;
    if IsImage(clock, ApplyAll(ix, [d]), [a]) { ImageAt(clock, ApplyAll(ix, [d]), [a], Uid(a)); }
  }

  lemma {:induction false} OneDoc(clock: Clock, prev: map<string, Etag>, ev: VEvent)
    ensures EventDocs(clock, prev, [ev]) == if Uid(ev) == "" || Silent(prev, ev) then [] else [EventDocument(clock, ev)]
  {
    hide Uid, Silent, EventDocument;
    assert [ev][..0] == [];
  }

  lemma {:induction false} OneEvent(clock: Clock, a: VEvent)
    requires Uid(a) != "" && !Canceled(a)
    ensures IsImage(clock, map[Uid(a) := Rendered(clock, a)], [a]) && EtagsOf([a]) == map[Uid(a) := VersionEtag(a)]
    ensures Expected(clock, [a], Uid(a)) == Some(Rendered(clock, a))
  {
    hide Uid, Canceled, VersionEtag, Rendered;
    assert [a][..0] == [];
    assert EtagsOf([a]) == map[Uid(a) := VersionEtag(a)];
    forall u ensures Lookup(map[Uid(a) := Rendered(clock, a)], u) == Expected(clock, [a], u) { assert Last([a][..0], u) == None; }
  }

  lemma {:induction false} ImageAt(clock: Clock, ix: Index<Page>, events: seq<VEvent>, u: string)
    requires IsImage(clock, ix, events)
    ensures Lookup(ix, u) == Expected(clock, events, u)
  {
  }
}
