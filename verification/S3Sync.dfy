/**
Syncing an S3 bucket, which has no change feed.  A backfill lists the bucket in
key order and checkpoints as it goes, so that it can be resumed; afterwards each
pass lists the bucket again and reconciles it with the cursor.
*/
module S3Sync {
  import opened Common
  import opened Documents
  import opened StringOrder

  /** One listed object.  `modified` is LastModified, 0 the zero time. */
  datatype Object = Object(key: string, etag: string, modified: nat)

  /** The bucket under the prefix, as S3 lists it: ascending, non-empty keys. */
  predicate IsListing(bucket: seq<Object>)
  {
    && IsAscending(Keys(bucket))
    && forall i :: 0 <= i < |bucket| ==> bucket[i].key != ""
  }

  function Keys(objects: seq<Object>): (ks: seq<string>)
    ensures |ks| == |objects| && forall i :: 0 <= i < |ks| ==> ks[i] == objects[i].key
  {
    seq(|objects|, i requires 0 <= i < |objects| => objects[i].key)
  }

  /** ListObjects with StartAfter. */
  function List(bucket: seq<Object>, after: string): seq<Object>
  {
    if bucket == [] then []
    else if Less(after, bucket[0].key) then [bucket[0]] + List(bucket[1..], after)
    else List(bucket[1..], after)
  }

  function Later(a: nat, b: nat): nat { if b > a then b else a }

  function MaxModified(start: nat, objects: seq<Object>): nat
  {
    if objects == [] then start else Later(MaxModified(start, objects[..|objects| - 1]), objects[|objects| - 1].modified)
  }

  /** `m` is the latest of `start` and the objects' times, and one of them. */
  predicate IsLatest(start: nat, objects: seq<Object>, m: nat)
  {
    && m >= start && (forall i :: 0 <= i < |objects| ==> objects[i].modified <= m)
    && (m == start || exists i :: 0 <= i < |objects| && objects[i].modified == m)
  }

  lemma {:induction false} MaxIsLatest(start: nat, objects: seq<Object>)
    ensures IsLatest(start, objects, MaxModified(start, objects))
    decreases |objects|
  {
    if objects != [] {
      var n := |objects| - 1;
      MaxIsLatest(start, objects[..n]);
      assert forall i :: 0 <= i < n ==> objects[i] == objects[..n][i];
    }
  }

  /** cursorState; lastKey is empty once a pass has completed. */
  datatype Cursor = Cursor(lastKey: string, maxModified: nat, keys: seq<string>)

  const FRESH := Cursor("", 0, [])
  const CHECKPOINT_EVERY := 200

  /** The cursor a pass renders after `objects`, starting from `seed`. */
  function Rendered(seed: Cursor, objects: seq<Object>, lastKey: string): Cursor
  {
    Cursor(lastKey, MaxModified(seed.maxModified, objects), Sort(seed.keys + Keys(objects)))
  }

  function Checkpoint(seed: Cursor, objects: seq<Object>): Cursor
    requires objects != []
  {
    Rendered(seed, objects, objects[|objects| - 1].key)
  }

  // ---------------------------------------------------------------- the index

  function Find(bucket: seq<Object>, k: string): Option<Object>
  {
    if bucket == [] then None else if bucket[0].key == k then Some(bucket[0]) else Find(bucket[1..], k)
  }

  ghost predicate IsImage(ix: Index<Object>, bucket: seq<Object>)
  {
    forall k :: Lookup(ix, k) == Find(bucket, k)
  }

  /** One document per object newer than `than`, in listing order. */
  function NewerDocs(objects: seq<Object>, than: int): seq<Doc<Object>>
  {
    if objects == [] then []
    else
      var n := |objects| - 1;
      NewerDocs(objects[..n], than) + if objects[n].modified > than then [Upsert(objects[n].key, objects[n])] else []
  }

  function Docs(objects: seq<Object>): seq<Doc<Object>> { NewerDocs(objects, -1) }

  // ---------------------------------------------------------------- the passes

  /**
   * Which calls of a pass fail: listing or emitting the i-th object, the
   * checkpoint after i objects, the end of the listing or the final checkpoint,
   * the check before a recorded key, its tombstone.
   */
  datatype Faults = Faults(read: nat -> bool, emit: nat -> bool, save: nat -> bool, end: bool, halt: string -> bool, bury: string -> bool)

  /** The checkpoint after `m` objects is due and fails. */
  predicate SaveFails(f: Faults, m: nat) { m > 0 && m % 200 == 0 && f.save(m) }

  /** A backfill gets past the first `n` objects, and past their checkpoints. */
  predicate Clear(f: Faults, n: nat) { forall i: nat :: i < n ==> !f.read(i) && !f.emit(i) && !SaveFails(f, i + 1) }

  /** Where and why a backfill of `n` objects stops after `done` of them. */
  predicate StopsAt(f: Faults, n: nat, done: nat)
  {
    || (done < n && Clear(f, done) && (f.read(done) || f.emit(done)))
    || (0 < done <= n && Clear(f, done - 1) && !f.read(done - 1) && !f.emit(done - 1) && SaveFails(f, done))
    || (done == n && Clear(f, n) && f.end)
  }

  /** A reconciliation meets no fault. */
  predicate Unhindered(f: Faults, bucket: seq<Object>, st: Cursor)
  {
    && (forall i: nat :: i < |bucket| ==> !f.read(i) && (bucket[i].modified > st.maxModified ==> !f.emit(i)))
    && !f.end
    && (forall k <- st.keys :: !f.halt(k) && (Find(bucket, k).None? ==> !f.bury(k)))
  }

  /** How a pass ended: whether it succeeded, what it emitted, and the cursor now persisted. */
  datatype Outcome = Outcome(ok: bool, docs: seq<Doc<Object>>, cursor: Option<Cursor>)

  /**
   * A backfill from `seed` emitted the first `done` of the listed objects.  If it
   * failed, the last checkpoint covers `saved` of them and lags by at most one interval.
   */
  predicate Filled(bucket: seq<Object>, seed: Cursor, before: Option<Cursor>, out: Outcome, done: nat, saved: nat)
  {
    var listed := List(bucket, seed.lastKey);
    && done <= |listed|
    && out.docs == Docs(listed[..done])
    && if out.ok then done == |listed| && out.cursor == Some(Rendered(seed, listed, ""))
       else
         && saved % 200 == 0
         && saved <= done <= saved + 200
         && out.cursor == if saved == 0 then before else Some(Checkpoint(seed, listed[..saved]))
  }

  /** The recorded keys the bucket no longer has. */
  predicate IsGone(bucket: seq<Object>, st: Cursor, k: string) { k in st.keys && Find(bucket, k).None? }

  predicate IsNewer(bucket: seq<Object>, st: Cursor, d: Doc<Object>)
  {
    d.Upsert? && d.doc in bucket && d.id == d.doc.key && d.doc.modified > st.maxModified
  }

  /** A reconciling pass; if it failed, it emitted some of the changes and left the cursor alone. */
  ghost predicate Reconciled(bucket: seq<Object>, st: Cursor, before: Option<Cursor>, out: Outcome, gone: seq<string>)
  {
    if out.ok then
      && out.docs == NewerDocs(bucket, st.maxModified) + Tombstones(gone)
      && (forall k :: k in gone <==> IsGone(bucket, st, k))
      && out.cursor == Some(Rendered(Cursor("", st.maxModified, []), bucket, ""))
    else
      && out.cursor == before
      && forall d :: d in out.docs ==> IsNewer(bucket, st, d) || (d.Tombstone? && IsGone(bucket, st, d.id))
  }

  /** One sync: FullSync without a cursor, a resumed backfill from a checkpoint, else a reconciliation. */
  ghost predicate Passed(bucket: seq<Object>, before: Option<Cursor>, out: Outcome, done: nat, saved: nat, gone: seq<string>)
  {
    match before
    case None => Filled(bucket, FRESH, before, out, done, saved)
    case Some(st) => if st.lastKey != "" then Filled(bucket, st, before, out, done, saved) else Reconciled(bucket, st, before, out, gone)
  }

  /** The hub's view of one instance: the persisted cursor and everything emitted. */
  class Instance {
    var cursor: Option<Cursor>
    var emitted: seq<Doc<Object>>

    /** FullSync when there is no cursor, else IncrementalSync. */
    method Sync(bucket: seq<Object>, f: Faults) returns (ok: bool, ghost docs: seq<Doc<Object>>, ghost done: nat, ghost saved: nat, ghost gone: seq<string>)
      modifies this
      ensures emitted == old(emitted) + docs
      ensures Passed(bucket, old(cursor), Outcome(ok, docs, cursor), done, saved, gone)
      ensures var seed := if old(cursor).None? then FRESH else old(cursor).value;
              ok <==> if old(cursor).None? || seed.lastKey != "" then Clear(f, |List(bucket, seed.lastKey)|) && !f.end else Unhindered(f, bucket, seed)
    {
      hide Filled, Reconciled, Clear, StopsAt, Unhindered, List;
      done, saved, gone := 0, 0, [];
      match cursor
      case None => ok, docs, done, saved := Backfill(bucket, FRESH, f);
      case Some(st) =>
        if st.lastKey != "" {
          ok, docs, done, saved := Backfill(bucket, st, f);
        } else {
          ok, docs, gone := Reconcile(bucket, st, f);
        }
    }

    method Backfill(bucket: seq<Object>, seed: Cursor, f: Faults) returns (ok: bool, ghost docs: seq<Doc<Object>>, ghost done: nat, ghost saved: nat)
      modifies this
      ensures emitted == old(emitted) + docs
      ensures Filled(bucket, seed, old(cursor), Outcome(ok, docs, cursor), done, saved)
      ensures ok <==> Clear(f, |List(bucket, seed.lastKey)|) && !f.end
      ensures !ok ==> StopsAt(f, |List(bucket, seed.lastKey)|, done)
      ensures ok ==> cursor.Some? && IsLatest(seed.maxModified, List(bucket, seed.lastKey), cursor.value.maxModified)
      ensures saved > 0 && !ok ==> cursor.Some? && IsLatest(seed.maxModified, List(bucket, seed.lastKey)[..saved], cursor.value.maxModified)
    {
      ok, docs, done, saved := Fill(bucket, seed, f);
      MaxIsLatest(seed.maxModified, List(bucket, seed.lastKey));
      if saved > 0 && !ok { MaxIsLatest(seed.maxModified, List(bucket, seed.lastKey)[..saved]); }
      hide List, MaxModified, Sort, NewerDocs, IsLatest, Keys, Clear, StopsAt;
    }

    /** The loop of backfill. */
    method Fill(bucket: seq<Object>, seed: Cursor, f: Faults) returns (ok: bool, ghost docs: seq<Doc<Object>>, ghost done: nat, ghost saved: nat)
      modifies this
      ensures emitted == old(emitted) + docs
      ensures Filled(bucket, seed, old(cursor), Outcome(ok, docs, cursor), done, saved)
      ensures ok <==> Clear(f, |List(bucket, seed.lastKey)|) && !f.end
      ensures !ok ==> StopsAt(f, |List(bucket, seed.lastKey)|, done)
    {
      var listed := List(bucket, seed.lastKey);
      hide List, MaxModified, Sort, Docs, Tracks, Keys, Clear, StopsAt, SaveFails;
      NothingFails(f);
      var keys, maxModified, lastKey, since := seed.keys, seed.maxModified, seed.lastKey, 0;
      saved := 0;
      NoneListed(seed, listed);
      docs := [];
      for i := 0 to |listed|
        invariant saved <= i && since == i - saved < CHECKPOINT_EVERY && saved % CHECKPOINT_EVERY == 0
        invariant Clear(f, i)
        invariant docs == Docs(listed[..i]) && emitted == old(emitted) + docs
        invariant Tracks(seed, listed[..i], keys, maxModified)
        invariant saved == 0 ==> cursor == old(cursor)
        invariant saved > 0 ==> cursor == Some(Checkpoint(seed, listed[..saved]))
      {
        var o := listed[i];
        OneMoreIsClear(f, i, |listed|);
        if f.read(i) || f.emit(i) { return false, docs, i, saved; }
        OneListed(seed, listed, i, keys, maxModified);
        ConcatAssoc(old(emitted), docs, [Upsert(o.key, o)]);
        emitted, docs := emitted + [Upsert(o.key, o)], docs + [Upsert(o.key, o)];
        keys := keys + [o.key];
        lastKey := o.key;
        if o.modified > maxModified { maxModified := o.modified; }
        since := since + 1;
        Due(f, i + 1, saved);
        if since >= CHECKPOINT_EVERY {
          if f.save(i + 1) { return false, docs, i + 1, saved; }
          since := 0;
          TracksSorted(seed, listed[..i + 1], keys, maxModified);
          keys := Sort(keys);
          cursor := Some(Cursor(lastKey, maxModified, keys));
          saved := i + 1;
        }
      }
      assert listed[..|listed|] == listed;
      done := |listed|;
      if f.end {
        EndFails(f, done);
        return false, docs, done, saved;
      }
      TracksSorted(seed, listed, keys, maxModified);
      cursor := Some(Cursor("", maxModified, Sort(keys)));
      ok := true;
    }

    method Reconcile(bucket: seq<Object>, st: Cursor, f: Faults) returns (ok: bool, ghost docs: seq<Doc<Object>>, ghost gone: seq<string>)
      modifies this
      ensures emitted == old(emitted) + docs
      ensures Reconciled(bucket, st, old(cursor), Outcome(ok, docs, cursor), gone)
      ensures ok <==> Unhindered(f, bucket, st)
      ensures ok ==> IsLatest(st.maxModified, bucket, cursor.value.maxModified)
    {
      MaxIsLatest(st.maxModified, bucket);
      hide MaxModified, Sort, Tracks, Keys, NewerDocs, Find, Tombstones, IsLatest;
      ghost var seed := Cursor("", st.maxModified, []);
      var prevMax := st.maxModified;
      var keys: seq<string>, maxModified, seen: set<string> := [], prevMax, {};
      NoneListed(seed, bucket);
      NoneNewer(bucket, prevMax);
      docs, gone := [], [];
      for i := 0 to |bucket|
        invariant cursor == old(cursor) && emitted == old(emitted) + docs
        invariant docs == NewerDocs(bucket[..i], prevMax)
        invariant forall j: nat :: j < i ==> !f.read(j) && (bucket[j].modified > prevMax ==> !f.emit(j))
        invariant forall d :: d in docs ==> IsNewer(bucket, st, d)
        invariant Tracks(seed, bucket[..i], keys, maxModified)
        invariant forall k :: k in seen <==> Find(bucket[..i], k).Some?
      {
        var o := bucket[i];
        if f.read(i) { return false, docs, gone; }
        OneListed(seed, bucket, i, keys, maxModified);
        OneNewer(bucket, i, prevMax);
        keys := keys + [o.key];
        seen := seen + {o.key};
        if o.modified > maxModified { maxModified := o.modified; }
        if o.modified > prevMax {
          if f.emit(i) { return false, docs, gone; }
          ConcatAssoc(old(emitted), docs, [Upsert(o.key, o)]);
          emitted, docs := emitted + [Upsert(o.key, o)], docs + [Upsert(o.key, o)];
        }
      }
      assert bucket[..|bucket|] == bucket;
      if f.end { return false, docs, gone; }
      ghost var upserts := docs;
      ok, docs, gone := Bury(bucket, st, seen, upserts, f);
      forall d | d in docs && d !in upserts ensures d.Tombstone? && IsGone(bucket, st, d.id) { TombstonesNamed(gone, d); }
      if !ok { return; }
      TracksSorted(seed, bucket, keys, maxModified);
      cursor := Some(Cursor("", maxModified, Sort(keys)));
    }

    /** The second loop of reconcile: tombstones, in the arbitrary order a map is walked. */
    method Bury(bucket: seq<Object>, st: Cursor, seen: set<string>, ghost before: seq<Doc<Object>>, f: Faults)
      returns (ok: bool, ghost docs: seq<Doc<Object>>, ghost gone: seq<string>)
      requires forall k :: k in seen <==> Find(bucket, k).Some?
      modifies this`emitted
      ensures exists more :: docs == before + more && emitted == old(emitted) + more && more == Tombstones(gone)
      ensures forall k :: k in gone ==> IsGone(bucket, st, k)
      ensures ok ==> forall k :: IsGone(bucket, st, k) ==> k in gone
      ensures ok <==> forall k <- st.keys :: !f.halt(k) && (Find(bucket, k).None? ==> !f.bury(k))
    {
      hide Find, Tombstones;
      ghost var more: seq<Doc<Object>> := [];
      gone := [];
      var rest := set k | k in st.keys;
      NoTombstones<Object>();
      while rest != {}
        invariant emitted == old(emitted) + more && more == Tombstones(gone)
        invariant forall k :: k in gone ==> IsGone(bucket, st, k)
        invariant forall k :: k in rest ==> k in st.keys
        invariant forall k :: IsGone(bucket, st, k) ==> k in gone || k in rest
        invariant forall k <- st.keys :: k in rest || (!f.halt(k) && (Find(bucket, k).None? ==> !f.bury(k)))
        decreases |rest|
      {
        var k :| k in rest;
        if f.halt(k) { return false, before + more, gone; }
        rest := rest - {k};
        if k in seen { continue; }
        if f.bury(k) { return false, before + more, gone; }
        ConcatAssoc(old(emitted), more, [Tombstone(k)]);
        OneTombstone<Object>(gone, k);
        assert forall x :: x in gone + [k] <==> x in gone || x == k;
        assert IsGone(bucket, st, k);
        emitted, more, gone := emitted + [Tombstone(k)], more + [Tombstone(k)], gone + [k];
      }
      return true, before + more, gone;
    }
  }

  lemma {:induction false} NothingFails(f: Faults) ensures Clear(f, 0) {}

  lemma {:induction false} EndFails(f: Faults, n: nat)
    requires Clear(f, n) && f.end
    ensures StopsAt(f, n, n)
  {
  }

  /** What the next object, and the checkpoint after it, mean for the whole pass. */
  lemma {:induction false} OneMoreIsClear(f: Faults, i: nat, n: nat)
    requires i < n && Clear(f, i)
    ensures f.read(i) || f.emit(i) ==> !Clear(f, n) && StopsAt(f, n, i)
    ensures !f.read(i) && !f.emit(i) && SaveFails(f, i + 1) ==> !Clear(f, n) && StopsAt(f, n, i + 1)
    ensures !f.read(i) && !f.emit(i) && !SaveFails(f, i + 1) ==> Clear(f, i + 1)
  {
    hide SaveFails;
  }

  /** A checkpoint is due after every 200 objects. */
  lemma {:induction false} Due(f: Faults, m: nat, saved: nat)
    requires m > 0 && saved % 200 == 0 && saved < m <= saved + 200
    ensures SaveFails(f, m) <==> m - saved >= CHECKPOINT_EVERY && f.save(m)
  {
    assert m - saved < 200 ==> m % 200 == m - saved;
    assert m - saved == 200 ==> m % 200 == 0;
  }

  /** The accumulators of a pass that started from `seed` and has listed `objects`. */
  predicate Tracks(seed: Cursor, objects: seq<Object>, keys: seq<string>, maxModified: nat)
  {
    maxModified == MaxModified(seed.maxModified, objects) && multiset(keys) == multiset(seed.keys + Keys(objects))
  }

  lemma {:induction false} NoneListed(seed: Cursor, listed: seq<Object>)
    ensures Docs(listed[..0]) == [] && Tracks(seed, listed[..0], seed.keys, seed.maxModified)
  {
    assert seed.keys + Keys(listed[..0]) == seed.keys;
  }

  lemma {:induction false} OneListed(seed: Cursor, listed: seq<Object>, i: nat, keys: seq<string>, maxModified: nat)
    requires i < |listed| && Tracks(seed, listed[..i], keys, maxModified)
    ensures Docs(listed[..i + 1]) == Docs(listed[..i]) + [Upsert(listed[i].key, listed[i])]
    ensures Tracks(seed, listed[..i + 1], keys + [listed[i].key], Later(maxModified, listed[i].modified))
  {
    assert listed[..i + 1][..i] == listed[..i];
    assert seed.keys + Keys(listed[..i + 1]) == seed.keys + Keys(listed[..i]) + [listed[i].key];
  }

  lemma {:induction false} TracksSorted(seed: Cursor, objects: seq<Object>, keys: seq<string>, maxModified: nat)
    requires Tracks(seed, objects, keys, maxModified)
    ensures Tracks(seed, objects, Sort(keys), maxModified)
    ensures forall lastKey :: Cursor(lastKey, maxModified, Sort(keys)) == Rendered(seed, objects, lastKey)
  {
    hide Sort;
    SortOfSame(keys, seed.keys + Keys(objects));
    SortSorts(keys);
  }

  lemma {:induction false} OneNewer(bucket: seq<Object>, i: nat, than: int)
    requires i < |bucket|
    ensures NewerDocs(bucket[..i + 1], than) == NewerDocs(bucket[..i], than) + if bucket[i].modified > than then [Upsert(bucket[i].key, bucket[i])] else []
    ensures forall k :: Find(bucket[..i + 1], k).Some? <==> Find(bucket[..i], k).Some? || k == bucket[i].key
  {
    assert bucket[..i + 1][..i] == bucket[..i] && bucket[..i + 1] == bucket[..i] + [bucket[i]];
    hide NewerDocs;
    forall k ensures Find(bucket[..i + 1], k).Some? <==> Find(bucket[..i], k).Some? || k == bucket[i].key { FindSnoc(bucket[..i], bucket[i], k); }
  }

  lemma {:induction false} FindSnoc(objects: seq<Object>, o: Object, k: string)
    ensures Find(objects + [o], k) == if Find(objects, k).Some? then Find(objects, k) else if o.key == k then Some(o) else None
  {
    if objects == [] {
      assert objects + [o] == [o];
    } else {
      assert (objects + [o])[1..] == objects[1..] + [o];
      FindSnoc(objects[1..], o, k);
    }
  }

  lemma {:induction false} NoneNewer(bucket: seq<Object>, than: int)
    ensures NewerDocs(bucket[..0], than) == [] && forall k :: Find(bucket[..0], k).None?
  {
  }
}
