/** What S3 syncs achieve over whole runs. */
module S3Convergence {
  import opened Common
  import opened Documents
  import opened StringOrder
  import opened S3Sync

  // ---------------------------------------------------------------- listings

  lemma {:induction false} ListSplit(bucket: seq<Object>, n: nat, after: string)
    requires n <= |bucket|
    requires forall i :: 0 <= i < n ==> !Less(after, bucket[i].key)
    requires forall i :: n <= i < |bucket| ==> Less(after, bucket[i].key)
    ensures List(bucket, after) == bucket[n..]
  {
    hide Less;
    if bucket != [] {
      var rest, m := bucket[1..], if n == 0 then 0 else n - 1;
      assert forall i :: 0 <= i < |rest| ==> rest[i] == bucket[i + 1];
      ListSplit(rest, m, after);
      assert n == 0 ==> bucket == [bucket[0]] + rest[0..];
    }
  }

  lemma {:induction false} KeysAscend(bucket: seq<Object>, i: nat, j: nat)
    requires IsListing(bucket) && i < j < |bucket|
    ensures Less(bucket[i].key, bucket[j].key) && !Less(bucket[j].key, bucket[i].key)
  {
    hide Less;
    var ks := Keys(bucket);
    assert Less(ks[i], ks[j]);
    LessIsStrict(ks[i], ks[j]);
  }

  lemma {:induction false} EmptyIsLess(k: string)
    requires k != ""
    ensures Less("", k)
  {
  }

  lemma {:induction false} ListsAll(bucket: seq<Object>)
    requires IsListing(bucket)
    ensures List(bucket, "") == bucket
  {
    forall i | 0 <= i < |bucket| ensures Less("", bucket[i].key) { EmptyIsLess(bucket[i].key); }
    hide *;
    ListSplit(bucket, 0, "");
    assert bucket[0..] == bucket;
  }

  /** A listing resumed after the n-th key lists exactly the rest. */
  lemma {:induction false} ListResumes(bucket: seq<Object>, n: nat)
    requires IsListing(bucket) && 0 < n <= |bucket|
    ensures List(bucket, bucket[n - 1].key) == bucket[n..]
  {
    hide *;
    var after := bucket[n - 1].key;
    forall i | 0 <= i < n ensures !Less(after, bucket[i].key) {
      if i < n - 1 { KeysAscend(bucket, i, n - 1); } else { LessIsStrict(after, after); }
    }
    forall i | n <= i < |bucket| ensures Less(after, bucket[i].key) { KeysAscend(bucket, n - 1, i); }
    ListSplit(bucket, n, after);
  }

  lemma {:induction false} FindIs(objects: seq<Object>, k: string)
    ensures match Find(objects, k)
            case Some(o) => o in objects && o.key == k
            case None => forall i :: 0 <= i < |objects| ==> objects[i].key != k
  {
    if objects != [] && objects[0].key != k {
      FindIs(objects[1..], k);
      assert forall i :: 0 < i < |objects| ==> objects[i] == objects[1..][i - 1];
    }
  }

  predicate DistinctKeys(objects: seq<Object>)
  {
    forall i, j :: 0 <= i < j < |objects| ==> objects[i].key != objects[j].key
  }

  lemma {:induction false} ListingIsDistinct(bucket: seq<Object>)
    requires IsListing(bucket)
    ensures DistinctKeys(bucket)
  {
    var ks := Keys(bucket);
    forall i, j | 0 <= i < j < |bucket| ensures bucket[i].key != bucket[j].key {
      assert Less(ks[i], ks[j]);
      LessIsStrict(ks[i], ks[j]);
    }
  }

  lemma {:induction false} FindAt(objects: seq<Object>, i: nat)
    requires DistinctKeys(objects) && i < |objects|
    ensures Find(objects, objects[i].key) == Some(objects[i])
  {
    FindIs(objects, objects[i].key);
  }

  // ---------------------------------------------------------------- landing

  lemma {:induction false} NewerLand(ix: Index<Object>, objects: seq<Object>, than: int, k: string)
    requires DistinctKeys(objects)
    ensures Lookup(ApplyAll(ix, NewerDocs(objects, than)), k)
         == if Find(objects, k).Some? && Find(objects, k).value.modified > than then Find(objects, k) else Lookup(ix, k)
    decreases |objects|
  {
    hide ApplyAll, Lookup;
    if objects == [] {
      assert ApplyAll(ix, []) == ix by { ApplyNone(ix); }
    } else {
      var n := |objects| - 1;
      var init, o := objects[..n], objects[n];
      assert objects == init + [o];
      NewerLand(ix, init, than, k);
      FindSnoc(init, o, k);
      FindIs(init, k);
      assert forall i :: 0 <= i < n ==> init[i] == objects[i] && init[i].key != o.key;
      if o.modified > than {
        ApplyLast(ix, NewerDocs(init, than), Upsert(o.key, o), k);
      } else {
        assert NewerDocs(objects, than) == NewerDocs(init, than);
      }
    }
  }

  // ---------------------------------------------------------------- reconciling

  /** The pass says nothing about `k`. */
  predicate Untold(bucket: seq<Object>, st: Cursor, k: string)
  {
    match Find(bucket, k) case Some(o) => o.modified <= st.maxModified case None => k !in st.keys
  }

  ghost predicate AgreesWhereUntold(ix: Index<Object>, bucket: seq<Object>, st: Cursor)
  {
    forall k :: Untold(bucket, st, k) ==> Lookup(ix, k) == Find(bucket, k)
  }

  /**
   * Exactly when a completed reconciliation leaves the index equal to the
   * bucket, whatever the index and the cursor were: it already agreed on
   * every key the pass does not speak of.
   */
  lemma {:induction false} ReconcileExact(ix: Index<Object>, bucket: seq<Object>, st: Cursor, before: Option<Cursor>, out: Outcome, gone: seq<string>)
    requires IsListing(bucket) && out.ok && Reconciled(bucket, st, before, out, gone)
    ensures IsImage(ApplyAll(ix, out.docs), bucket) <==> AgreesWhereUntold(ix, bucket, st)
  {
    ListingIsDistinct(bucket);
    var ix' := ApplyAll(ix, out.docs);
    forall k ensures Lookup(ix', k) == if Untold(bucket, st, k) then Lookup(ix, k) else Find(bucket, k) {
      assert k in gone <==> IsGone(bucket, st, k);
      NewerLand(ix, bucket, st.maxModified, k);
      ApplyConcat(ix, NewerDocs(bucket, st.maxModified), Tombstones(gone));
      TombstonesRemove(ApplyAll(ix, NewerDocs(bucket, st.maxModified)), gone, k);
    }
    hide Find, Lookup, ApplyAll, Untold, Reconciled, IsListing, DistinctKeys;
    assert AgreesWhereUntold(ix, bucket, st) <==> forall k :: Lookup(ix', k) == Find(bucket, k);
  }

  /** Every object not strictly newer than the recorded maximum is as it was. */
  ghost predicate WritesAreNewer(was: seq<Object>, bucket: seq<Object>, maxModified: nat)
  {
    forall k :: Find(bucket, k).Some? && Find(bucket, k).value.modified <= maxModified ==> Find(was, k) == Find(bucket, k)
  }

  lemma {:induction false} KeysFind(bucket: seq<Object>, k: string)
    ensures k in Keys(bucket) <==> Find(bucket, k).Some?
  {
    FindIs(bucket, k);
    var ks := Keys(bucket);
    if k in ks {
      var i :| 0 <= i < |ks| && ks[i] == k;
      assert bucket[i].key == k;
    }
    if Find(bucket, k).Some? {
      var i :| 0 <= i < |bucket| && bucket[i] == Find(bucket, k).value;
      assert ks[i] == k;
    }
  }

  /**
   * From index = bucket, a completed reconciliation of the bucket as it is now
   * lands on it again if and only if every write since is strictly newer than
   * the recorded maximum.
   */
  lemma {:induction false} ReconcileConvergesExactly(ix: Index<Object>, was: seq<Object>, bucket: seq<Object>, st: Cursor, before: Option<Cursor>, out: Outcome, gone: seq<string>)
    requires IsImage(ix, was) && st.keys == Keys(was)
    requires IsListing(bucket) && out.ok && Reconciled(bucket, st, before, out, gone)
    ensures IsImage(ApplyAll(ix, out.docs), bucket) <==> WritesAreNewer(was, bucket, st.maxModified)
  {
    ReconcileExact(ix, bucket, st, before, out, gone);
    forall k ensures (Untold(bucket, st, k) ==> Lookup(ix, k) == Find(bucket, k))
                <==> (Find(bucket, k).Some? && Find(bucket, k).value.modified <= st.maxModified ==> Find(was, k) == Find(bucket, k))
    {
      KeysFind(was, k);
      assert Lookup(ix, k) == Find(was, k);
    }
    hide Find, Lookup, ApplyAll, Untold, Reconciled, IsListing, IsImage;
  }

  /** A completed pass records exactly the listed keys, in order, and the latest time among the previous one and the objects. */
  lemma {:induction false} ReconcileCursor(bucket: seq<Object>, st: Cursor, before: Option<Cursor>, out: Outcome, gone: seq<string>)
    requires IsListing(bucket) && out.ok && Reconciled(bucket, st, before, out, gone)
    ensures out.cursor == Some(Cursor("", MaxModified(st.maxModified, bucket), Keys(bucket)))
    ensures IsLatest(st.maxModified, bucket, out.cursor.value.maxModified)
  {
    assert [] + Keys(bucket) == Keys(bucket);
    SortAscending(Keys(bucket));
    MaxIsLatest(st.maxModified, bucket);
    hide IsLatest;
  }

  // ---------------------------------------------------------------- runs over a changing bucket

  datatype State = State(cursor: Option<Cursor>, ix: Index<Object>)

  ghost predicate Steps(s: State, bucket: seq<Object>, s': State, out: Outcome, done: nat, saved: nat, gone: seq<string>)
  {
    && Passed(bucket, s.cursor, out, done, saved, gone)
    && s' == State(out.cursor, ApplyAll(s.ix, out.docs))
  }

  /** `m` is the time of the latest object of the buckets up to the n-th, or the zero time when there is none later. */
  ghost predicate LatestSoFar(buckets: seq<seq<Object>>, n: nat, m: nat)
    requires n < |buckets|
  {
    && (forall j: nat, i: nat :: j <= n && i < |buckets[j]| ==> buckets[j][i].modified <= m)
    && (m == 0 || exists j: nat, i: nat :: j <= n && i < |buckets[j]| && buckets[j][i].modified == m)
  }

  /** The cursor records the n-th bucket's keys and the latest time so far. */
  ghost predicate Summarises(s: State, buckets: seq<seq<Object>>, n: nat)
    requires n < |buckets|
  {
    && s.cursor.Some? && s.cursor.value.lastKey == "" && s.cursor.value.keys == Keys(buckets[n])
    && LatestSoFar(buckets, n, s.cursor.value.maxModified)
  }

  /** Passes over changing buckets, each completed. */
  ghost predicate IsRecord(states: seq<State>, buckets: seq<seq<Object>>, outs: seq<Outcome>, gones: seq<seq<string>>)
  {
    && |states| == |buckets| == |outs| == |gones| > 0
    && IsImage(states[0].ix, buckets[0]) && Summarises(states[0], buckets, 0)
    && forall i :: 0 < i < |states| ==> IsListing(buckets[i]) && outs[i].ok && Steps(states[i - 1], buckets[i], states[i], outs[i], 0, 0, gones[i])
  }

  /** The object is later than the zero time and than everything in the buckets before the n-th. */
  ghost predicate IsLater(buckets: seq<seq<Object>>, n: nat, o: Object)
    requires n <= |buckets|
  {
    o.modified > 0 && forall j: nat, i: nat :: j < n && i < |buckets[j]| ==> o.modified > buckets[j][i].modified
  }

  /** Every object of the n-th bucket that is new or rewritten is later than everything in the buckets before. */
  ghost predicate WritesAreLater(buckets: seq<seq<Object>>, n: nat)
    requires 0 < n < |buckets|
  {
    forall k :: Find(buckets[n], k).Some? && Find(buckets[n - 1], k) != Find(buckets[n], k) ==> IsLater(buckets, n, Find(buckets[n], k).value)
  }

  lemma {:induction false} LaterIsNewer(buckets: seq<seq<Object>>, n: nat, m: nat, o: Object)
    requires n < |buckets| && LatestSoFar(buckets, n, m)
    ensures IsLater(buckets, n + 1, o) <==> o.modified > m
  {
    if o.modified > m {
      forall j: nat, i: nat | j < n + 1 && i < |buckets[j]| ensures o.modified > buckets[j][i].modified {}
    }
  }

  lemma {:induction false} LatestNext(buckets: seq<seq<Object>>, n: nat, m: nat, m': nat)
    requires n + 1 < |buckets| && LatestSoFar(buckets, n, m) && IsLatest(m, buckets[n + 1], m')
    ensures LatestSoFar(buckets, n + 1, m')
  {
    forall j: nat, i: nat | j <= n + 1 && i < |buckets[j]| ensures buckets[j][i].modified <= m' {
      if j <= n { assert buckets[j][i].modified <= m; }
    }
  }

  lemma {:induction false} StillSummarises(states: seq<State>, buckets: seq<seq<Object>>, outs: seq<Outcome>, gones: seq<seq<string>>, n: nat)
    requires IsRecord(states, buckets, outs, gones) && n < |states|
    ensures Summarises(states[n], buckets, n)
    decreases n
  {
    hide IsListing, Reconciled, Filled, IsImage, Keys, ApplyAll, LatestSoFar;
    if n > 0 {
      StillSummarises(states, buckets, outs, gones, n - 1);
      assert Steps(states[n - 1], buckets[n], states[n], outs[n], 0, 0, gones[n]);
      var st := states[n - 1].cursor.value;
      ReconcileCursor(buckets[n], st, states[n - 1].cursor, outs[n], gones[n]);
      LatestNext(buckets, n - 1, st.maxModified, states[n].cursor.value.maxModified);
    }
  }

  /** One pass: from index = bucket it lands on the next bucket if and only if its writes are later. */
  lemma {:induction false} PassConverges(states: seq<State>, buckets: seq<seq<Object>>, outs: seq<Outcome>, gones: seq<seq<string>>, n: nat)
    requires IsRecord(states, buckets, outs, gones) && 0 < n < |states| && IsImage(states[n - 1].ix, buckets[n - 1])
    ensures IsImage(states[n].ix, buckets[n]) <==> WritesAreLater(buckets, n)
  {
    StillSummarises(states, buckets, outs, gones, n - 1);
    var st := states[n - 1].cursor.value;
    assert IsListing(buckets[n]) && outs[n].ok && Steps(states[n - 1], buckets[n], states[n], outs[n], 0, 0, gones[n]);
    hide IsListing, Reconciled, Filled, IsImage, Keys, ApplyAll, LatestSoFar, IsLater, Find, IsRecord;
    ReconcileConvergesExactly(states[n - 1].ix, buckets[n - 1], buckets[n], st, states[n - 1].cursor, outs[n], gones[n]);
    forall k | Find(buckets[n], k).Some?
      ensures IsLater(buckets, n, Find(buckets[n], k).value) <==> Find(buckets[n], k).value.modified > st.maxModified
    {
      LaterIsNewer(buckets, n - 1, st.maxModified, Find(buckets[n], k).value);
    }
    assert WritesAreLater(buckets, n) <==> WritesAreNewer(buckets[n - 1], buckets[n], st.maxModified);
  }

  lemma {:induction false} ImagesUpTo(states: seq<State>, buckets: seq<seq<Object>>, outs: seq<Outcome>, gones: seq<seq<string>>, n: nat)
    requires IsRecord(states, buckets, outs, gones) && n < |states|
    ensures (forall i :: 0 <= i <= n ==> Lands(states, buckets, i)) <==> forall i :: 0 < i <= n ==> WritesAreLater(buckets, i)
    decreases n
  {
    assert Lands(states, buckets, 0);
    hide Lands, WritesAreLater;
    if n > 0 {
      ImagesUpTo(states, buckets, outs, gones, n - 1);
      if Lands(states, buckets, n - 1) { LandsAgain(states, buckets, outs, gones, n); }
    }
  }

  /** After the n-th pass the index is the n-th bucket. */
  ghost predicate Lands(states: seq<State>, buckets: seq<seq<Object>>, n: nat)
  {
    n < |states| == |buckets| && IsImage(states[n].ix, buckets[n])
  }

  lemma {:induction false} LandsAgain(states: seq<State>, buckets: seq<seq<Object>>, outs: seq<Outcome>, gones: seq<seq<string>>, n: nat)
    requires IsRecord(states, buckets, outs, gones) && 0 < n < |states| && Lands(states, buckets, n - 1)
    ensures Lands(states, buckets, n) <==> WritesAreLater(buckets, n)
  {
    PassConverges(states, buckets, outs, gones, n);
    hide IsImage, WritesAreLater, Steps;
  }

  /**
   * Over any sequence of buckets, every completed pass lands on its bucket if
   * and only if whatever is written is later than everything listed before.
   */
  lemma {:induction false} ReconcilesConverge(states: seq<State>, buckets: seq<seq<Object>>, outs: seq<Outcome>, gones: seq<seq<string>>)
    requires IsRecord(states, buckets, outs, gones)
    ensures (forall n :: 0 <= n < |states| ==> Lands(states, buckets, n)) <==> forall i :: 0 < i < |states| ==> WritesAreLater(buckets, i)
  {
    ImagesUpTo(states, buckets, outs, gones, |states| - 1);
    hide Lands, WritesAreLater;
  }

  /** A failed pass does no harm to a later pass that still speaks of every key it spoke of. */
  lemma {:induction false} FailedPassHarmless(ix: Index<Object>, st: Cursor, before: Option<Cursor>, seen: seq<Object>, out: Outcome, gone: seq<string>, later: seq<Object>)
    requires IsListing(seen) && !out.ok && Reconciled(seen, st, before, out, gone)
    requires forall k :: Untold(later, st, k) ==> Untold(seen, st, k)
    requires AgreesWhereUntold(ix, later, st)
    ensures AgreesWhereUntold(ApplyAll(ix, out.docs), later, st)
  {
    ListingIsDistinct(seen);
    forall k | Untold(later, st, k) ensures Lookup(ApplyAll(ix, out.docs), k) == Find(later, k) {
      forall d | d in out.docs ensures d.id != k {
        if IsNewer(seen, st, d) {
          var i :| 0 <= i < |seen| && seen[i] == d.doc;
          FindAt(seen, i);
        }
      }
      OnlyNamed(ix, out.docs, k);
    }
  }

  /**
   * Otherwise it can: an object that only a failed pass ever saw stays in the
   * index.  It is not in the recorded keys, so no later pass buries it.
   */
  lemma {:induction false} GlimpsedObjectStays(ix: Index<Object>, bucket: seq<Object>, o: Object, st: Cursor, out: Outcome, gone: seq<string>)
    requires IsListing(bucket) && st.keys == Keys(bucket) && Find(bucket, o.key).None?
    requires out.ok && Reconciled(bucket, st, Some(st), out, gone)
    ensures Lookup(ApplyAll(Apply(ix, Upsert(o.key, o)), out.docs), o.key) == Some(o)
    ensures !IsImage(ApplyAll(Apply(ix, Upsert(o.key, o)), out.docs), bucket)
  {
    var ix0 := Apply(ix, Upsert(o.key, o));
    ListingIsDistinct(bucket);
    KeysFind(bucket, o.key);
    assert o.key in gone <==> IsGone(bucket, st, o.key);
    NewerLand(ix0, bucket, st.maxModified, o.key);
    ApplyConcat(ix0, NewerDocs(bucket, st.maxModified), Tombstones(gone));
    TombstonesRemove(ApplyAll(ix0, NewerDocs(bucket, st.maxModified)), gone, o.key);
  }

  // ---------------------------------------------------------------- runs over a fixed bucket

  ghost predicate Within(ix: Index<Object>, bucket: seq<Object>)
  {
    forall k :: Lookup(ix, k).Some? ==> Lookup(ix, k) == Find(bucket, k)
  }

  ghost predicate Covers(ix: Index<Object>, bucket: seq<Object>, n: nat)
    requires n <= |bucket|
  {
    forall i :: 0 <= i < n ==> Lookup(ix, bucket[i].key) == Some(bucket[i])
  }

  /** The seed of a backfill that has covered the first `n` objects. */
  function SeedAt(bucket: seq<Object>, n: nat): Cursor
    requires n <= |bucket|
  {
    if n == 0 then FRESH else Checkpoint(FRESH, bucket[..n])
  }

  /** What an uninterrupted backfill ends with. */
  function Complete(bucket: seq<Object>): Cursor
  {
    Cursor("", MaxModified(0, bucket), Keys(bucket))
  }

  ghost predicate Inv(s: State, bucket: seq<Object>)
  {
    && Within(s.ix, bucket)
    && match s.cursor
       case None => true
       case Some(c) => if c.lastKey == "" then c == Complete(bucket) && Covers(s.ix, bucket, |bucket|) else exists n :: AtCheckpoint(s, c, bucket, n)
  }

  ghost predicate AtCheckpoint(s: State, c: Cursor, bucket: seq<Object>, n: nat)
  {
    0 < n <= |bucket| && c == SeedAt(bucket, n) && Covers(s.ix, bucket, n)
  }

  lemma {:induction false} MaxConcat(start: nat, a: seq<Object>, b: seq<Object>)
    ensures MaxModified(MaxModified(start, a), b) == MaxModified(start, a + b)
    decreases |b|
  {
    if b == [] {
      assert a + b == a;
    } else {
      var n := |b| - 1;
      assert (a + b)[..|a| + n] == a + b[..n];
      MaxConcat(start, a, b[..n]);
    }
  }

  lemma {:induction false} KeysConcat(a: seq<Object>, b: seq<Object>)
    ensures Keys(a + b) == Keys(a) + Keys(b)
  {
  }

  lemma {:induction false} SortResumes(a: seq<string>, b: seq<string>)
    ensures Sort(Sort([] + a) + b) == Sort([] + (a + b))
  {
    hide Sort;
    assert [] + a == a && [] + (a + b) == a + b;
    SortSorts(a);
    SortOfSame(Sort(a) + b, a + b);
  }

  /** Progress carried by a checkpoint is as good as having listed everything in one go. */
  lemma {:induction false} RenderedResumes(bucket: seq<Object>, n: nat, m: nat, lastKey: string)
    requires n <= m <= |bucket|
    ensures Rendered(SeedAt(bucket, n), bucket[n..m], lastKey) == Rendered(FRESH, bucket[..m], lastKey)
  {
    var a, b := bucket[..n], bucket[n..m];
    assert bucket[..m] == a + b;
    assert SeedAt(bucket, n) == Rendered(FRESH, a, SeedAt(bucket, n).lastKey) by { NothingRendered(); }
    hide Sort, Keys, MaxModified, SeedAt;
    MaxConcat(0, a, b);
    KeysConcat(a, b);
    SortResumes(Keys(a), Keys(b));
  }

  lemma {:induction false} NothingRendered() ensures Rendered(FRESH, [], "") == FRESH {}

  lemma {:induction false} CompleteIsRendered(bucket: seq<Object>)
    requires IsListing(bucket)
    ensures Rendered(FRESH, bucket, "") == Complete(bucket)
  {
    assert [] + Keys(bucket) == Keys(bucket);
    SortAscending(Keys(bucket));
  }

  lemma {:induction false} FindPart(bucket: seq<Object>, n: nat, m: nat, k: string)
    requires DistinctKeys(bucket) && n <= m <= |bucket|
    ensures DistinctKeys(bucket[n..m])
    ensures Find(bucket[n..m], k).Some? ==> Find(bucket[n..m], k) == Find(bucket, k)
  {
    var part := bucket[n..m];
    assert forall i :: 0 <= i < |part| ==> part[i] == bucket[n + i];
    FindIs(part, k);
    if Find(part, k).Some? {
      var i :| 0 <= i < |part| && part[i] == Find(part, k).value;
      FindAt(bucket, n + i);
    }
  }

  /** Emitting the next stretch of the listing extends what the index covers. */
  lemma {:induction false} StretchCovers(ix: Index<Object>, bucket: seq<Object>, n: nat, m: nat)
    requires IsListing(bucket) && n <= m <= |bucket| && Within(ix, bucket) && Covers(ix, bucket, n)
    ensures Within(ApplyAll(ix, Docs(bucket[n..m])), bucket) && Covers(ApplyAll(ix, Docs(bucket[n..m])), bucket, m)
  {
    ListingIsDistinct(bucket);
    var part := bucket[n..m];
    var ix' := ApplyAll(ix, Docs(part));
    hide IsListing;
    forall k ensures Lookup(ix', k) == if Find(part, k).Some? then Find(bucket, k) else Lookup(ix, k) {
      FindPart(bucket, n, m, k);
      NewerLand(ix, part, -1, k);
    }
    hide ApplyAll, NewerDocs, Lookup;
    forall i | 0 <= i < m ensures Lookup(ix', bucket[i].key) == Some(bucket[i]) {
      FindAt(bucket, i);
      if i >= n {
        FindPart(bucket, n, m, bucket[i].key);
        assert part[i - n] == bucket[i];
        FindAt(part, i - n);
      }
    }
  }

  lemma {:induction false} SeedKey(bucket: seq<Object>, n: nat)
    requires IsListing(bucket) && n <= |bucket|
    ensures List(bucket, SeedAt(bucket, n).lastKey) == bucket[n..]
    ensures SeedAt(bucket, n).lastKey == "" <==> n == 0
  {
    if n == 0 { ListsAll(bucket); } else { ListResumes(bucket, n); }
    hide List;
  }

  lemma {:induction false} CheckpointResumes(bucket: seq<Object>, n: nat, saved: nat)
    requires n + saved <= |bucket| && saved > 0
    ensures Checkpoint(SeedAt(bucket, n), bucket[n..][..saved]) == SeedAt(bucket, n + saved)
  {
    var m := n + saved;
    RenderedResumes(bucket, n, m, bucket[m - 1].key);
    assert bucket[n..][..saved] == bucket[n..m];
    hide Rendered;
    assert SeedAt(bucket, m) == Rendered(FRESH, bucket[..m], bucket[m - 1].key);
  }

  lemma {:induction false} BackfillCompletes(bucket: seq<Object>, n: nat)
    requires IsListing(bucket) && n <= |bucket|
    ensures Rendered(SeedAt(bucket, n), bucket[n..], "") == Complete(bucket)
  {
    hide Rendered, SeedAt, Complete, IsListing;
    assert bucket[n..] == bucket[n..|bucket|] && bucket[..|bucket|] == bucket;
    RenderedResumes(bucket, n, |bucket|, "");
    CompleteIsRendered(bucket);
  }

  /** The cursor a backfill from the n-th object leaves behind. */
  lemma {:induction false} FilledCursor(bucket: seq<Object>, n: nat, before: Option<Cursor>, out: Outcome, done: nat, saved: nat)
    requires IsListing(bucket) && n <= |bucket| && Filled(bucket, SeedAt(bucket, n), before, out, done, saved)
    ensures n + done <= |bucket| && out.docs == Docs(bucket[n..n + done])
    ensures out.ok ==> n + done == |bucket| && out.cursor == Some(Complete(bucket))
    ensures !out.ok ==> saved <= done && out.cursor == if saved == 0 then before else Some(SeedAt(bucket, n + saved))
  {
    hide Docs, List, IsListing, Checkpoint, Rendered, Complete, SeedAt;
    SeedKey(bucket, n);
    assert bucket[n..][..done] == bucket[n..n + done];
    if out.ok { BackfillCompletes(bucket, n); } else if saved > 0 { CheckpointResumes(bucket, n, saved); }
  }

  lemma {:induction false} CoversLess(ix: Index<Object>, bucket: seq<Object>, n: nat, m: nat)
    requires n <= m <= |bucket| && Covers(ix, bucket, m)
    ensures Covers(ix, bucket, n)
  {
  }

  lemma {:induction false} FilledKeepsInv(s: State, bucket: seq<Object>, n: nat, out: Outcome, done: nat, saved: nat)
    requires IsListing(bucket) && n <= |bucket| && Covers(s.ix, bucket, n) && Within(s.ix, bucket)
    requires s.cursor == if n == 0 then None else Some(SeedAt(bucket, n))
    requires Filled(bucket, SeedAt(bucket, n), s.cursor, out, done, saved)
    ensures Inv(State(out.cursor, ApplyAll(s.ix, out.docs)), bucket)
  {
    hide ApplyAll, Docs, IsListing, Filled, SeedAt, Complete, Within, Covers;
    FilledCursor(bucket, n, s.cursor, out, done, saved);
    var m, s' := n + done, State(out.cursor, ApplyAll(s.ix, out.docs));
    StretchCovers(s.ix, bucket, n, m);
    CompleteKey(bucket);
    if !out.ok && n + saved > 0 {
      SeedKey(bucket, n + saved);
      CoversLess(s'.ix, bucket, n + saved, m);
      assert AtCheckpoint(s', SeedAt(bucket, n + saved), bucket, n + saved);
    }
  }

  lemma {:induction false} Inhabited<T>(s: seq<T>)
    ensures s == [] || exists x :: x in s
  {
    if s != [] { assert s[0] in s; }
  }

  /** Polling an unchanged bucket emits nothing and leaves the cursor as it is. */
  lemma {:induction false} SteadyPollIsSilent(bucket: seq<Object>, out: Outcome, gone: seq<string>)
    requires IsListing(bucket) && Reconciled(bucket, Complete(bucket), Some(Complete(bucket)), out, gone)
    ensures out.docs == [] && out.cursor == Some(Complete(bucket))
  {
    var st := Complete(bucket);
    MaxIsLatest(0, bucket);
    forall k ensures !IsGone(bucket, st, k) { KeysFind(bucket, k); }
    assert forall d :: d in out.docs ==> !IsNewer(bucket, st, d);
    if out.ok {
      NoneNewerThan(bucket, st.maxModified);
      Inhabited(gone);
      MaxIdle(st.maxModified, bucket);
      ReconcileCursor(bucket, st, Some(st), out, gone);
    } else {
      Inhabited(out.docs);
    }
  }

  lemma {:induction false} NoneNewerThan(objects: seq<Object>, than: nat)
    requires forall i :: 0 <= i < |objects| ==> objects[i].modified <= than
    ensures NewerDocs(objects, than) == []
  {
    if objects != [] { NoneNewerThan(objects[..|objects| - 1], than); }
  }

  lemma {:induction false} MaxIdle(start: nat, objects: seq<Object>)
    requires forall i :: 0 <= i < |objects| ==> objects[i].modified <= start
    ensures MaxModified(start, objects) == start
    decreases |objects|
  {
    if objects != [] { MaxIdle(start, objects[..|objects| - 1]); }
  }

  lemma {:induction false} StepKeepsInv(s: State, bucket: seq<Object>, s': State, out: Outcome, done: nat, saved: nat, gone: seq<string>)
    requires IsListing(bucket) && Inv(s, bucket) && Steps(s, bucket, s', out, done, saved, gone)
    ensures Inv(s', bucket)
    ensures out.ok ==> s'.cursor == Some(Complete(bucket))
  {
    hide Filled, Reconciled, IsListing, Covers, ApplyAll, Within, SeedAt, Complete;
    match s.cursor
    case None =>
      assert Covers(s.ix, bucket, 0) by { CoversNone(s.ix, bucket); }
      assert SeedAt(bucket, 0) == FRESH by { SeedNone(bucket); }
      FilledKeepsInv(s, bucket, 0, out, done, saved);
      if out.ok { FilledCursor(bucket, 0, s.cursor, out, done, saved); }
    case Some(c) =>
      if c.lastKey == "" {
        SteadyPollIsSilent(bucket, out, gone);
        ApplyNone(s.ix);
      } else {
        var n :| AtCheckpoint(s, c, bucket, n);
        FilledKeepsInv(s, bucket, n, out, done, saved);
        if out.ok { FilledCursor(bucket, n, s.cursor, out, done, saved); }
      }
  }

  lemma {:induction false} CoversNone(ix: Index<Object>, bucket: seq<Object>) ensures Covers(ix, bucket, 0) {}

  lemma {:induction false} SeedNone(bucket: seq<Object>) ensures SeedAt(bucket, 0) == FRESH {}

  /** Passes over a fixed bucket, each ending well or failing anywhere. */
  ghost predicate IsRun(bucket: seq<Object>, states: seq<State>, outs: seq<Outcome>, dones: seq<nat>, saveds: seq<nat>, gones: seq<seq<string>>)
  {
    && |states| == |outs| == |dones| == |saveds| == |gones| > 0
    && states[0] == State(None, map[])
    && forall i :: 0 < i < |states| ==> Steps(states[i - 1], bucket, states[i], outs[i], dones[i], saveds[i], gones[i])
  }

  /**
   * However often a backfill is interrupted and resumed: as soon as some pass
   * succeeds, the cursor is the one an uninterrupted backfill ends with, the
   * index is the bucket, and both stay so.
   */
  lemma {:induction false} InterruptedBackfillConverges(bucket: seq<Object>, states: seq<State>, outs: seq<Outcome>, dones: seq<nat>, saveds: seq<nat>, gones: seq<seq<string>>, i: nat, j: nat)
    requires IsListing(bucket) && IsRun(bucket, states, outs, dones, saveds, gones)
    requires 0 < i <= j < |states| && outs[i].ok
    ensures states[j].cursor == Some(Complete(bucket)) && IsImage(states[j].ix, bucket)
    ensures states[j].cursor.value.keys == Keys(bucket) && IsLatest(0, bucket, states[j].cursor.value.maxModified)
    decreases j
  {
    MaxIsLatest(0, bucket);
    assert Complete(bucket).keys == Keys(bucket) && Complete(bucket).maxModified == MaxModified(0, bucket);
    hide IsListing, Within, ApplyAll, Passed, Complete;
    RunKeepsInv(bucket, states, outs, dones, saveds, gones, j - 1);
    StepKeepsInv(states[j - 1], bucket, states[j], outs[j], dones[j], saveds[j], gones[j]);
    if i < j {
      InterruptedBackfillConverges(bucket, states, outs, dones, saveds, gones, i, j - 1);
      CompleteStays(states[j - 1], bucket, states[j], outs[j], dones[j], saveds[j], gones[j]);
    }
    assert Complete(bucket).lastKey == "" by { CompleteKey(bucket); }
    CoveredIsImage(states[j].ix, bucket);
  }

  lemma {:induction false} CompleteKey(bucket: seq<Object>) ensures Complete(bucket).lastKey == "" {}

  lemma {:induction false} CompleteStays(s: State, bucket: seq<Object>, s': State, out: Outcome, done: nat, saved: nat, gone: seq<string>)
    requires IsListing(bucket) && s.cursor == Some(Complete(bucket)) && Steps(s, bucket, s', out, done, saved, gone)
    ensures s' == s
  {
    hide IsListing, Reconciled, Filled, ApplyAll;
    SteadyPollIsSilent(bucket, out, gone);
    ApplyNone(s.ix);
  }

  lemma {:induction false} CoveredIsImage(ix: Index<Object>, bucket: seq<Object>)
    requires IsListing(bucket) && Within(ix, bucket) && Covers(ix, bucket, |bucket|)
    ensures IsImage(ix, bucket)
  {
    ListingIsDistinct(bucket);
    forall k ensures Lookup(ix, k) == Find(bucket, k) {
      FindIs(bucket, k);
      if Find(bucket, k).Some? {
        var i :| 0 <= i < |bucket| && bucket[i] == Find(bucket, k).value;
      }
    }
  }

  lemma {:induction false} RunKeepsInv(bucket: seq<Object>, states: seq<State>, outs: seq<Outcome>, dones: seq<nat>, saveds: seq<nat>, gones: seq<seq<string>>, n: nat)
    requires IsListing(bucket) && IsRun(bucket, states, outs, dones, saveds, gones) && n < |states|
    ensures Inv(states[n], bucket)
    decreases n
  {
    hide IsListing, Passed, ApplyAll, Find;
    if n > 0 {
      RunKeepsInv(bucket, states, outs, dones, saveds, gones, n - 1);
      StepKeepsInv(states[n - 1], bucket, states[n], outs[n], dones[n], saveds[n], gones[n]);
    }
  }
}
