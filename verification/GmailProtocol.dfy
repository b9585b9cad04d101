/**
The Gmail sync as a protocol: the connector's API calls, emissions and
checkpoints interleave with changes of the mailbox and with crashes.  The
theorems hold for every sequence of steps.
*/
module GmailProtocol {
  import opened Common
  import opened Strings
  import opened GmailSource
  import F = GmailFold
  import C = GmailCursor

  /** What the source remembers behind a page token: when the listing began and what its pages showed. */
  datatype Listing = Listing(since: nat, seen: set<Id>)

  /** Where a sync pass stands.  `got` is the outcome of the last messages.get, until it is used. */
  datatype Pass =
    | Idle
    | Paging(h: nat, token: string)
    | Fetching(h: nat, page: seq<Id>, got: Option<Option<Content>>, listing: Listing, next: string)
    | Reading(start: nat, pages: seq<F.History>, current: nat)
    | Emitting(start: nat, current: nat, todo: seq<F.Event>, got: Option<Option<Content>>)

  /** Mailbox (log, now, listings), search index, the hub's persisted cursor text, and the running pass. */
  datatype State = State(log: seq<Record>, now: nat, listings: map<string, Listing>,
                         index: map<Id, Content>, saved: string, pass: Pass)

  datatype Step =
    | Change(r: Record)                                   // the mailbox changes
    | Drift(now: nat)                                     // the history id moves without a message change
    | Crash                                               // any failure: the pass ends, nothing is undone
    | StartFull                                           // FullSync captures the history id
    | Resume                                              // IncrementalSync replays a mid-backfill checkpoint
    | ListPage(page: seq<Id>, next: string)               // messages.list; next == "" is the last page
    | Get                                                 // messages.get for the next message
    | Emit                                                // emit what was found
    | Checkpoint                                          // a page is complete
    | StartReplay                                         // IncrementalSync on a steady-state cursor
    | HistoryPage(records: seq<F.History>, more: bool)    // history.list
    | Return                                              // the hub persists the returned cursor

  ghost predicate PresentThroughout(log: seq<Record>, n: nat, x: Id)
  {
    n <= |log| && forall k :: n <= k <= |log| ==> x in Mailbox(log[..k])
  }

  /** The listing contract: a finished listing showed every message that was present throughout. */
  ghost predicate Complete(l: Listing, log: seq<Record>)
  {
    forall x :: PresentThroughout(log, l.since, x) ==> x in l.seen
  }

  function ListingAfter(s: State, page: seq<Id>): Listing
    requires s.pass.Paging? && (s.pass.token != "" ==> s.pass.token in s.listings)
  {
    var before := if s.pass.token == "" then Listing(|s.log|, {}) else s.listings[s.pass.token];
    Listing(before.since, before.seen + set x | x in page)
  }

  ghost predicate Enabled(s: State, step: Step)
  {
    match step
    case Change(r) => WellFormed(r) && s.now < r.id < UINT64_LIMIT
    case Drift(now) => s.now <= now < UINT64_LIMIT
    case Crash => true
    case StartFull => s.pass.Idle? && s.saved == ""
    case Resume => s.pass.Idle? && C.ParseCursor(s.saved).Some? && C.ParseCursor(s.saved).value.backfill
    case ListPage(page, next) =>
      && s.pass.Paging?
      && (s.pass.token != "" ==> s.pass.token in s.listings)
      && (next == "" ==> Complete(ListingAfter(s, page), s.log))
      && (next in s.listings ==> s.listings[next] == ListingAfter(s, page))
    case Get =>
      || (s.pass.Fetching? && s.pass.page != [] && s.pass.got.None?)
      || (s.pass.Emitting? && s.pass.todo != [] && s.pass.todo[0].kind == F.Added && s.pass.got.None?)
    case Emit =>
      || (s.pass.Fetching? && s.pass.page != [] && s.pass.got.Some?)
      || (s.pass.Emitting? && s.pass.todo != [] && (s.pass.todo[0].kind == F.Deleted || s.pass.got.Some?))
    case Checkpoint => s.pass.Fetching? && s.pass.page == []
    case StartReplay => s.pass.Idle? && C.ParseCursor(s.saved).Some? && !C.ParseCursor(s.saved).value.backfill
    case HistoryPage(records, more) =>
      s.pass.Reading? && (!more ==> F.SameRecords(s.pass.pages + records, Since(s.log, s.pass.start)))
    case Return => s.pass.Emitting? && s.pass.todo == []
  }

  function Max(a: nat, b: nat): nat { if a < b then b else a }

  function GetStep(s: State): State
    requires (s.pass.Fetching? && s.pass.page != []) || (s.pass.Emitting? && s.pass.todo != [])
  {
    var x := if s.pass.Fetching? then s.pass.page[0] else s.pass.todo[0].msg;
    s.(pass := s.pass.(got := Some(Lookup(Mailbox(s.log), x))))
  }

  /** A found message is upserted; a missing one is skipped by the backfill and tombstoned by the replay. */
  function EmitStep(s: State): State
    requires (s.pass.Fetching? && s.pass.page != [] && s.pass.got.Some?)
          || (s.pass.Emitting? && s.pass.todo != [] && (s.pass.todo[0].kind == F.Deleted || s.pass.got.Some?))
  {
    if s.pass.Fetching? then
      var index := if s.pass.got.value.Some? then s.index[s.pass.page[0] := s.pass.got.value.value] else s.index;
      s.(index := index, pass := s.pass.(page := s.pass.page[1..], got := None))
    else
      var e := s.pass.todo[0];
      var index := if e.kind == F.Added && s.pass.got.value.Some? then s.index[e.msg := s.pass.got.value.value]
                   else s.index - {e.msg};
      s.(index := index, pass := s.pass.(todo := s.pass.todo[1..], got := None))
  }

  function Do(s: State, step: Step): State
    requires Enabled(s, step)
  {
    match step
    case Change(r) => s.(log := s.log + [r], now := r.id)
    case Drift(now) => s.(now := now)
    case Crash => s.(pass := Idle)
    case StartFull => s.(pass := Paging(s.now, ""))
    case Resume =>
      var c := C.ParseCursor(s.saved).value;
      s.(pass := Paging(c.historyId, c.pageToken))
    case ListPage(page, next) =>
      var l := ListingAfter(s, page);
      s.(listings := if next == "" then s.listings else s.listings[next := l],
         pass := Fetching(s.pass.h, page, None, l, next))
    case Get => GetStep(s)
    case Emit => EmitStep(s)
    case Checkpoint =>
      if s.pass.next == "" then s.(saved := C.IncrementalCursor(s.pass.h), pass := Idle)
      else s.(saved := C.BackfillCursor(s.pass.h, s.pass.next), pass := Paging(s.pass.h, s.pass.next))
    case StartReplay =>
      var h := C.ParseCursor(s.saved).value.historyId;
      s.(pass := Reading(h, [], h))
    case HistoryPage(records, more) =>
      var pages, current := s.pass.pages + records, Max(s.pass.current, s.now);
      s.(pass := if more then Reading(s.pass.start, pages, current)
                 else Emitting(s.pass.start, current, F.LastOnly(F.Events(F.StableSort(pages))), None))
    case Return => s.(saved := C.IncrementalCursor(s.pass.current), pass := Idle)
  }

  /** Every step of the sequence is possible where it is taken. */
  ghost predicate Ok(s: State, steps: seq<Step>)
    decreases |steps|
  {
    steps == [] || (Enabled(s, steps[0]) && Ok(Do(s, steps[0]), steps[1..]))
  }

  function Final(s: State, steps: seq<Step>): State
    requires Ok(s, steps)
    decreases |steps|
  {
    if steps == [] then s else Final(Do(s, steps[0]), steps[1..])
  }

  // ---------------------------------------------------------------- the invariant

  /** The index agrees with the mailbox on `x`, or the log holds a record for `x` newer than `h`. */
  ghost predicate Fresh(log: seq<Record>, index: map<Id, Content>, x: Id, h: nat)
  {
    Lookup(index, x) == Lookup(Mailbox(log), x) || Touched(log, x, h)
  }

  ghost predicate Covered(s: State, h: nat)
  {
    forall x :: Fresh(s.log, s.index, x, h)
  }

  /** Nothing in the index is gone from the mailbox, unless a record newer than `h` says so. */
  ghost predicate NoGhost(log: seq<Record>, index: map<Id, Content>, h: nat)
  {
    forall x <- index :: x in Mailbox(log) || Touched(log, x, h)
  }

  /** No record from log position `n` on is as old as `h`. */
  ghost predicate Newer(log: seq<Record>, n: nat, h: nat)
  {
    n <= |log| && forall i :: n <= i < |log| ==> log[i].id > h
  }

  /** A value read for `x` is still true, or a record newer than `h` concerns `x`. */
  ghost predicate StillTrue(log: seq<Record>, x: Id, v: Option<Content>, h: nat)
  {
    v == Lookup(Mailbox(log), x) || Touched(log, x, h)
  }

  ghost predicate Backfilled(s: State, h: nat, l: Listing, pending: seq<Id>)
  {
    && h <= s.now
    && Newer(s.log, l.since, h)
    && NoGhost(s.log, s.index, h)
    && (forall x <- l.seen :: x !in pending ==> Fresh(s.log, s.index, x, h))
  }

  ghost predicate SavedOk(s: State)
  {
    match C.ParseCursor(s.saved)
    case None => s.saved == ""
    case Some(c) =>
      && c.historyId <= s.now
      && if c.backfill then c.pageToken in s.listings && Backfilled(s, c.historyId, s.listings[c.pageToken], [])
         else Covered(s, c.historyId)
  }

  ghost predicate SavedWithin(s: State, h: nat)
  {
    match C.ParseCursor(s.saved)
    case None => true
    case Some(c) => c.backfill && c.historyId == h
  }

  ghost predicate PagingOk(s: State)
    requires s.pass.Paging?
  {
    var h := s.pass.h;
    && h <= s.now && SavedWithin(s, h) && NoGhost(s.log, s.index, h)
    && if s.pass.token == "" then Newer(s.log, |s.log|, h)
       else s.pass.token in s.listings && Backfilled(s, h, s.listings[s.pass.token], [])
  }

  ghost predicate FetchingOk(s: State)
    requires s.pass.Fetching?
  {
    var p := s.pass;
    && SavedWithin(s, p.h)
    && Backfilled(s, p.h, p.listing, p.page)
    && (if p.next == "" then forall x <- Mailbox(s.log) :: Touched(s.log, x, p.h) || x in p.listing.seen
        else p.next in s.listings && s.listings[p.next] == p.listing)
    && (p.got.Some? ==> p.page != [] && StillTrue(s.log, p.page[0], p.got.value, p.h))
  }

  /** The history id of a steady-state cursor. */
  function SteadyAt(s: State): Option<nat>
  {
    match C.ParseCursor(s.saved)
    case None => None
    case Some(c) => if c.backfill then None else Some(c.historyId)
  }

  ghost predicate ReplayFrom(s: State, start: nat, current: nat)
  {
    SteadyAt(s) == Some(start) && start <= current <= s.now
  }

  predicate DistinctMsgs(todo: seq<F.Event>)
  {
    forall a, b :: 0 <= a < b < |todo| ==> todo[a].msg != todo[b].msg
  }

  ghost predicate EmittingOk(s: State)
    requires s.pass.Emitting?
  {
    var p := s.pass;
    && ReplayFrom(s, p.start, p.current)
    && DistinctMsgs(p.todo)
    && (forall e <- p.todo :: Touched(s.log, e.msg, p.start))
    && (forall e <- p.todo :: e.kind == F.Deleted ==> StillTrue(s.log, e.msg, None, p.current))
    && (forall x :: !F.Mentions(p.todo, x) ==> Fresh(s.log, s.index, x, p.current))
    && (p.got.Some? ==> p.todo != [] && p.todo[0].kind == F.Added && StillTrue(s.log, p.todo[0].msg, p.got.value, p.current))
  }

  ghost predicate PassOk(s: State)
  {
    match s.pass
    case Idle => true
    case Paging(_, _) => PagingOk(s)
    case Fetching(_, _, _, _, _) => FetchingOk(s)
    case Reading(start, _, current) => ReplayFrom(s, start, current)
    case Emitting(_, _, _, _) => EmittingOk(s)
  }

  ghost predicate Inv(s: State)
  {
    IsLog(s.log, s.now) && s.now < UINT64_LIMIT && "" !in s.listings && SavedOk(s) && PassOk(s)
  }

  /** A full sync starts clean when every indexed message still exists at the source. */
  predicate CleanStart(s: State)
  {
    forall x <- s.index :: x in Mailbox(s.log)
  }

  // ---------------------------------------------------------------- changes of the mailbox

  lemma {:induction false} FreshAfterChange(log: seq<Record>, index: map<Id, Content>, r: Record, x: Id, h: nat)
    requires h < r.id
    requires Fresh(log, index, x, h)
    ensures Fresh(log + [r], index, x, h)
  {
    hide Mailbox, Touched;
    MailboxSnoc(log, r, x);
    TouchedSnoc(log, r, x, h);
  }

  lemma {:induction false} StillTrueAfterChange(log: seq<Record>, r: Record, x: Id, v: Option<Content>, h: nat)
    requires h < r.id
    requires StillTrue(log, x, v, h)
    ensures StillTrue(log + [r], x, v, h)
  {
    hide Mailbox, Touched;
    MailboxSnoc(log, r, x);
    TouchedSnoc(log, r, x, h);
  }

  lemma {:induction false} NoGhostAfterChange(log: seq<Record>, index: map<Id, Content>, r: Record, h: nat)
    requires h < r.id && NoGhost(log, index, h)
    ensures NoGhost(log + [r], index, h)
  {
    hide Mailbox, Touched;
    forall x | x in index ensures x in Mailbox(log + [r]) || Touched(log + [r], x, h) {
      MailboxSnoc(log, r, x);
      TouchedSnoc(log, r, x, h);
    }
  }

  lemma {:induction false} CoveredAfterChange(s: State, r: Record, h: nat)
    requires Covered(s, h) && h < r.id
    ensures Covered(s.(log := s.log + [r], now := r.id), h)
  {
    hide Fresh;
    forall x ensures Fresh(s.log + [r], s.index, x, h) {
      assert Fresh(s.log, s.index, x, h);
      FreshAfterChange(s.log, s.index, r, x, h);
    }
  }

  lemma {:induction false} BackfilledAfterChange(s: State, r: Record, h: nat, l: Listing, pending: seq<Id>)
    requires Backfilled(s, h, l, pending) && s.now < r.id
    ensures Backfilled(s.(log := s.log + [r], now := r.id), h, l, pending)
  {
    NoGhostAfterChange(s.log, s.index, r, h);
    hide Fresh, NoGhost;
    forall x | x in l.seen && x !in pending ensures Fresh(s.log + [r], s.index, x, h) {
      FreshAfterChange(s.log, s.index, r, x, h);
    }
  }

  lemma {:induction false} SavedAfterChange(s: State, r: Record)
    requires Inv(s) && Enabled(s, Change(r))
    ensures SavedOk(Do(s, Change(r)))
  {
    hide Covered, Backfilled, C.ParseCursor;
    match C.ParseCursor(s.saved)
    case None =>
    case Some(c) =>
      if c.backfill {
        BackfilledAfterChange(s, r, c.historyId, s.listings[c.pageToken], []);
      } else {
        CoveredAfterChange(s, r, c.historyId);
      }
  }

  lemma {:induction false} FetchingAfterChange(s: State, r: Record)
    requires Inv(s) && Enabled(s, Change(r)) && s.pass.Fetching?
    ensures FetchingOk(Do(s, Change(r)))
  {
    hide Covered, Backfilled, C.ParseCursor, Mailbox, Touched, StillTrue;
    var p := s.pass;
    assert p.h <= s.now by { BackfilledBounds(s, p.h, p.listing, p.page); }
    BackfilledAfterChange(s, r, p.h, p.listing, p.page);
    if p.next == "" {
      forall x | x in Mailbox(s.log + [r]) ensures Touched(s.log + [r], x, p.h) || x in p.listing.seen {
        MailboxSnoc(s.log, r, x);
        TouchedSnoc(s.log, r, x, p.h);
      }
    }
    if p.got.Some? { StillTrueAfterChange(s.log, r, p.page[0], p.got.value, p.h); }
  }

  lemma {:induction false} BackfilledBounds(s: State, h: nat, l: Listing, pending: seq<Id>)
    requires Backfilled(s, h, l, pending)
    ensures h <= s.now
  {
  }

  lemma {:induction false} EmittingAfterChange(s: State, r: Record)
    requires Inv(s) && Enabled(s, Change(r)) && s.pass.Emitting?
    ensures EmittingOk(Do(s, Change(r)))
  {
    hide Mailbox, Touched, StillTrue, Fresh, SavedOk, F.Mentions, C.IncrementalCursor;
    var p := s.pass;
    forall e | e in p.todo
      ensures Touched(s.log + [r], e.msg, p.start)
      ensures e.kind == F.Deleted ==> StillTrue(s.log + [r], e.msg, None, p.current)
    {
      TouchedSnoc(s.log, r, e.msg, p.start);
      if e.kind == F.Deleted { StillTrueAfterChange(s.log, r, e.msg, None, p.current); }
    }
    forall x | !F.Mentions(p.todo, x) ensures Fresh(s.log + [r], s.index, x, p.current) {
      FreshAfterChange(s.log, s.index, r, x, p.current);
    }
    if p.got.Some? { StillTrueAfterChange(s.log, r, p.todo[0].msg, p.got.value, p.current); }
  }

  lemma {:induction false} ChangeKeepsInv(s: State, r: Record)
    requires Inv(s) && Enabled(s, Change(r))
    ensures Inv(Do(s, Change(r)))
  {
    SavedAfterChange(s, r);
    hide Covered, Backfilled, C.ParseCursor, SavedOk, FetchingOk, EmittingOk;
    match s.pass
    case Idle =>
    case Paging(h, token) =>
      NoGhostAfterChange(s.log, s.index, r, h);
      if token != "" { BackfilledAfterChange(s, r, h, s.listings[token], []); }
    case Fetching(_, _, _, _, _) => FetchingAfterChange(s, r);
    case Reading(_, _, _) =>
    case Emitting(_, _, _, _) => EmittingAfterChange(s, r);
  }

  // ---------------------------------------------------------------- steps of the backfill

  /** A message that is present and untouched since `h` was present throughout a listing begun after `h`. */
  lemma {:induction false} UntouchedWasThroughout(log: seq<Record>, n: nat, h: nat, x: Id)
    requires Newer(log, n, h) && x in Mailbox(log) && !Touched(log, x, h)
    ensures PresentThroughout(log, n, x)
  {
    assert forall i :: n <= i < |log| ==> x !in log[i].after;
    hide Mailbox, Touched;
    forall k | n <= k <= |log| ensures x in Mailbox(log[..k]) {
      UntouchedIsUnchanged(log, k, x);
    }
  }

  lemma {:induction false} ListPageKeepsInv(s: State, page: seq<Id>, next: string)
    requires Inv(s) && Enabled(s, ListPage(page, next))
    ensures Inv(Do(s, ListPage(page, next)))
  {
    var h, l := s.pass.h, ListingAfter(s, page);
    var s' := Do(s, ListPage(page, next));
    assert SavedOk(s');
    assert Backfilled(s', h, l, page);
    hide Mailbox, Touched, Fresh, SavedOk, C.ParseCursor, NoGhost;
    if next == "" {
      forall x | x in Mailbox(s.log) ensures Touched(s.log, x, h) || x in l.seen {
        if !Touched(s.log, x, h) { UntouchedWasThroughout(s.log, l.since, h, x); }
      }
    }
  }

  /** Upserting a value that is still true makes the message fresh and hides nothing. */
  lemma {:induction false} UpsertKeepsBackfilled(s: State, h: nat, l: Listing, pending: seq<Id>, x: Id, v: Content, pass: Pass)
    requires Backfilled(s, h, l, pending) && StillTrue(s.log, x, Some(v), h)
    ensures Backfilled(s.(index := s.index[x := v], pass := pass), h, l, pending)
    ensures Fresh(s.log, s.index[x := v], x, h)
  {
    hide Mailbox, Touched;
    assert forall y :: y != x ==> Lookup(s.index[x := v], y) == Lookup(s.index, y);
  }

  lemma {:induction false} PendingShrinks(s: State, h: nat, l: Listing, pending: seq<Id>)
    requires pending != [] && Backfilled(s, h, l, pending) && Fresh(s.log, s.index, pending[0], h)
    ensures Backfilled(s, h, l, pending[1..])
  {
    hide Fresh, NoGhost;
    assert forall x :: x in pending <==> x == pending[0] || x in pending[1..];
  }

  /** A missing message that is not a ghost is fresh. */
  lemma {:induction false} MissingIsFresh(log: seq<Record>, index: map<Id, Content>, x: Id, h: nat)
    requires NoGhost(log, index, h) && StillTrue(log, x, None, h)
    ensures Fresh(log, index, x, h)
  {
    hide Mailbox, Touched;
  }

  lemma {:induction false} SavedOkAfterUpsert(s: State, x: Id, v: Content, h: nat, pass: Pass)
    requires SavedOk(s) && SavedWithin(s, h) && StillTrue(s.log, x, Some(v), h)
    ensures SavedOk(s.(index := s.index[x := v], pass := pass)) && SavedWithin(s.(index := s.index[x := v], pass := pass), h)
  {
    hide Backfilled, StillTrue, C.ParseCursor;
    match C.ParseCursor(s.saved)
    case None =>
    case Some(c) => UpsertKeepsBackfilled(s, h, s.listings[c.pageToken], [], x, v, pass);
  }

  lemma {:induction false} BackfillEmitKeepsInv(s: State)
    requires Inv(s) && s.pass.Fetching? && Enabled(s, Emit)
    ensures Inv(Do(s, Emit))
  {
    var p, s' := s.pass, Do(s, Emit);
    var x := p.page[0];
    if p.got.value.Some? {
      var v := p.got.value.value;
      UpsertKeepsBackfilled(s, p.h, p.listing, p.page, x, v, s'.pass);
      SavedOkAfterUpsert(s, x, v, p.h, s'.pass);
    } else {
      MissingIsFresh(s.log, s.index, x, p.h);
      assert Backfilled(s', p.h, p.listing, p.page);
      assert SavedOk(s') && SavedWithin(s', p.h);
    }
    hide Fresh, NoGhost, SavedOk, Touched, Mailbox, C.ParseCursor, StillTrue;
    PendingShrinks(s', p.h, p.listing, p.page);
  }

  lemma {:induction false} CheckpointKeepsInv(s: State)
    requires Inv(s) && Enabled(s, Checkpoint)
    ensures Inv(Do(s, Checkpoint))
  {
    var p, s' := s.pass, Do(s, Checkpoint);
    if p.next == "" {
      C.CursorRoundTrip(p.h, "x");
      hide C.ParseCursor, Mailbox, Touched, C.IncrementalCursor;
      forall x ensures Fresh(s.log, s.index, x, p.h) {
        assert x in s.index || x in Mailbox(s.log) || Lookup(s.index, x) == Lookup(Mailbox(s.log), x);
      }
    } else {
      C.CursorRoundTrip(p.h, p.next);
      assert Backfilled(s', p.h, p.listing, []);
      hide Fresh, NoGhost, C.ParseCursor, C.BackfillCursor;
    }
  }

  lemma {:induction false} ResumeKeepsInv(s: State)
    requires Inv(s) && Enabled(s, Resume)
    ensures Inv(Do(s, Resume))
  {
    var c := C.ParseCursor(s.saved).value;
    var s' := Do(s, Resume);
    hide Fresh, NoGhost;
    assert Backfilled(s', c.historyId, s.listings[c.pageToken], []);
    hide C.ParseCursor;
  }

  lemma {:induction false} StartFullKeepsInv(s: State)
    requires Inv(s) && Enabled(s, StartFull) && CleanStart(s)
    ensures Inv(Do(s, StartFull))
  {
    hide Mailbox, Touched;
  }

  // ---------------------------------------------------------------- steps of the replay

  lemma {:induction false} SteadyIsCovered(s: State, start: nat)
    requires SavedOk(s) && SteadyAt(s) == Some(start)
    ensures Covered(s, start)
  {
    hide C.ParseCursor;
  }

  lemma {:induction false} StartReplayKeepsInv(s: State)
    requires Inv(s) && Enabled(s, StartReplay)
    ensures Inv(Do(s, StartReplay))
  {
    var h := C.ParseCursor(s.saved).value.historyId;
    assert SavedOk(Do(s, StartReplay));
  }

  /** What the fold leaves to emit: one true change for each message touched since `start`. */
  lemma {:induction false} FoldIsComplete(s: State, start: nat, pages: seq<F.History>)
    requires IsLog(s.log, s.now) && F.SameRecords(pages, Since(s.log, start))
    ensures var todo := F.LastOnly(F.Events(F.StableSort(pages)));
            && DistinctMsgs(todo)
            && (forall x :: F.Mentions(todo, x) <==> Touched(s.log, x, start))
            && (forall e <- todo :: Touched(s.log, e.msg, start))
            && (forall e <- todo :: e.kind == F.Deleted ==> Lookup(Mailbox(s.log), e.msg) == None)
  {
    var evs := F.Events(F.StableSort(pages));
    var todo := F.LastOnly(evs);
    F.EventsAreNamed(F.StableSort(pages));
    F.LastOnlyIsDistinct(evs);
    F.LastOnlyIsLast(evs);
    assert forall e <- todo :: e.msg != "";
    EmptyIdIsNeverTouched(s.log, s.now, start);
    hide F.LastOnly, F.Events, F.StableSort, Since, Mailbox, Touched;
    forall x ensures F.Mentions(todo, x) <==> Touched(s.log, x, start) {
      if x != "" { FoldTellsTheTruth(s.log, s.now, start, pages, x); }
    }
    forall e | e in todo
      ensures Touched(s.log, e.msg, start)
      ensures e.kind == F.Deleted ==> Lookup(Mailbox(s.log), e.msg) == None
    {
      FoldTellsTheTruth(s.log, s.now, start, pages, e.msg);
      var i :| 0 <= i < |todo| && todo[i] == e;
      assert F.Mentions(todo, e.msg);
    }
  }

  /** What SavedOk says does not depend on the pages read so far. */
  lemma {:induction false} ReadingKeepsSaved(s: State, pass: Pass)
    requires Inv(s) && s.pass.Reading? && (pass.Reading? || pass.Emitting?)
    ensures SavedOk(s.(pass := pass)) && s.pass.start <= s.now
  {
    hide C.ParseCursor, F.LastOnly, F.Events, F.StableSort, F.Mentions, Since, Mailbox, Touched;
  }

  lemma {:induction false} MoreHistoryKeepsInv(s: State, records: seq<F.History>)
    requires Inv(s) && Enabled(s, HistoryPage(records, true))
    ensures Inv(Do(s, HistoryPage(records, true)))
  {
    var s' := Do(s, HistoryPage(records, true));
    ReadingKeepsSaved(s, s'.pass);
    hide C.ParseCursor, F.LastOnly, F.Events, F.StableSort, F.Mentions, Since, Mailbox, Touched, SavedOk, Fresh;
  }

  lemma {:induction false} LastHistoryKeepsInv(s: State, records: seq<F.History>)
    requires Inv(s) && Enabled(s, HistoryPage(records, false))
    ensures Inv(Do(s, HistoryPage(records, false)))
  {
    var p, s' := s.pass, Do(s, HistoryPage(records, false));
    SteadyIsCovered(s, p.start);
    ReadingKeepsSaved(s, s'.pass);
    FoldIsComplete(s, p.start, p.pages + records);
    hide C.ParseCursor, F.LastOnly, F.Events, F.StableSort, F.Mentions, Since, Mailbox, Touched, SavedOk;
    forall x | !F.Mentions(s'.pass.todo, x) ensures Fresh(s.log, s.index, x, s'.pass.current) {
      assert Fresh(s.log, s.index, x, p.start);
    }
  }

  lemma {:induction false} HistoryPageKeepsInv(s: State, records: seq<F.History>, more: bool)
    requires Inv(s) && Enabled(s, HistoryPage(records, more))
    ensures Inv(Do(s, HistoryPage(records, more)))
  {
    hide *;
    if more { MoreHistoryKeepsInv(s, records); } else { LastHistoryKeepsInv(s, records); }
  }

  lemma {:induction false} EmptyIdIsNeverTouched(log: seq<Record>, now: nat, h: nat)
    requires IsLog(log, now)
    ensures !Touched(log, "", h)
  {
  }

  /** Emitting a message touched since `start` leaves everything covered since `start`. */
  lemma {:induction false} ReplayEmitKeepsCovered(s: State, start: nat, x: Id, index: map<Id, Content>, pass: Pass)
    requires Covered(s, start) && Touched(s.log, x, start)
    requires forall y :: y != x ==> Lookup(index, y) == Lookup(s.index, y)
    ensures Covered(s.(index := index, pass := pass), start)
  {
    hide Mailbox, Touched;
    forall y ensures Fresh(s.log, index, y, start) {
      assert Fresh(s.log, s.index, y, start);
    }
  }

  lemma {:induction false} ReplayEmitKeepsSaved(s: State, start: nat, x: Id, index: map<Id, Content>, pass: Pass)
    requires SavedOk(s) && SteadyAt(s) == Some(start) && Touched(s.log, x, start)
    requires forall y :: y != x ==> Lookup(index, y) == Lookup(s.index, y)
    ensures SavedOk(s.(index := index, pass := pass))
  {
    SteadyIsCovered(s, start);
    ReplayEmitKeepsCovered(s, start, x, index, pass);
    hide C.ParseCursor, Covered;
  }

  lemma {:induction false} ReplayEmitKeepsInv(s: State)
    requires Inv(s) && s.pass.Emitting? && Enabled(s, Emit)
    ensures Inv(Do(s, Emit))
  {
    var p, s' := s.pass, Do(s, Emit);
    var e := p.todo[0];
    assert e in p.todo;
    assert forall y :: y != e.msg ==> Lookup(s'.index, y) == Lookup(s.index, y);
    ReplayEmitKeepsSaved(s, p.start, e.msg, s'.index, s'.pass);
    assert Fresh(s.log, s'.index, e.msg, p.current) by { hide Mailbox, Touched; }
    hide Mailbox, Touched, SavedOk, C.IncrementalCursor, StillTrue, F.Mentions;
    forall x | !F.Mentions(p.todo[1..], x) ensures Fresh(s.log, s'.index, x, p.current) {
      F.MentionsCons(p.todo, x);
    }
    assert forall a :: 0 <= a < |p.todo[1..]| ==> p.todo[1..][a] == p.todo[a + 1];
  }

  lemma {:induction false} ReturnKeepsInv(s: State)
    requires Inv(s) && Enabled(s, Return)
    ensures Inv(Do(s, Return))
  {
    var p := s.pass;
    C.CursorRoundTrip(p.current, "x");
    assert forall x :: !F.Mentions(p.todo, x);
    hide C.ParseCursor, Fresh, C.IncrementalCursor;
  }

  // ---------------------------------------------------------------- every run

  lemma {:induction false} StepKeepsInv(s: State, step: Step)
    requires Inv(s) && Enabled(s, step)
    requires step.StartFull? ==> CleanStart(s)
    ensures Inv(Do(s, step))
  {
    match step
    case Change(r) => ChangeKeepsInv(s, r);
    case Drift(_) => DriftKeepsInv(s, step.now);
    case Crash => CrashKeepsInv(s);
    case StartFull => StartFullKeepsInv(s);
    case Resume => ResumeKeepsInv(s);
    case ListPage(page, next) => ListPageKeepsInv(s, page, next);
    case Get => GetKeepsInv(s);
    case Emit => if s.pass.Fetching? { BackfillEmitKeepsInv(s); } else { ReplayEmitKeepsInv(s); }
    case Checkpoint => CheckpointKeepsInv(s);
    case StartReplay => StartReplayKeepsInv(s);
    case HistoryPage(records, more) => HistoryPageKeepsInv(s, records, more);
    case Return => ReturnKeepsInv(s);
  }

  lemma {:induction false} DriftKeepsInv(s: State, now: nat)
    requires Inv(s) && Enabled(s, Drift(now))
    ensures Inv(Do(s, Drift(now)))
  {
    hide Fresh, NoGhost, Mailbox, Touched, C.ParseCursor, StillTrue;
    assert SavedOk(Do(s, Drift(now)));
    assert PassOk(Do(s, Drift(now)));
  }

  lemma {:induction false} CrashKeepsInv(s: State)
    requires Inv(s)
    ensures Inv(Do(s, Crash))
  {
    hide Fresh, NoGhost, Mailbox, Touched, C.ParseCursor;
    assert SavedOk(Do(s, Crash));
  }

  lemma {:induction false} GetKeepsInv(s: State)
    requires Inv(s) && Enabled(s, Get)
    ensures Inv(Do(s, Get))
  {
    hide Fresh, NoGhost, Mailbox, Touched, C.ParseCursor;
    assert SavedOk(Do(s, Get));
    assert PassOk(Do(s, Get));
  }

  /** Every full sync of the run starts clean (trivially so from an empty index). */
  ghost predicate CleanRun(s: State, steps: seq<Step>)
    requires Ok(s, steps)
    decreases |steps|
  {
    steps == [] || ((steps[0].StartFull? ==> CleanStart(s)) && CleanRun(Do(s, steps[0]), steps[1..]))
  }

  lemma {:induction false} RunKeepsInv(s: State, steps: seq<Step>)
    requires Inv(s) && Ok(s, steps) && CleanRun(s, steps)
    ensures Inv(Final(s, steps))
    decreases |steps|
  {
    if steps != [] {
      StepKeepsInv(s, steps[0]);
      RunKeepsInv(Do(s, steps[0]), steps[1..]);
    }
  }

  function Initial(log: seq<Record>, now: nat): State
  {
    State(log, now, map[], map[], "", Idle)
  }

  /**
   * Convergence.  Whatever the mailbox does and wherever passes fail, once the
   * steady-state cursor exists the index agrees with the mailbox on every
   * message, or the log holds a record for it newer than the cursor.
   */
  lemma {:induction false} Convergence(log: seq<Record>, now: nat, steps: seq<Step>)
    requires IsLog(log, now) && now < UINT64_LIMIT
    requires Ok(Initial(log, now), steps) && CleanRun(Initial(log, now), steps)
    ensures var s := Final(Initial(log, now), steps);
            SteadyAt(s).Some? ==> Covered(s, SteadyAt(s).value)
  {
    assert Inv(Initial(log, now));
    RunKeepsInv(Initial(log, now), steps);
  }

  // ---------------------------------------------------------------- a quiet pass

  /** With no record newer than the cursor, covered means equal. */
  lemma {:induction false} CoveredAndQuietIsEqual(s: State, h: nat)
    requires Covered(s, h) && IsLog(s.log, s.now) && s.now <= h
    ensures s.index == Mailbox(s.log)
  {
    forall x ensures Lookup(s.index, x) == Lookup(Mailbox(s.log), x) {
      assert Fresh(s.log, s.index, x, h);
    }
    SameLookups(s.index, Mailbox(s.log));
  }

  predicate Quiet(steps: seq<Step>)
  {
    forall i :: 0 <= i < |steps| ==> !steps[i].Change? && !steps[i].Drift? && !steps[i].StartFull?
  }

  /** Over a quiet source an emitting pass has read everything. */
  predicate UpToDate(s: State)
  {
    s.pass.Emitting? ==> s.pass.current == s.now
  }

  lemma {:induction false} QuietStaysUpToDate(s: State, steps: seq<Step>)
    requires Inv(s) && Ok(s, steps) && Quiet(steps) && UpToDate(s)
    ensures Inv(Final(s, steps)) && UpToDate(Final(s, steps))
    ensures Final(s, steps).log == s.log && Final(s, steps).now == s.now
    decreases |steps|
  {
    if steps != [] {
      StepKeepsInv(s, steps[0]);
      var s' := Do(s, steps[0]);
      assert UpToDate(s') && s'.log == s.log && s'.now == s.now by { hide Mailbox, F.LastOnly, F.Events, F.StableSort; }
      QuietStaysUpToDate(s', steps[1..]);
    }
  }

  /** A replay that starts, runs and returns over a quiet source leaves the index equal to the mailbox. */
  lemma {:induction false} QuietPassConverges(s: State, steps: seq<Step>)
    requires Inv(s) && s.pass.Idle? && Ok(s, steps) && Quiet(steps)
    requires Enabled(Final(s, steps), Return)
    ensures var s' := Do(Final(s, steps), Return);
            s'.index == Mailbox(s'.log) && s'.saved == C.IncrementalCursor(s'.now)
  {
    QuietStaysUpToDate(s, steps);
    var t := Final(s, steps);
    assert Covered(t, t.pass.current) by {
      assert forall x :: !F.Mentions(t.pass.todo, x);
    }
    CoveredAndQuietIsEqual(t, t.pass.current);
  }

  // ---------------------------------------------------------------- the cursor

  /** The persisted cursor never moves back, and a steady-state cursor stays one. */
  lemma {:induction false} CursorNeverMovesBack(s: State, step: Step)
    requires Inv(s) && Enabled(s, step) && C.ParseCursor(s.saved).Some?
    ensures var c, c' := C.ParseCursor(s.saved).value, C.ParseCursor(Do(s, step).saved);
            c'.Some? && c.historyId <= c'.value.historyId && (c'.value.backfill ==> c.backfill && c.historyId == c'.value.historyId)
  {
    if step.Checkpoint? {
      C.CursorRoundTrip(s.pass.h, if s.pass.next == "" then "x" else s.pass.next);
    } else if step.Return? {
      C.CursorRoundTrip(s.pass.current, "x");
    }
    hide C.ParseCursor, C.IncrementalCursor, C.BackfillCursor, Mailbox, F.LastOnly, F.StableSort, F.Events;
  }
}
