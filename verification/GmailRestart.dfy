/**
Full syncs begun on an index that still holds messages the mailbox no longer
has: exactly when they converge, and how such a start comes about.
*/
module GmailRestart {
  import opened Common
  import opened Strings
  import opened GmailSource
  import opened GmailProtocol
  import F = GmailFold
  import C = GmailCursor

  // ---------------------------------------------------------------- a message that is gone and not touched again

  /** `g` is indexed but gone, nothing newer than `h` concerns it, and every position is at or after `h`. */
  ghost predicate Haunted(s: State, g: Id, h: nat)
  {
    && IsLog(s.log, s.now) && h <= s.now < UINT64_LIMIT && g != ""
    && g in s.index && g !in Mailbox(s.log) && !Touched(s.log, g, h)
    && (C.ParseCursor(s.saved).Some? ==> h <= C.ParseCursor(s.saved).value.historyId <= s.now)
    && match s.pass
       case Idle => true
       case Paging(h', _) => h <= h' <= s.now
       case Fetching(h', page, got, _, _) => h <= h' <= s.now && (got.Some? && page != [] && page[0] == g ==> got.value.None?)
       case Reading(start, _, current) => h <= start <= current <= s.now
       case Emitting(start, current, todo, _) => h <= start <= current <= s.now && !F.Mentions(todo, g)
  }

  lemma {:induction false} HauntedChange(s: State, r: Record, g: Id, h: nat)
    requires Haunted(s, g, h) && Enabled(s, Change(r)) && g !in r.after
    ensures Haunted(Do(s, Change(r)), g, h)
  {
    MailboxSnoc(s.log, r, g);
    TouchedSnoc(s.log, r, g, h);
    hide Mailbox, Touched, C.ParseCursor, F.Mentions;
  }

  lemma {:induction false} HauntedHistory(s: State, records: seq<F.History>, more: bool, g: Id, h: nat)
    requires Haunted(s, g, h) && Enabled(s, HistoryPage(records, more))
    ensures Haunted(Do(s, HistoryPage(records, more)), g, h)
  {
    hide Mailbox, C.ParseCursor, F.LastOnly, F.StableSort, F.Events, F.Mentions, F.SameRecords, IsLog, Since;
    if !more { FoldTellsTheTruth(s.log, s.now, s.pass.start, s.pass.pages + records, g); }
    TouchedLater(s.log, g, h, s.pass.start);
    hide Touched;
  }

  lemma {:induction false} TouchedLater(log: seq<Record>, x: Id, h: nat, h': nat)
    requires h <= h' && !Touched(log, x, h)
    ensures !Touched(log, x, h')
  {
  }

  lemma {:induction false} HauntedSave(s: State, step: Step, g: Id, h: nat)
    requires Haunted(s, g, h) && (step.Checkpoint? || step.Return?) && Enabled(s, step)
    ensures Haunted(Do(s, step), g, h)
  {
    if step.Checkpoint? {
      C.CursorRoundTrip(s.pass.h, if s.pass.next == "" then "x" else s.pass.next);
    } else {
      C.CursorRoundTrip(s.pass.current, "x");
    }
    hide Mailbox, Touched, C.ParseCursor, C.IncrementalCursor, C.BackfillCursor, F.Mentions, IsLog;
  }

  lemma {:induction false} HauntedEmit(s: State, g: Id, h: nat)
    requires Haunted(s, g, h) && Enabled(s, Emit)
    ensures Haunted(Do(s, Emit), g, h)
  {
    if s.pass.Emitting? { F.MentionsCons(s.pass.todo, g); }
    hide Mailbox, Touched, C.ParseCursor, F.Mentions, IsLog;
  }

  lemma {:induction false} HauntedStep(s: State, step: Step, g: Id, h: nat)
    requires Haunted(s, g, h) && Enabled(s, step)
    requires step.Change? ==> g !in step.r.after
    ensures Haunted(Do(s, step), g, h)
  {
    match step
    case Change(r) =>
      hide *;
      HauntedChange(s, r, g, h);
    case HistoryPage(records, more) =>
      hide *;
      HauntedHistory(s, records, more, g, h);
    case Checkpoint =>
      hide *;
      HauntedSave(s, step, g, h);
    case Return =>
      hide *;
      HauntedSave(s, step, g, h);
    case Emit =>
      hide *;
      HauntedEmit(s, g, h);
    case _ =>
      hide Mailbox, Touched, F.Mentions, C.IncrementalCursor, C.BackfillCursor;
  }

  predicate NeverTouches(steps: seq<Step>, g: Id)
  {
    forall i :: 0 <= i < |steps| ==> steps[i].Change? ==> g !in steps[i].r.after
  }

  lemma {:induction false} HauntedRun(s: State, steps: seq<Step>, g: Id, h: nat)
    requires Haunted(s, g, h) && Ok(s, steps) && NeverTouches(steps, g)
    ensures Haunted(Final(s, steps), g, h)
    decreases |steps|
  {
    if steps != [] {
      HauntedStep(s, steps[0], g, h);
      HauntedRun(Do(s, steps[0]), steps[1..], g, h);
    }
  }

  predicate NoRestart(steps: seq<Step>)
  {
    forall i :: 0 <= i < |steps| ==> !steps[i].StartFull?
  }

  lemma {:induction false} NoRestartIsClean(s: State, steps: seq<Step>)
    requires Ok(s, steps) && NoRestart(steps)
    ensures CleanRun(s, steps)
    decreases |steps|
  {
    if steps != [] { NoRestartIsClean(Do(s, steps[0]), steps[1..]); }
  }

  // ---------------------------------------------------------------- the same run on another index

  /** The steps do not look at the index. */
  lemma {:induction false} StepOnIndex(s: State, ix: map<Id, Content>, step: Step)
    requires Enabled(s, step)
    ensures Enabled(s.(index := ix), step)
    ensures var t, t' := Do(s, step), Do(s.(index := ix), step); t' == t.(index := t'.index)
    ensures !step.Emit? ==> Do(s, step).index == s.index && Do(s.(index := ix), step).index == ix
  {
    hide Mailbox, C.ParseCursor, F.LastOnly, F.Events, F.StableSort, Complete, F.SameRecords, Since;
  }

  /** An emission leaves a message as it is, or says the same on both. */
  lemma {:induction false} EmitOnIndex(s: State, ix: map<Id, Content>, x: Id)
    requires Enabled(s, Emit)
    ensures var a, b := Do(s, Emit).index, Do(s.(index := ix), Emit).index;
            || Lookup(a, x) == Lookup(b, x)
            || (Lookup(a, x) == Lookup(s.index, x) && Lookup(b, x) == Lookup(ix, x)
                && (s.pass.Emitting? ==> s.pass.todo[0].msg != x))
  {
  }

  /**
   * The two indexes agree on `x`, or `x` is one of the vanished messages `V`
   * and, once touched after `h`, will be emitted before any cursor passes it.
   */
  ghost predicate Mending(s: State, ix: map<Id, Content>, x: Id, V: set<Id>, h: nat)
  {
    || Lookup(s.index, x) == Lookup(ix, x)
    || (x in V && (Touched(s.log, x, h) ==>
          && (SteadyAt(s).Some? ==> Touched(s.log, x, SteadyAt(s).value))
          && (s.pass.Emitting? ==> F.Mentions(s.pass.todo, x) || Touched(s.log, x, s.pass.current))))
  }

  /** The backfill this is about began at `h`, and a replay starts from the persisted cursor. */
  ghost predicate Tracks(s: State, h: nat)
  {
    && IsLog(s.log, s.now) && s.now < UINT64_LIMIT && h <= s.now
    && (C.ParseCursor(s.saved).Some? && C.ParseCursor(s.saved).value.backfill ==> C.ParseCursor(s.saved).value.historyId == h)
    && (SteadyAt(s).Some? ==> SteadyAt(s).value <= s.now)
    && match s.pass
       case Idle => true
       case Paging(h', _) => h' == h
       case Fetching(h', _, _, _, _) => h' == h
       case Reading(start, _, current) => SteadyAt(s) == Some(start) && start <= current <= s.now
       case Emitting(start, current, _, _) => SteadyAt(s) == Some(start) && start <= current <= s.now
  }

  lemma {:induction false} SaveTracks(s: State, step: Step, h: nat)
    requires Tracks(s, h) && (step.Checkpoint? || step.Return?) && Enabled(s, step)
    ensures Tracks(Do(s, step), h)
    ensures SteadyAt(Do(s, step)) == if step.Return? then Some(s.pass.current) else if s.pass.next == "" then Some(h) else None
  {
    if step.Checkpoint? {
      C.CursorRoundTrip(s.pass.h, if s.pass.next == "" then "x" else s.pass.next);
    } else {
      C.CursorRoundTrip(s.pass.current, "x");
    }
    hide C.ParseCursor, C.IncrementalCursor, C.BackfillCursor, IsLog;
  }

  lemma {:induction false} StepTracks(s: State, step: Step, h: nat)
    requires Tracks(s, h) && Enabled(s, step) && !step.StartFull?
    ensures Tracks(Do(s, step), h)
    ensures !step.Checkpoint? && !step.Return? ==> SteadyAt(Do(s, step)) == SteadyAt(s)
  {
    hide Mailbox, C.IncrementalCursor, C.BackfillCursor, F.LastOnly, F.Events, F.StableSort, Complete, F.SameRecords, Since;
    if step.Checkpoint? || step.Return? { SaveTracks(s, step, h); }
    hide C.ParseCursor;
  }

  lemma {:induction false} ChangeMends(s: State, ix: map<Id, Content>, r: Record, x: Id, V: set<Id>, h: nat)
    requires Tracks(s, h) && Mending(s, ix, x, V, h) && Enabled(s, Change(r))
    ensures Mending(Do(s, Change(r)), ix, x, V, h)
  {
    TouchedSnoc(s.log, r, x, h);
    if SteadyAt(s).Some? { TouchedSnoc(s.log, r, x, SteadyAt(s).value); }
    if s.pass.Emitting? { TouchedSnoc(s.log, r, x, s.pass.current); }
    assert SteadyAt(Do(s, Change(r))) == SteadyAt(s);
    hide Touched, C.ParseCursor, F.Mentions, Lookup;
  }

  lemma {:induction false} FoldMends(s: State, ix: map<Id, Content>, records: seq<F.History>, x: Id, V: set<Id>, h: nat)
    requires Tracks(s, h) && Mending(s, ix, x, V, h) && Enabled(s, HistoryPage(records, false))
    ensures Mending(Do(s, HistoryPage(records, false)), ix, x, V, h)
  {
    FoldIsComplete(s, s.pass.start, s.pass.pages + records);
    var s' := Do(s, HistoryPage(records, false));
    assert SteadyAt(s') == SteadyAt(s);
    hide Touched, C.ParseCursor, F.Mentions, Lookup, F.LastOnly, F.Events, F.StableSort, Since, Mailbox;
  }

  lemma {:induction false} EmitMends(s: State, ix: map<Id, Content>, x: Id, V: set<Id>, h: nat)
    requires Tracks(s, h) && Mending(s, ix, x, V, h) && Enabled(s, Emit)
    ensures Mending(Do(s, Emit), Do(s.(index := ix), Emit).index, x, V, h)
  {
    EmitOnIndex(s, ix, x);
    if s.pass.Emitting? { F.MentionsCons(s.pass.todo, x); }
    assert SteadyAt(Do(s, Emit)) == SteadyAt(s);
    hide Touched, C.ParseCursor, F.Mentions, Lookup;
  }

  lemma {:induction false} StepMends(s: State, ix: map<Id, Content>, step: Step, x: Id, V: set<Id>, h: nat)
    requires Tracks(s, h) && Mending(s, ix, x, V, h) && Enabled(s, step) && !step.StartFull? && Enabled(s.(index := ix), step)
    ensures Mending(Do(s, step), Do(s.(index := ix), step).index, x, V, h)
  {
    StepOnIndex(s, ix, step);
    StepTracks(s, step, h);
    hide Touched, C.ParseCursor, F.Mentions, Lookup, F.LastOnly, F.Events, F.StableSort, Since, Mailbox, Complete, F.SameRecords;
    if step.Change? {
      ChangeMends(s, ix, step.r, x, V, h);
    } else if step.HistoryPage? && !step.more {
      FoldMends(s, ix, step.records, x, V, h);
    } else if step.Emit? {
      EmitMends(s, ix, x, V, h);
    } else if step.Checkpoint? || step.Return? {
      SaveTracks(s, step, h);
      assert step.Return? ==> !F.Mentions(s.pass.todo, x) by { NothingMentioned(x); }
    }
  }

  lemma {:induction false} NothingMentioned(x: Id)
    ensures !F.Mentions([], x)
  {
  }

  ghost predicate AllMending(s: State, ix: map<Id, Content>, V: set<Id>, h: nat) { forall x :: Mending(s, ix, x, V, h) }

  /** The same steps on two indexes that differ on vanished messages only. */
  lemma {:induction false} RunMends(s: State, ix: map<Id, Content>, steps: seq<Step>, V: set<Id>, h: nat)
    requires Tracks(s, h) && AllMending(s, ix, V, h) && Ok(s, steps) && NoRestart(steps)
    ensures Ok(s.(index := ix), steps)
    ensures var t, t' := Final(s, steps), Final(s.(index := ix), steps);
            t' == t.(index := t'.index) && Tracks(t, h) && AllMending(t, t'.index, V, h)
    decreases |steps|
  {
    if steps != [] {
      var s1 := Do(s, steps[0]);
      StepOnIndex(s, ix, steps[0]);
      var ix1 := Do(s.(index := ix), steps[0]).index;
      StepTracks(s, steps[0], h);
      forall x ensures Mending(s1, ix1, x, V, h) { StepMends(s, ix, steps[0], x, V, h); }
      assert NoRestart(steps[1..]);
      hide Mending, Tracks, Enabled, Do;
      RunMends(s1, ix1, steps[1..], V, h);
    }
  }

  // ---------------------------------------------------------------- exactly when a full sync converges

  /** A message no step touches is not touched afterwards, and the other way round. */
  lemma {:induction false} TouchedBySteps(s: State, steps: seq<Step>, g: Id, h: nat)
    requires IsLog(s.log, s.now) && h <= s.now && Ok(s, steps)
    ensures Touched(Final(s, steps).log, g, h) <==> Touched(s.log, g, h) || !NeverTouches(steps, g)
    decreases |steps|
  {
    if steps != [] {
      var s1 := Do(s, steps[0]);
      if steps[0].Change? { TouchedSnoc(s.log, steps[0].r, g, h); }
      assert IsLog(s1.log, s1.now) && s1.now >= s.now && (!steps[0].Change? ==> s1.log == s.log) by {
        hide Mailbox, F.LastOnly, F.Events, F.StableSort, C.ParseCursor, Touched;
      }
      hide Touched, Enabled, Do, IsLog;
      TouchedBySteps(s1, steps[1..], g, h);
      assert NeverTouches(steps, g) <==> (steps[0].Change? ==> g !in steps[0].r.after) && NeverTouches(steps[1..], g) by {
        assert forall i :: 0 < i < |steps| ==> steps[i] == steps[1..][i - 1];
        assert forall i :: 0 <= i < |steps[1..]| ==> steps[1..][i] == steps[i + 1];
      }
    }
  }

  /** The indexed messages that the mailbox no longer has. */
  function Vanished(s: State): set<Id> { set x | x in s.index && x !in Mailbox(s.log) }

  function Purged(s: State): map<Id, Content> { map x | x in s.index && x in Mailbox(s.log) :: s.index[x] }

  /** Without the vanished messages the start would have been clean, and all would be covered. */
  lemma {:induction false} PurgedConverges(s: State, steps: seq<Step>)
    requires IsLog(s.log, s.now) && s.now < UINT64_LIMIT && "" !in s.listings
    requires Enabled(s, StartFull) && Ok(Do(s, StartFull), steps) && NoRestart(steps)
    requires SteadyAt(Final(Do(s, StartFull), steps)).Some?
    ensures var t := Final(Do(s, StartFull), steps);
            forall x :: Fresh(t.log, t.index, x, SteadyAt(t).value) || (x in Vanished(s) && !Touched(t.log, x, s.now))
  {
    var s', ix, V, h := Do(s, StartFull), Purged(s), Vanished(s), s.now;
    var p := s.(index := ix);
    assert Tracks(s', h);
    forall x ensures Mending(s', ix, x, V, h) {}
    RunMends(s', ix, steps, V, h);
    var t, t' := Final(s', steps), Final(s'.(index := ix), steps);
    assert Inv(t') by {
      assert Inv(p) && CleanStart(p);
      StartFullKeepsInv(p);
      assert Do(p, StartFull) == s'.(index := ix);
      NoRestartIsClean(s'.(index := ix), steps);
      RunKeepsInv(s'.(index := ix), steps);
    }
    var c := SteadyAt(t).value;
    assert Covered(t', c) by {
      assert SteadyAt(t') == SteadyAt(t);
      SteadyIsCovered(t', c);
    }
    hide Inv, Ok, Final, Tracks, Do, Enabled, Touched, Mailbox, Purged, C.ParseCursor;
    forall x ensures Fresh(t.log, t.index, x, c) || (x in V && !Touched(t.log, x, h)) {
      assert Fresh(t'.log, t'.index, x, c) && Mending(t, t'.index, x, V, h);
    }
  }

  /**
   * Exactly when a full sync converges.  Begun on any index and carried through
   * to the steady state, whatever the mailbox does meanwhile, it ends covered if
   * and only if the mailbox has touched every indexed message that was gone at
   * the start.
   */
  lemma {:induction false} CleanStartExact(s: State, steps: seq<Step>)
    requires IsLog(s.log, s.now) && s.now < UINT64_LIMIT && "" !in s.listings && "" !in s.index
    requires Enabled(s, StartFull) && Ok(Do(s, StartFull), steps) && NoRestart(steps)
    requires SteadyAt(Final(Do(s, StartFull), steps)).Some?
    ensures var t := Final(Do(s, StartFull), steps);
            Covered(t, SteadyAt(t).value) <==> forall g <- Vanished(s) :: Touched(t.log, g, s.now)
  {
    var s' := Do(s, StartFull);
    var t := Final(s', steps);
    PurgedConverges(s, steps);
    forall g | g in Vanished(s) && !Touched(t.log, g, s.now) ensures !Fresh(t.log, t.index, g, SteadyAt(t).value) {
      TouchedBySteps(s', steps, g, s.now);
      assert !Touched(s.log, g, s.now);
      assert Haunted(s', g, s.now);
      HauntedRun(s', steps, g, s.now);
      TouchedLater(t.log, g, s.now, SteadyAt(t).value);
    }
    hide Fresh, Touched, Mailbox, Vanished, Ok, Final, Do, Enabled;
  }

  // ---------------------------------------------------------------- how such a start comes about

  lemma {:induction false} RunCons(s: State, a: Step, rest: seq<Step>)
    requires Enabled(s, a) && Ok(Do(s, a), rest)
    ensures Ok(s, [a] + rest) && Final(s, [a] + rest) == Final(Do(s, a), rest)
  {
    hide Enabled, Do;
    assert ([a] + rest)[0] == a && ([a] + rest)[1..] == rest;
  }

  /** Message `g` arrives; a first backfill indexes it and dies; the message is deleted. */
  function UncleanRun(g: Id, v: Content): seq<Step>
  {
    [Change(Arrival(g, v))] + ([StartFull] + ([ListPage([g], "p")] + ([Get] + ([Emit] + ([Crash] + [Change(Removal(g))])))))
  }

  function Arrival(g: Id, v: Content): Record { Record(1, [], [g], map[g := Some(v)]) }

  function Removal(g: Id): Record { Record(2, [g], [], map[g := None]) }

  /** The state when the pass has died. */
  function Orphaned(g: Id, v: Content): State
  {
    State([Arrival(g, v)], 1, map["p" := Listing(1, {g})], map[g := v], "", Idle)
  }

  /** The state when the page has been listed. */
  function Listed(g: Id, v: Content): State
  {
    Orphaned(g, v).(index := map[], pass := Fetching(1, [g], None, Listing(1, {g}), "p"))
  }

  function Withdrawn(g: Id, v: Content): State { Orphaned(g, v).(log := [Arrival(g, v), Removal(g)], now := 2) }

  lemma {:induction false} OrphanIsWithdrawn(g: Id, v: Content)
    requires g != ""
    ensures Ok(Orphaned(g, v), [Change(Removal(g))]) && Final(Orphaned(g, v), [Change(Removal(g))]) == Withdrawn(g, v)
  {
    var s := Orphaned(g, v);
    assert Enabled(s, Change(Removal(g))) && Do(s, Change(Removal(g))) == Withdrawn(g, v);
    hide Enabled, Do;
    RunCons(s, Change(Removal(g)), []);
    assert [Change(Removal(g))] + [] == [Change(Removal(g))];
  }

  lemma {:induction false} ListedDies(g: Id, v: Content)
    requires g != ""
    ensures var steps := [Get] + ([Emit] + ([Crash] + [Change(Removal(g))]));
            Ok(Listed(g, v), steps) && Final(Listed(g, v), steps) == Withdrawn(g, v)
  {
    ArrivalIsSeen(g, v);
    hide Mailbox;
    var l, s3 := Listing(1, {g}), Listed(g, v);
    var s4 := s3.(pass := Fetching(1, [g], Some(Some(v)), l, "p"));
    assert Enabled(s3, Get) && Do(s3, Get) == s4;
    var s5 := s4.(index := map[g := v], pass := Fetching(1, [], None, l, "p"));
    assert [g][1..] == [];
    assert Enabled(s4, Emit) && Do(s4, Emit) == s5;
    assert Enabled(s5, Crash) && Do(s5, Crash) == Orphaned(g, v);
    hide Enabled, Do, Ok, Final;
    OrphanIsWithdrawn(g, v);
    RunCons(s5, Crash, [Change(Removal(g))]);
    RunCons(s4, Emit, [Crash] + [Change(Removal(g))]);
    RunCons(s3, Get, [Emit] + ([Crash] + [Change(Removal(g))]));
  }

  lemma {:induction false} FirstPageDies(g: Id, v: Content)
    requires g != ""
    ensures var steps := [StartFull] + ([ListPage([g], "p")] + ([Get] + ([Emit] + ([Crash] + [Change(Removal(g))]))));
            var s1 := State([Arrival(g, v)], 1, map[], map[], "", Idle);
            Ok(s1, steps) && Final(s1, steps) == Withdrawn(g, v)
  {
    hide Mailbox;
    var s1 := State([Arrival(g, v)], 1, map[], map[], "", Idle);
    var s2 := s1.(pass := Paging(1, ""));
    assert Enabled(s1, StartFull) && Do(s1, StartFull) == s2;
    assert (set x | x in [g]) == {g};
    assert ListingAfter(s2, [g]) == Listing(1, {g});
    assert Enabled(s2, ListPage([g], "p")) && Do(s2, ListPage([g], "p")) == Listed(g, v);
    hide Enabled, Do, Ok, Final, ListingAfter;
    ListedDies(g, v);
    RunCons(s2, ListPage([g], "p"), [Get] + ([Emit] + ([Crash] + [Change(Removal(g))])));
    RunCons(s1, StartFull, [ListPage([g], "p")] + ([Get] + ([Emit] + ([Crash] + [Change(Removal(g))]))));
  }

  lemma {:induction false} ArrivalIsSeen(g: Id, v: Content)
    ensures Lookup(Mailbox([Arrival(g, v)]), g) == Some(v) && g !in Mailbox([Arrival(g, v), Removal(g)])
  {
    MailboxSnoc([], Arrival(g, v), g);
    MailboxSnoc([Arrival(g, v)], Removal(g), g);
    assert [] + [Arrival(g, v)] == [Arrival(g, v)];
    assert [Arrival(g, v)] + [Removal(g)] == [Arrival(g, v), Removal(g)];
  }

  /**
   * A start that is not clean is reachable without any expired cursor: a
   * failure within the first page of a backfill leaves what it had indexed and
   * no cursor, so the next sync starts over.
   */
  lemma {:induction false} UncleanStartIsReachable(g: Id, v: Content)
    requires g != ""
    ensures Ok(Initial([], 0), UncleanRun(g, v))
    ensures var s := Final(Initial([], 0), UncleanRun(g, v)); Enabled(s, StartFull) && !CleanStart(s)
  {
    var s0 := Initial([], 0);
    assert s0.log + [Arrival(g, v)] == [Arrival(g, v)];
    assert Enabled(s0, Change(Arrival(g, v)));
    FirstPageDies(g, v);
    ArrivalIsSeen(g, v);
    assert Do(s0, Change(Arrival(g, v))) == State([Arrival(g, v)], 1, map[], map[], "", Idle);
    RunCons(s0, Change(Arrival(g, v)), [StartFull] + ([ListPage([g], "p")] + ([Get] + ([Emit] + ([Crash] + [Change(Removal(g))])))));
    hide Ok, Final, Mailbox;
    assert g in Orphaned(g, v).index;
  }
}
