/**
The connector's own control flow: FullSync, backfill, IncrementalSync and
replayHistory as loops over API calls.  Each call is one protocol step; before
each one the mailbox may change, and each may fail: `env` says so, call by
call.  `Valid` records that the whole history is a run of the protocol, so its
theorems apply to every object.
*/
module GmailSync {
  import opened Common
  import opened Strings
  import opened GmailSource
  import opened GmailProtocol
  import F = GmailFold
  import C = GmailCursor

  lemma {:induction false} RunSnoc(s: State, steps: seq<Step>, step: Step)
    requires Ok(s, steps) && Enabled(Final(s, steps), step)
    ensures Ok(s, steps + [step]) && Final(s, steps + [step]) == Do(Final(s, steps), step)
    ensures CleanRun(s, steps + [step]) <==> CleanRun(s, steps) && (step.StartFull? ==> CleanStart(Final(s, steps)))
    decreases |steps|
  {
    hide Enabled, Do, CleanStart;
    var all := steps + [step];
    if steps == [] {
      assert all[0] == step && all[1..] == [];
      assert Ok(Do(s, step), []) && CleanRun(Do(s, step), []) && Final(Do(s, step), []) == Do(s, step);
    } else {
      assert all[0] == steps[0] && all[1..] == steps[1..] + [step];
      RunSnoc(Do(s, steps[0]), steps[1..], step);
    }
  }

  // ---------------------------------------------------------------- the environment

  /** A call is answered or fails; history.list may also find its position pruned (HTTP 404). */
  datatype Outcome = Answered | Failed | Pruned

  /** One call: the mailbox changes that race it, its outcome, and the source's answers. */
  datatype Turn = Turn(racing: seq<Step>, outcome: Outcome,
                       list: State -> (seq<Id>, string), history: State -> (seq<F.History>, bool))

  /** The source answers listing calls as its contract says. */
  ghost predicate Honest(env: nat -> Turn)
  {
    forall k: nat, s: State ::
      && (s.pass.Paging? && TokensKnown(s) ==> Enabled(s, ListPage(env(k).list(s).0, env(k).list(s).1)))
      && (s.pass.Reading? ==> Enabled(s, HistoryPage(env(k).history(s).0, env(k).history(s).1)))
  }

  ghost function AsSeq(ids: set<Id>): (r: seq<Id>)
    ensures forall x :: x in r <==> x in ids
  {
    if ids == {} then [] else var x :| x in ids; [x] + AsSeq(ids - {x})
  }

  /** A source that lists the whole mailbox, and all records since the position, in one page each. */
  ghost function OnePage(k: nat): Turn
  {
    Turn([], Answered, (s: State) => (AsSeq(Mailbox(s.log).Keys), ""),
         (s: State) => if s.pass.Reading? && s.pass.pages == [] then (Since(s.log, s.pass.start), false) else ([], true))
  }

  lemma {:induction false} OnePageIsHonest()
    ensures Honest(OnePage)
  {
    hide Mailbox, Since, C.ParseCursor;
    forall k: nat, s: State
      ensures s.pass.Paging? && TokensKnown(s) ==> Enabled(s, ListPage(OnePage(k).list(s).0, OnePage(k).list(s).1))
      ensures s.pass.Reading? ==> Enabled(s, HistoryPage(OnePage(k).history(s).0, OnePage(k).history(s).1))
    {
      if s.pass.Paging? && TokensKnown(s) {
        var l := ListingAfter(s, OnePage(k).list(s).0);
        forall x | PresentThroughout(s.log, l.since, x) ensures x in l.seen {
          assert s.log[..|s.log|] == s.log;
        }
      }
      if s.pass.Reading? && s.pass.pages == [] { assert s.pass.pages + Since(s.log, s.pass.start) == Since(s.log, s.pass.start); }
    }
  }

  lemma {:induction false} HonestListing(env: nat -> Turn, k: nat, s: State)
    requires Honest(env) && s.pass.Paging? && TokensKnown(s)
    ensures Enabled(s, ListPage(env(k).list(s).0, env(k).list(s).1))
  {
  }

  lemma {:induction false} HonestHistory(env: nat -> Turn, k: nat, s: State)
    requires Honest(env) && s.pass.Reading?
    ensures Enabled(s, HistoryPage(env(k).history(s).0, env(k).history(s).1))
  {
  }

  /** All calls from `a` up to `b` were answered. */
  ghost predicate Answers(env: nat -> Turn, a: nat, b: nat)
  {
    forall k :: a <= k < b ==> env(k).outcome == Answered
  }

  lemma {:induction false} NoTurns(env: nat -> Turn, a: nat)
    ensures Answers(env, a, a)
  {
  }

  lemma {:induction false} AnswersMeet(env: nat -> Turn, a: nat, b: nat, c: nat)
    requires a <= b <= c
    ensures Answers(env, a, c) <==> Answers(env, a, b) && Answers(env, b, c)
  {
  }

  /** Every page token the connector holds came from the source. */
  ghost predicate TokensKnown(s: State)
  {
    && s.now < UINT64_LIMIT && "" !in s.listings
    && (C.ParseCursor(s.saved).Some? && C.ParseCursor(s.saved).value.backfill ==> C.ParseCursor(s.saved).value.pageToken in s.listings)
    && match s.pass
       case Idle => true
       case Paging(h, token) => h < UINT64_LIMIT && (token == "" || token in s.listings)
       case Fetching(h, _, _, _, next) => h < UINT64_LIMIT && (next == "" || next in s.listings)
       case Reading(_, _, current) => current < UINT64_LIMIT
       case Emitting(_, current, _, _) => current < UINT64_LIMIT
  }

  lemma {:induction false} TokensStayKnown(s: State, step: Step)
    requires Enabled(s, step) && TokensKnown(s)
    ensures TokensKnown(Do(s, step))
  {
    match step
    case Resume => var d := C.ParsedIsSpelled(s.saved, C.ParseCursor(s.saved).value);
    case StartReplay => var d := C.ParsedIsSpelled(s.saved, C.ParseCursor(s.saved).value);
    case Checkpoint =>
      C.CursorRoundTrip(s.pass.h, if s.pass.next == "" then "x" else s.pass.next);
      hide C.ParseCursor, C.IncrementalCursor, C.BackfillCursor;
    case Return =>
      C.CursorRoundTrip(s.pass.current, "x");
      hide C.ParseCursor, C.IncrementalCursor;
    case _ =>
      hide F.LastOnly, F.Events, F.StableSort, F.SameRecords, Since, Mailbox, Complete, C.ParseCursor, C.IncrementalCursor, C.BackfillCursor;
  }

  // ---------------------------------------------------------------- the listing calls of a run

  /** A messages.list call: the history id and token it was made with, and the next token it returned. */
  datatype Request = Request(h: nat, token: string, next: string)

  ghost function Asked(s: State, step: Step): seq<Request>
    requires Enabled(s, step)
  {
    if step.ListPage? then [Request(s.pass.h, s.pass.token, step.next)] else []
  }

  ghost function Listings(s: State, steps: seq<Step>): seq<Request>
    requires Ok(s, steps)
    decreases |steps|
  {
    if steps == [] then [] else Asked(s, steps[0]) + Listings(Do(s, steps[0]), steps[1..])
  }

  lemma {:induction false} ListingsSnoc(s: State, steps: seq<Step>, step: Step)
    requires Ok(s, steps) && Enabled(Final(s, steps), step)
    ensures Ok(s, steps + [step]) && Listings(s, steps + [step]) == Listings(s, steps) + Asked(Final(s, steps), step)
    decreases |steps|
  {
    RunSnoc(s, steps, step);
    hide Enabled, Do, Asked;
    var all := steps + [step];
    if steps == [] {
      assert all[0] == step && all[1..] == [];
      assert Listings(Do(s, step), []) == [];
    } else {
      assert all[0] == steps[0] && all[1..] == steps[1..] + [step];
      ListingsSnoc(Do(s, steps[0]), steps[1..], step);
    }
  }

  /** The calls page on from `token`: the same history id, and each asks for the page after the one before. */
  ghost predicate Chained(calls: seq<Request>, h: nat, token: string)
  {
    && (forall i :: 0 <= i < |calls| ==> calls[i].h == h)
    && (calls != [] ==> calls[0].token == token)
    && (forall i, j :: 0 <= i < j < |calls| && j == i + 1 ==> calls[j].token == calls[i].next != "")
  }

  lemma {:induction false} NoCalls(h: nat, token: string)
    ensures Chained([], h, token)
  {
  }

  lemma {:induction false} OneMoreCall(calls: seq<Request>, h: nat, token: string, c: Request)
    requires Chained(calls, h, token) && c.h == h
    requires c.token == if calls == [] then token else calls[|calls| - 1].next
    requires calls != [] ==> calls[|calls| - 1].next != ""
    ensures Chained(calls + [c], h, token)
  {
    var all := calls + [c];
    assert all[0].token == token;
    forall i, j | 0 <= i < j < |all| && j == i + 1 ensures all[j].token == all[i].next != "" {
      assert all[i] == calls[i];
      if j < |calls| {
        assert all[j] == calls[j];
      } else {
        assert i == |calls| - 1;
      }
    }
  }

  lemma {:induction false} CheckpointIsParsed(saved: string)
    ensures forall h: nat, token :: h < UINT64_LIMIT && token != "" && saved == C.BackfillCursor(h, token) ==>
              C.ParseCursor(saved) == Some(C.CursorState(h, token, true))
  {
    hide C.ParseCursor, C.BackfillCursor;
    forall h: nat, token | h < UINT64_LIMIT && token != "" && saved == C.BackfillCursor(h, token)
      ensures C.ParseCursor(saved) == Some(C.CursorState(h, token, true))
    {
      C.CursorRoundTrip(h, token);
    }
  }

  lemma {:induction false} NotSteady(s: State)
    requires C.ParseCursor(s.saved).Some? ==> C.ParseCursor(s.saved).value.backfill
    ensures SteadyAt(s).None?
  {
  }

  lemma {:induction false} SteadyHere(s: State, h: nat)
    requires h < UINT64_LIMIT && s.saved == C.IncrementalCursor(h)
    ensures SteadyAt(s) == Some(h)
  {
    C.CursorRoundTrip(h, "x");
    hide C.ParseCursor, C.IncrementalCursor;
  }

  /** The mailbox moved on; the connector's side did not change. */
  ghost predicate Raced(s: State, s': State)
  {
    s'.pass == s.pass && s'.saved == s.saved && s'.index == s.index && s'.listings == s.listings && s.now <= s'.now
  }

  // ---------------------------------------------------------------- the connector

  class Sync {
    ghost const init: State
    ghost const env: nat -> Turn
    ghost var turn: nat
    ghost var trace: seq<Step>
    ghost var listed: seq<Request>
    ghost var st: State

    ghost predicate Valid()
      reads this
    {
      && Inv(init) && Honest(env) && Ok(init, trace) && Final(init, trace) == st
      && TokensKnown(st) && listed == Listings(init, trace)
    }

    /** Every full sync so far started clean. */
    ghost predicate Clean()
      reads this
    {
      Ok(init, trace) && CleanRun(init, trace)
    }

    ghost constructor (log: seq<Record>, now: nat, env: nat -> Turn)
      requires IsLog(log, now) && now < UINT64_LIMIT && Honest(env)
      ensures Valid() && Clean() && st == Initial(log, now) && trace == [] && this.env == env
    {
      init, trace, st := Initial(log, now), [], Initial(log, now);
      this.env, turn, listed := env, 0, [];
    }

    ghost method Take(step: Step)
      requires Valid() && Enabled(st, step)
      modifies this
      ensures Valid() && st == Do(old(st), step) && trace == old(trace) + [step] && turn == old(turn)
      ensures listed == old(listed) + Asked(old(st), step)
      ensures Clean() <==> old(Clean()) && (step.StartFull? ==> CleanStart(old(st)))
    {
      TokensStayKnown(st, step);
      hide Enabled, Do, Inv, CleanStart, TokensKnown, Honest, Asked;
      RunSnoc(init, trace, step);
      ListingsSnoc(init, trace, step);
      trace, listed, st := trace + [step], listed + Asked(st, step), Do(st, step);
    }

    /** The mailbox changes that race this turn's call. */
    ghost method Race()
      requires Valid()
      modifies this
      ensures Valid() && Raced(old(st), st) && (old(Clean()) ==> Clean()) && turn == old(turn) && listed == old(listed)
    {
      var racing := env(turn).racing;
      for i := 0 to |racing|
        invariant Valid() && Raced(old(st), st) && (old(Clean()) ==> Clean()) && turn == old(turn) && listed == old(listed)
      {
        if (racing[i].Change? || racing[i].Drift?) && Enabled(st, racing[i]) { Take(racing[i]); }
      }
    }

    /** One fallible call: racing changes, then either a failure that ends the pass or the step itself. */
    ghost method Call(step: Step) returns (ok: bool)
      requires Valid() && (step.Get? || step.Emit? || step.Checkpoint? || step.Return?) && Enabled(st, step)
      modifies this
      ensures Valid() && (old(Clean()) ==> Clean()) && turn == old(turn) + 1 && listed == old(listed)
      ensures ok <==> Answers(env, old(turn), turn)
      ensures !ok ==> st.pass.Idle? && st.saved == old(st.saved)
      ensures ok ==> exists s :: Raced(old(st), s) && Enabled(s, step) && st == Do(s, step)
    {
      Race();
      ok, turn := env(turn).outcome == Answered, turn + 1;
      if ok { Take(step); } else { Take(Crash); }
    }

    /** The context ends: the pass does too. */
    ghost method EndPass()
      requires Valid()
      modifies this
      ensures Valid() && (old(Clean()) ==> Clean()) && st == old(st).(pass := Idle) && turn == old(turn) && listed == old(listed)
    {
      Take(Crash);
    }

    /** messages.get and emit for every message of one page. */
    ghost method EmitPage() returns (ok: bool)
      requires Valid() && st.pass.Fetching? && st.pass.got.None?
      modifies this
      ensures Valid() && (old(Clean()) ==> Clean()) && old(turn) <= turn && listed == old(listed)
      ensures ok <==> Answers(env, old(turn), turn)
      ensures !ok ==> st.pass.Idle? && st.saved == old(st.saved)
      ensures ok ==> st.pass.Fetching? && st.pass.page == [] && st.pass.h == old(st.pass.h) && st.pass.next == old(st.pass.next)
    {
      ok := true;
      hide TokensKnown, Honest, Inv, Ok, CleanRun;
      while st.pass.page != []
        invariant Valid() && (old(Clean()) ==> Clean()) && st.pass.Fetching? && st.pass.got.None?
        invariant ok && old(turn) <= turn && Answers(env, old(turn), turn) && listed == old(listed)
        invariant st.pass.h == old(st.pass.h) && st.pass.next == old(st.pass.next) && st.saved == old(st.saved)
        decreases |st.pass.page|
      {
        ok := Call(Get);
        if !ok { return; }
        ok := Call(Emit);
        if !ok { return; }
      }
    }

    /** messages.list with the token in hand. */
    ghost method List() returns (ok: bool)
      requires Valid() && st.pass.Paging?
      modifies this
      ensures Valid() && (old(Clean()) ==> Clean()) && turn == old(turn) + 1
      ensures ok <==> Answers(env, old(turn), turn)
      ensures !ok ==> st.pass.Idle? && st.saved == old(st.saved) && listed == old(listed)
      ensures ok ==> st.pass.Fetching? && st.pass.got.None? && st.pass.h == old(st.pass.h)
      ensures ok ==> listed == old(listed) + [Request(old(st.pass.h), old(st.pass.token), st.pass.next)]
    {
      Race();
      var t := env(turn);
      ok, turn := t.outcome == Answered, turn + 1;
      hide Inv, Ok, CleanRun, Mailbox, Complete;
      if ok {
        HonestListing(env, turn - 1, st);
        hide Honest, TokensKnown;
        Take(ListPage(t.list(st).0, t.list(st).1));
      } else {
        Take(Crash);
      }
    }

    /** The checkpoint after a completed page. */
    ghost method CheckpointPage() returns (ok: bool)
      requires Valid() && st.pass.Fetching? && st.pass.page == []
      modifies this
      ensures Valid() && (old(Clean()) ==> Clean()) && turn == old(turn) + 1 && listed == old(listed)
      ensures ok <==> Answers(env, old(turn), turn)
      ensures !ok ==> st.pass.Idle? && st.saved == old(st.saved)
      ensures ok && old(st.pass.next) == "" ==> st.pass.Idle? && st.saved == C.IncrementalCursor(old(st.pass.h))
      ensures ok && old(st.pass.next) != "" ==> st.pass == Paging(old(st.pass.h), old(st.pass.next)) && st.saved == C.BackfillCursor(old(st.pass.h), old(st.pass.next))
    {
      ok := Call(Checkpoint);
    }

    /** One page: list it, fetch and emit its messages, and checkpoint. */
    ghost method Page() returns (ok: bool, calls: seq<Request>)
      requires Valid() && st.pass.Paging?
      modifies this
      ensures Valid() && (old(Clean()) ==> Clean()) && old(turn) < turn
      ensures listed == old(listed) + calls && (calls == [] ==> !ok)
      ensures calls == [] || exists next :: calls == [Request(old(st.pass.h), old(st.pass.token), next)]
      ensures ok <==> Answers(env, old(turn), turn)
      ensures !ok ==> st.pass.Idle?
      ensures ok && calls[0].next == "" ==> st.pass.Idle? && st.saved == C.IncrementalCursor(old(st.pass.h))
      ensures ok && calls[0].next != "" ==> st.pass == Paging(old(st.pass.h), calls[0].next) && st.saved == C.BackfillCursor(old(st.pass.h), calls[0].next)
    {
      hide *;
      var h, token := st.pass.h, st.pass.token;
      label start:
      ok := List();
      if !ok { return false, []; }
      calls := [Request(h, token, st.pass.next)];
      label listing:
      var n := turn;
      ok := EmitPage();
      AnswersMeet(env, old@start(turn), n, turn);
      if ok {
        n := turn;
        ok := CheckpointPage();
        AnswersMeet(env, old@start(turn), n, turn);
      }
    }

    /**
     * backfill: page through messages.list, checkpointing after every page.
     * `ctx` bounds the pages.  The listing calls made page on from the given
     * token with the given history id, to the last page unless a call fails.
     */
    ghost method Backfill(ctx: nat) returns (cur: Option<string>, calls: seq<Request>)
      requires Valid() && st.pass.Paging?
      modifies this
      ensures Valid() && st.pass.Idle? && (old(Clean()) ==> Clean()) && old(turn) <= turn
      ensures listed == old(listed) + calls && Chained(calls, old(st.pass.h), old(st.pass.token))
      ensures cur.Some? ==> Answers(env, old(turn), turn) && calls != [] && calls[|calls| - 1].next == ""
      ensures cur.None? ==> !Answers(env, old(turn), turn) || |calls| == ctx
      ensures cur.Some? ==> cur.value == C.IncrementalCursor(old(st.pass.h)) == st.saved
    {
      hide *;
      calls := [];
      var h, token := st.pass.h, st.pass.token;
      NoCalls(h, token);
      NoTurns(env, turn);
      while |calls| < ctx
        invariant Valid() && (old(Clean()) ==> Clean()) && st.pass == Paging(h, if calls == [] then token else calls[|calls| - 1].next)
        invariant old(turn) <= turn && Answers(env, old(turn), turn) && |calls| <= ctx
        invariant listed == old(listed) + calls && Chained(calls, h, token)
        invariant calls != [] ==> calls[|calls| - 1].next != ""
        decreases ctx - |calls|
      {
        var n := turn;
        var ok, made := Page();
        AnswersMeet(env, old(turn), n, turn);
        if made != [] { OneMoreCall(calls, h, token, made[0]); } else { assert calls + made == calls; }
        assert listed == old(listed) + (calls + made);
        calls := calls + made;
        if !ok { return None, calls; }
        if made[0].next == "" { return Some(st.saved), calls; }
      }
      EndPass();
      cur := None;
    }

    /** users.getProfile: the history id at the start. */
    ghost method CaptureHistory() returns (ok: bool)
      requires Valid() && st.pass.Idle? && st.saved == ""
      modifies this
      ensures Valid() && (old(Clean()) && CleanStart(old(st)) ==> Clean()) && turn == old(turn) + 1 && listed == old(listed)
      ensures ok <==> Answers(env, old(turn), turn)
      ensures !ok ==> st == old(st) && (old(Clean()) ==> Clean())
      ensures ok ==> st.pass == Paging(old(st.now), "") && old(st.now) < UINT64_LIMIT
    {
      ok, turn := env(turn).outcome == Answered, turn + 1;
      if ok { Take(StartFull); }
    }

    /** The pass a parsed cursor calls for. */
    ghost method Begin(c: C.CursorState)
      requires Valid() && st.pass.Idle? && C.ParseCursor(st.saved) == Some(c)
      modifies this
      ensures Valid() && (old(Clean()) ==> Clean()) && turn == old(turn) && listed == old(listed)
      ensures c.backfill ==> st.pass == Paging(c.historyId, c.pageToken)
      ensures !c.backfill ==> st.pass == Reading(c.historyId, [], c.historyId) && SteadyAt(old(st)) == Some(c.historyId)
      ensures st.now == old(st.now) && st.saved == old(st.saved) && c.historyId < UINT64_LIMIT
    {
      var step := if c.backfill then Resume else StartReplay;
      assert Enabled(st, step) by { hide C.ParseCursor; }
      Take(step);
      hide C.ParseCursor;
    }

    /**
     * FullSync: capture the history id first, then backfill from the first
     * page.  Whatever the index held, the steady-state cursor is persisted;
     * from a clean start the index is covered since then.
     */
    ghost method FullSync(ctx: nat) returns (cur: Option<string>, calls: seq<Request>)
      requires Valid() && st.pass.Idle? && st.saved == ""
      modifies this
      ensures Valid() && st.pass.Idle? && (old(Clean()) && CleanStart(old(st)) ==> Clean()) && old(turn) < turn
      ensures listed == old(listed) + calls && Chained(calls, old(st.now), "")
      ensures cur.Some? ==> Answers(env, old(turn), turn) && calls != [] && calls[|calls| - 1].next == ""
      ensures cur.None? ==> !Answers(env, old(turn), turn) || |calls| == ctx
      ensures cur.Some? ==> cur.value == st.saved && SteadyAt(st) == Some(old(st.now))
      ensures cur.Some? && Clean() ==> Covered(st, SteadyAt(st).value)
    {
      hide *;
      var ok := CaptureHistory();
      NoCalls(old(st.now), "");
      if !ok { return None, []; }
      ghost var h, n := st.pass.h, turn;
      cur, calls := Backfill(ctx);
      AnswersMeet(env, old(turn), n, turn);
      if cur.Some? { SteadyHere(st, h); }
      if Clean() { Settled(); }
    }

    /** After a clean history a steady-state cursor covers the index. */
    lemma {:induction false} Settled()
      requires Valid() && Clean()
      ensures SteadyAt(st).Some? ==> Covered(st, SteadyAt(st).value)
    {
      RunKeepsInv(init, trace);
    }

    /** One history.list call. */
    ghost method ReadPage() returns (outcome: Outcome)
      requires Valid() && st.pass.Reading?
      modifies this
      ensures Valid() && (old(Clean()) ==> Clean()) && turn == old(turn) + 1 && listed == old(listed)
      ensures outcome == env(old(turn)).outcome
      ensures st.saved == old(st.saved) && old(st.now) <= st.now
      ensures outcome == Answered ==> st.pass.Reading? || (st.pass.Emitting? && st.pass.got.None? && old(st.now) <= st.pass.current)
      ensures outcome != Answered ==> st.pass.Idle?
    {
      Race();
      var t := env(turn);
      outcome, turn := t.outcome, turn + 1;
      hide Inv, Ok, CleanRun, TokensKnown, F.LastOnly, F.Events, F.StableSort;
      if outcome == Answered {
        HonestHistory(env, turn - 1, st);
        hide Honest;
        Take(HistoryPage(t.history(st).0, t.history(st).1));
      } else {
        EndPass();
      }
    }

    /** The paging loop of replayHistory.  A pruned position is told apart from other failures. */
    ghost method ReadHistory(ctx: nat) returns (ok: bool, expired: bool)
      requires Valid() && st.pass.Reading?
      modifies this
      ensures Valid() && (old(Clean()) ==> Clean()) && old(turn) <= turn && listed == old(listed)
      ensures (ok ==> st.pass.Emitting? && st.pass.got.None?) && (!ok ==> st.pass.Idle?)
      ensures ok ==> Answers(env, old(turn), turn) && old(st.now) <= st.pass.current
      ensures !ok ==> !Answers(env, old(turn), turn) || turn == old(turn) + ctx
      ensures expired <==> exists k :: old(turn) <= k < turn && env(k).outcome == Pruned
      ensures st.saved == old(st.saved) && (expired ==> !ok)
    {
      ok, expired := true, false;
      hide TokensKnown, Honest, Inv, Ok, CleanRun;
      while st.pass.Reading?
        invariant Valid() && (old(Clean()) ==> Clean()) && st.saved == old(st.saved)
        invariant st.pass.Reading? || (st.pass.Emitting? && st.pass.got.None? && old(st.now) <= st.pass.current)
        invariant old(turn) <= turn <= old(turn) + ctx && Answers(env, old(turn), turn) && listed == old(listed) && old(st.now) <= st.now
        decreases old(turn) + ctx - turn, st.pass.Reading?
      {
        if turn == old(turn) + ctx {
          EndPass();
          return false, false;
        }
        var outcome := ReadPage();
        if outcome != Answered { return false, outcome == Pruned; }
      }
    }

    /**
     * replayHistory: emit an upsert or a tombstone per folded change, then
     * return the cursor, advanced to where the source stood or beyond.
     */
    ghost method ReplayHistory(ctx: nat) returns (cur: Option<string>, expired: bool)
      requires Valid() && st.pass.Reading?
      modifies this
      ensures Valid() && st.pass.Idle? && (old(Clean()) ==> Clean()) && listed == old(listed) && old(turn) <= turn
      ensures cur.Some? ==> Answers(env, old(turn), turn) && cur.value == st.saved && SteadyAt(st).Some? && old(st.now) <= SteadyAt(st).value
      ensures cur.None? ==> st.saved == old(st.saved) && (!Answers(env, old(turn), turn) || turn == old(turn) + ctx)
      ensures expired ==> cur.None? && exists k :: old(turn) <= k < turn && env(k).outcome == Pruned
    {
      var ok;
      ok, expired := ReadHistory(ctx);
      if !ok { return None, expired; }
      ghost var current := st.pass.current;
      hide TokensKnown, Honest, Inv, Ok, CleanRun;
      while st.pass.todo != []
        invariant Valid() && (old(Clean()) ==> Clean()) && st.pass.Emitting? && st.pass.got.None? && st.saved == old(st.saved)
        invariant old(turn) <= turn && Answers(env, old(turn), turn) && listed == old(listed) && st.pass.current == current
        decreases |st.pass.todo|
      {
        if st.pass.todo[0].kind == F.Added {
          ok := Call(Get);
          if !ok { return None, false; }
        }
        ok := Call(Emit);
        if !ok { return None, false; }
      }
      ok := Call(Return);
      if ok { C.CursorRoundTrip(current, "x"); }
      cur, expired := if ok then Some(st.saved) else None, false;
    }

    /**
     * IncrementalSync: resume the backfill a checkpoint names, or replay the
     * history.  A cursor that does not parse is expired, and so is one whose
     * position the source has pruned.
     */
    ghost method IncrementalSync(ctx: nat) returns (cur: Option<string>, expired: bool, calls: seq<Request>)
      requires Valid() && st.pass.Idle?
      modifies this
      ensures Valid() && st.pass.Idle? && (old(Clean()) ==> Clean()) && old(turn) <= turn
      ensures listed == old(listed) + calls
      ensures forall h: nat, token :: h < UINT64_LIMIT && token != "" && old(st.saved) == C.BackfillCursor(h, token) ==>
                Chained(calls, h, token) && (cur.Some? ==> cur.value == C.IncrementalCursor(h) && calls != [] && calls[|calls| - 1].next == "")
      ensures SteadyAt(old(st)).Some? ==> calls == []
      ensures cur.Some? ==> Answers(env, old(turn), turn) && cur.value == st.saved && SteadyAt(st).Some?
      ensures cur.None? ==> !Answers(env, old(turn), turn) || C.ParseCursor(old(st.saved)).None? || |calls| == ctx || turn == old(turn) + ctx
      ensures C.ParseCursor(old(st.saved)).None? ==> expired && st == old(st) && cur.None?
      ensures expired ==> C.ParseCursor(old(st.saved)).None? || (SteadyAt(old(st)).Some? && exists k :: old(turn) <= k < turn && env(k).outcome == Pruned)
      ensures SteadyAt(st).Some? && Clean() ==> Covered(st, SteadyAt(st).value)
    {
      hide *;
      calls, expired := [], false;
      var c := C.ParseCursor(st.saved);
      CheckpointIsParsed(st.saved);
      if c.None? {
        NotSteady(st);
        return None, true, [];
      }
      Begin(c.value);
      if c.value.backfill {
        NotSteady(old(st));
        cur, calls := Backfill(ctx);
        if cur.Some? { SteadyHere(st, c.value.historyId); }
      } else {
        cur, expired := ReplayHistory(ctx);
      }
      if Clean() { Settled(); }
    }
  }
}
