/**
A backfill makes progress: whatever crashes and resumptions come in between,
each listing call continues after the last completed page.
*/
module GmailProgress {
  import opened Common
  import opened Strings
  import opened GmailSource
  import opened GmailProtocol
  import F = GmailFold
  import C = GmailCursor

  /** The token and the messages of the pages completed so far, and the page and next token of the last listing call. */
  datatype Progress = Progress(token: string, kept: set<Id>, page: seq<Id>, next: string)

  function Noted(p: Progress, step: Step): Progress
  {
    match step
    case ListPage(page, next) => p.(page := page, next := next)
    case Checkpoint => p.(token := p.next, kept := p.kept + set x | x in p.page)
    case _ => p
  }

  function After(p: Progress, steps: seq<Step>): Progress
    decreases |steps|
  {
    if steps == [] then p else After(Noted(p, steps[0]), steps[1..])
  }

  const NOTHING_YET := Progress("", {}, [], "")

  /**
   * Until the backfill that began at `h` is done: the cursor persisted is that
   * of the last completed page, a listing call asks for the page after it, and
   * the source has shown the completed pages and the one in hand.
   */
  ghost predicate Follows(s: State, h: nat, p: Progress)
  {
    && h < UINT64_LIMIT && "" !in s.listings
    && s.saved == (if p.token == "" then "" else C.BackfillCursor(h, p.token))
    && (if p.token == "" then p.kept == {} else p.token in s.listings && s.listings[p.token].seen == p.kept)
    && match s.pass
       case Idle => true
       case Paging(h', token) => h' == h && token == p.token
       case Fetching(h', _, _, l, next) => h' == h && next == p.next && l.seen == p.kept + (set x | x in p.page) && (next != "" ==> next in s.listings && s.listings[next] == l)
       case Reading(_, _, _) => false
       case Emitting(_, _, _, _) => false
  }

  lemma {:induction false} FollowsParse(s: State, h: nat, p: Progress)
    requires Follows(s, h, p)
    ensures C.ParseCursor(s.saved) == if p.token == "" then None else Some(C.CursorState(h, p.token, true))
    ensures SteadyAt(s).None?
  {
    if p.token != "" {
      C.CursorRoundTrip(h, p.token);
      hide C.ParseCursor, C.BackfillCursor;
    }
  }

  lemma {:induction false} StepFollows(s: State, step: Step, h: nat, p: Progress)
    requires Follows(s, h, p) && Enabled(s, step) && !step.StartFull?
    ensures var s' := Do(s, step); SteadyAt(s').Some? || Follows(s', h, Noted(p, step))
  {
    FollowsParse(s, h, p);
    if step.Checkpoint? && s.pass.next == "" { C.CursorRoundTrip(h, "x"); }
    hide C.ParseCursor, C.IncrementalCursor, C.BackfillCursor, Mailbox, Complete, F.LastOnly, F.Events, F.StableSort;
  }

  /** No state of the run has a steady-state cursor. */
  ghost predicate NeverSteady(s: State, steps: seq<Step>)
    requires Ok(s, steps)
    decreases |steps|
  {
    SteadyAt(s).None? && (steps == [] || NeverSteady(Do(s, steps[0]), steps[1..]))
  }

  /**
   * Over any run of a backfill, as long as no step completes it, the state
   * follows the progress made.
   */
  lemma {:induction false} RunFollows(s: State, steps: seq<Step>, h: nat, p: Progress)
    requires Follows(s, h, p) && Ok(s, steps) && forall i :: 0 <= i < |steps| ==> !steps[i].StartFull?
    requires NeverSteady(s, steps)
    ensures Follows(Final(s, steps), h, After(p, steps))
    decreases |steps|
  {
    if steps != [] {
      StepFollows(s, steps[0], h, p);
      hide Follows, Enabled, Do, SteadyAt;
      RunFollows(Do(s, steps[0]), steps[1..], h, Noted(p, steps[0]));
    }
  }

  /**
   * A backfill continues where it stopped.  From a full sync's start, through
   * any crashes, resumptions and mailbox changes: every listing call carries
   * the captured history id and the token of the last completed page, and what
   * the listing has shown is those pages and the one just listed.
   */
  lemma {:induction false} BackfillContinues(s: State, steps: seq<Step>)
    requires s.now < UINT64_LIMIT && "" !in s.listings && Enabled(s, StartFull)
    requires Ok(Do(s, StartFull), steps) && NeverSteady(Do(s, StartFull), steps) && forall i :: 0 <= i < |steps| ==> !steps[i].StartFull?
    ensures Follows(Final(Do(s, StartFull), steps), s.now, After(NOTHING_YET, steps))
  {
    RunFollows(Do(s, StartFull), steps, s.now, NOTHING_YET);
  }

  /** A resumed backfill lists with exactly the token and history id of the checkpoint. */
  lemma {:induction false} ResumeContinues(s: State, h: nat, token: string)
    requires h < UINT64_LIMIT && token != "" && s.saved == C.BackfillCursor(h, token) && s.pass.Idle?
    ensures Enabled(s, Resume) && Do(s, Resume).pass == Paging(h, token)
  {
    C.CursorRoundTrip(h, token);
    hide C.ParseCursor, C.BackfillCursor;
  }
}
