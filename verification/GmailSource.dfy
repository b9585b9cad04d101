/**
The mailbox behind the Gmail connector, as a growing log of history records.
A record names the messages it deleted and added; a message named by both may
end up either present or gone, so the record also carries the actual outcome.
*/
module GmailSource {
  import opened Common
  import F = GmailFold

  type Id = string
  type Content = string

  datatype Record = Record(id: nat, deleted: seq<Id>, added: seq<Id>, after: map<Id, Option<Content>>)

  ghost predicate WellFormed(r: Record)
  {
    && (forall x :: x in r.after <==> x in r.deleted || x in r.added)
    && (forall x <- r.after :: (x !in r.added ==> r.after[x].None?) && (x !in r.deleted ==> r.after[x].Some?))
    && "" !in r.after
  }

  /** A log: well-formed records with strictly rising ids, none newer than `now`. */
  ghost predicate IsLog(log: seq<Record>, now: nat)
  {
    && (forall i :: 0 <= i < |log| ==> WellFormed(log[i]) && log[i].id <= now)
    && (forall i, j :: 0 <= i < j < |log| ==> log[i].id < log[j].id)
  }

  function Effect(m: map<Id, Content>, r: Record): map<Id, Content>
  {
    map x | x in m.Keys + r.after.Keys && (if x in r.after then r.after[x].Some? else x in m)
      :: if x in r.after then r.after[x].value else m[x]
  }

  /** The messages present after the whole log. */
  function Mailbox(log: seq<Record>): map<Id, Content>
  {
    if log == [] then map[] else Effect(Mailbox(log[..|log| - 1]), log[|log| - 1])
  }

  /** Some record newer than history id `h` concerns message `x`. */
  predicate Touched(log: seq<Record>, x: Id, h: nat)
  {
    exists i :: 0 <= i < |log| && log[i].id > h && x in log[i].after
  }

  lemma {:induction false} MailboxSnoc(log: seq<Record>, r: Record, x: Id)
    ensures Lookup(Mailbox(log + [r]), x) == if x in r.after then r.after[x] else Lookup(Mailbox(log), x)
  {
    assert (log + [r])[..|log|] == log;
  }

  lemma {:induction false} TouchedSnoc(log: seq<Record>, r: Record, x: Id, h: nat)
    ensures Touched(log + [r], x, h) <==> Touched(log, x, h) || (r.id > h && x in r.after)
  {
    var log' := log + [r];
    assert log'[|log|] == r;
    if Touched(log, x, h) {
      var i :| 0 <= i < |log| && log[i].id > h && x in log[i].after;
      assert log'[i] == log[i];
    }
  }

  /** A message untouched from position `n` on is as it was there. */
  lemma {:induction false} UntouchedIsUnchanged(log: seq<Record>, n: nat, x: Id)
    requires n <= |log|
    requires forall i :: n <= i < |log| ==> x !in log[i].after
    ensures Lookup(Mailbox(log), x) == Lookup(Mailbox(log[..n]), x)
  {
    if n == |log| {
      assert log[..n] == log;
    } else {
      var front := log[..|log| - 1];
      UntouchedIsUnchanged(front, n, x);
      assert front[..n] == log[..n];
      assert log == front + [log[|log| - 1]];
      MailboxSnoc(front, log[|log| - 1], x);
    }
  }

  // ---------------------------------------------------------------- what history.list returns

  function Refs(xs: seq<Id>): (refs: seq<Option<string>>)
    ensures |refs| == |xs| && forall i :: 0 <= i < |xs| ==> refs[i] == Some(xs[i])
  {
    seq(|xs|, i requires 0 <= i < |xs| => Some(xs[i]))
  }

  function AsHistory(r: Record): F.History
  {
    F.History(r.id, Refs(r.deleted), Refs(r.added))
  }

  /** The history records newer than `h`, oldest first. */
  function Since(log: seq<Record>, h: nat): seq<F.History>
  {
    if log == [] then []
    else
      var n := |log| - 1;
      if log[n].id > h then Since(log[..n], h) + [AsHistory(log[n])] else Since(log[..n], h)
  }

  lemma {:induction false} SinceIsAscending(log: seq<Record>, now: nat, h: nat)
    requires IsLog(log, now)
    ensures F.Ascending(Since(log, h))
    ensures forall r <- Since(log, h) :: exists i :: 0 <= i < |log| && log[i].id == r.id
  {
    if log != [] {
      var n := |log| - 1;
      SinceIsAscending(log[..n], now, h);
      forall r | r in Since(log, h) ensures exists i :: 0 <= i < |log| && log[i].id == r.id {
        if r in Since(log[..n], h) {
          var i :| 0 <= i < n && log[..n][i].id == r.id;
          assert log[i].id == r.id;
        } else {
          assert log[n].id == r.id;
        }
      }
    }
  }

  /** The kind of the last event for `x`, if any. */
  function LastKind(evs: seq<F.Event>, x: Id): Option<F.Kind>
  {
    if evs == [] then None
    else if evs[|evs| - 1].msg == x then Some(evs[|evs| - 1].kind)
    else LastKind(evs[..|evs| - 1], x)
  }

  lemma {:induction false} LastKindConcat(a: seq<F.Event>, b: seq<F.Event>, x: Id)
    ensures LastKind(a + b, x) == if LastKind(b, x).Some? then LastKind(b, x) else LastKind(a, x)
  {
    if b == [] {
      assert a + b == a;
    } else {
      assert (a + b)[..|a + b| - 1] == a + b[..|b| - 1];
      LastKindConcat(a, b[..|b| - 1], x);
    }
  }

  lemma {:induction false} LastKindIsLast(evs: seq<F.Event>, i: nat)
    requires i < |evs| && F.IsLast(evs, i)
    ensures LastKind(evs, evs[i].msg) == Some(evs[i].kind)
  {
    var n := |evs| - 1;
    if i < n {
      assert evs[n].msg != evs[i].msg;
      assert evs[..n][i] == evs[i];
      LastKindIsLast(evs[..n], i);
    }
  }

  lemma {:induction false} LastKindMentions(evs: seq<F.Event>, x: Id)
    ensures LastKind(evs, x).Some? <==> F.Mentions(evs, x)
  {
    if evs != [] {
      var n := |evs| - 1;
      LastKindMentions(evs[..n], x);
      assert evs[n].msg == x ==> F.Mentions(evs, x);
      assert F.Mentions(evs[..n], x) ==> F.Mentions(evs, x) by {
        if F.Mentions(evs[..n], x) {
          var i :| 0 <= i < n && evs[..n][i].msg == x;
          assert evs[i].msg == x;
        }
      }
      if F.Mentions(evs, x) && evs[n].msg != x {
        var i :| 0 <= i < |evs| && evs[i].msg == x;
        assert evs[..n][i].msg == x;
      }
    }
  }

  lemma {:induction false} NamedKind(xs: seq<Id>, kind: F.Kind, h: nat, x: Id)
    requires x != ""
    ensures LastKind(F.Named(Refs(xs), kind, h), x) == if x in xs then Some(kind) else None
  {
    if xs == [] {
      assert Refs(xs) == [];
    } else {
      NamedKind(xs[1..], kind, h, x);
      assert Refs(xs)[1..] == Refs(xs[1..]);
      var tail := F.Named(Refs(xs[1..]), kind, h);
      var head := F.Named(Refs(xs)[..1], kind, h);
      assert Refs(xs) == Refs(xs)[..1] + Refs(xs[1..]);
      F.NamedConcat(Refs(xs)[..1], Refs(xs[1..]), kind, h);
      LastKindConcat(head, tail, x);
      assert Refs(xs)[..1][1..] == [];
      assert LastKind(head, x) == if x == xs[0] then Some(kind) else None;
      assert x in xs <==> x == xs[0] || x in xs[1..];
    }
  }

  lemma {:induction false} RecordKind(r: Record, x: Id)
    requires WellFormed(r) && x != ""
    ensures LastKind(F.RecordEvents(AsHistory(r)), x)
         == if x in r.added then Some(F.Added) else if x in r.deleted then Some(F.Deleted) else None
  {
    NamedKind(r.deleted, F.Deleted, r.id, x);
    NamedKind(r.added, F.Added, r.id, x);
    LastKindConcat(F.Named(Refs(r.deleted), F.Deleted, r.id), F.Named(Refs(r.added), F.Added, r.id), x);
  }

  lemma {:induction false} SinceEventsSnoc(log: seq<Record>, r: Record, h: nat)
    requires r.id > h
    ensures F.Events(Since(log + [r], h)) == F.Events(Since(log, h)) + F.RecordEvents(AsHistory(r))
  {
    assert (log + [r])[..|log|] == log;
    var one := [AsHistory(r)];
    F.EventsConcat(Since(log, h), one);
    assert F.Events(one) == F.RecordEvents(one[0]) + F.Events(one[1..]);
    assert F.Events(one) == F.RecordEvents(one[0]);
  }

  /**
   * The events newer than `h` name exactly the touched messages; and when the
   * last event of a message is a deletion, the message is really gone.
   */
  lemma {:induction false} EventsTellTheTruth(log: seq<Record>, now: nat, h: nat, x: Id)
    requires IsLog(log, now) && x != ""
    ensures F.Mentions(F.Events(Since(log, h)), x) <==> Touched(log, x, h)
    ensures LastKind(F.Events(Since(log, h)), x) == Some(F.Deleted) ==> Lookup(Mailbox(log), x) == None
  {
    LastKindMentions(F.Events(Since(log, h)), x);
    if log != [] {
      var n := |log| - 1;
      var front, r := log[..n], log[n];
      assert log == front + [r];
      EventsTellTheTruth(front, now, h, x);
      LastKindMentions(F.Events(Since(front, h)), x);
      MailboxSnoc(front, r, x);
      TouchedSnoc(front, r, x, h);
      if r.id > h {
        SinceEventsSnoc(front, r, h);
        RecordKind(r, x);
        LastKindConcat(F.Events(Since(front, h)), F.RecordEvents(AsHistory(r)), x);
      } else {
        OlderIsUntouched(log, now, h, x);
      }
    }
  }

  lemma {:induction false} OlderIsUntouched(log: seq<Record>, now: nat, h: nat, x: Id)
    requires IsLog(log, now) && log != [] && log[|log| - 1].id <= h
    ensures !Touched(log, x, h) && Since(log, h) == []
  {
    assert forall i :: 0 <= i < |log| ==> log[i].id <= h;
    NothingSince(log, h);
  }

  lemma {:induction false} NothingSince(log: seq<Record>, h: nat)
    requires forall i :: 0 <= i < |log| ==> log[i].id <= h
    ensures Since(log, h) == []
  {
    if log != [] { NothingSince(log[..|log| - 1], h); }
  }

  /** Whatever order the pages came in, the fold yields one change per touched message, and a deletion is true. */
  lemma {:induction false} FoldTellsTheTruth(log: seq<Record>, now: nat, h: nat, pages: seq<F.History>, x: Id)
    requires IsLog(log, now) && x != ""
    requires F.SameRecords(pages, Since(log, h))
    ensures var todo := F.LastOnly(F.Events(F.StableSort(pages)));
            && (F.Mentions(todo, x) <==> Touched(log, x, h))
            && (forall e <- todo :: e.msg == x && e.kind == F.Deleted ==> Lookup(Mailbox(log), x) == None)
  {
    F.StableSortSorts(pages);
    SinceIsAscending(log, now, h);
    assert F.SameRecords(F.StableSort(pages), Since(log, h)) by {
      forall id: nat ensures F.WithId(F.StableSort(pages), id) == F.WithId(Since(log, h), id) {
        assert F.WithId(F.StableSort(pages), id) == F.WithId(pages, id);
      }
    }
    F.StableSortUnique(F.StableSort(pages), Since(log, h));
    var evs := F.Events(Since(log, h));
    F.LastOnlyIsDistinct(evs);
    F.LastOnlyIsLast(evs);
    EventsTellTheTruth(log, now, h, x);
    forall e | e in F.LastOnly(evs) && e.msg == x && e.kind == F.Deleted ensures Lookup(Mailbox(log), x) == None {
      var i :| 0 <= i < |evs| && F.IsLast(evs, i) && evs[i] == e;
      LastKindIsLast(evs, i);
    }
  }
}
