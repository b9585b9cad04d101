/**
The history fold of the Gmail connector: a list of history records, in any
order, is reduced to one final change per message id.
*/
module GmailFold {
  import opened Common

  datatype Kind = Added | Deleted

  /** One record of users.history.list.  A message reference may be nil. */
  datatype History = History(id: nat, deleted: seq<Option<string>>, added: seq<Option<string>>)

  /** One history event: what happened to which message, in which record. */
  datatype Event = Event(msg: string, kind: Kind, historyId: nat)

  /** The connector's `lastChange`: an event plus the replay sequence number of its latest update. */
  datatype Change = Change(event: Event, seqNo: nat)

  /** The named, non-empty references of one list, as events of one kind. */
  function Named(refs: seq<Option<string>>, kind: Kind, historyId: nat): seq<Event>
  {
    if refs == [] then []
    else if refs[0].Some? && refs[0].value != "" then
      [Event(refs[0].value, kind, historyId)] + Named(refs[1..], kind, historyId)
    else Named(refs[1..], kind, historyId)
  }

  /** Within one record deletions come before additions. */
  function RecordEvents(r: History): seq<Event>
  {
    Named(r.deleted, Deleted, r.id) + Named(r.added, Added, r.id)
  }

  function Events(records: seq<History>): seq<Event>
  {
    if records == [] then [] else RecordEvents(records[0]) + Events(records[1..])
  }

  // ---------------------------------------------------------------- stable sort

  function InsertRecord(r: History, rs: seq<History>): seq<History>
  {
    if rs == [] || r.id <= rs[0].id then [r] + rs else [rs[0]] + InsertRecord(r, rs[1..])
  }

  /** sort.SliceStable by record id. */
  function StableSort(rs: seq<History>): seq<History>
  {
    if rs == [] then [] else InsertRecord(rs[0], StableSort(rs[1..]))
  }

  predicate Ascending(rs: seq<History>)
  {
    forall i, j :: 0 <= i < j < |rs| ==> rs[i].id <= rs[j].id
  }

  /** The records with one id, in list order. */
  function WithId(rs: seq<History>, id: nat): seq<History>
  {
    if rs == [] then []
    else if rs[0].id == id then [rs[0]] + WithId(rs[1..], id)
    else WithId(rs[1..], id)
  }

  /** `a` holds the records of `b`, equal ids in the same relative order. */
  ghost predicate SameRecords(a: seq<History>, b: seq<History>)
  {
    forall id: nat :: WithId(a, id) == WithId(b, id)
  }

  lemma {:induction false} InsertKeepsOrder(r: History, rs: seq<History>)
    requires Ascending(rs)
    ensures Ascending(InsertRecord(r, rs))
    ensures forall x <- InsertRecord(r, rs) :: x == r || x in rs
  {
    if rs != [] && r.id > rs[0].id {
      InsertKeepsOrder(r, rs[1..]);
      var tail := InsertRecord(r, rs[1..]);
      assert forall x <- tail :: rs[0].id <= x.id;
    }
  }

  lemma {:induction false} InsertIsStable(r: History, rs: seq<History>, id: nat)
    ensures WithId(InsertRecord(r, rs), id) == WithId([r] + rs, id)
  {
    if rs != [] && r.id > rs[0].id {
      InsertIsStable(r, rs[1..], id);
      var out := InsertRecord(r, rs);
      assert out[0] == rs[0] && out[1..] == InsertRecord(r, rs[1..]);
      assert ([r] + rs)[1..] == rs;
      assert ([r] + rs[1..])[1..] == rs[1..];
      assert WithId([r] + rs, id) == if r.id == id then [r] + WithId(rs, id) else WithId(rs, id);
    }
  }

  /** The sort is ascending, loses nothing, and keeps records with equal ids in list order. */
  lemma {:induction false} StableSortSorts(rs: seq<History>)
    ensures Ascending(StableSort(rs))
    ensures SameRecords(StableSort(rs), rs)
  {
    if rs != [] {
      StableSortSorts(rs[1..]);
      InsertKeepsOrder(rs[0], StableSort(rs[1..]));
      forall id: nat ensures WithId(StableSort(rs), id) == WithId(rs, id) {
        var tail := StableSort(rs[1..]);
        InsertIsStable(rs[0], tail, id);
        assert ([rs[0]] + tail)[1..] == tail;
        assert WithId(tail, id) == WithId(rs[1..], id);
      }
    }
  }

  lemma {:induction false} WithIdMember(rs: seq<History>, r: History)
    ensures r in WithId(rs, r.id) <==> r in rs
  {
    if rs != [] {
      WithIdMember(rs[1..], r);
      assert r in rs <==> r == rs[0] || r in rs[1..];
    }
  }

  lemma {:induction false} SameMember(a: seq<History>, b: seq<History>, r: History)
    requires SameRecords(a, b)
    ensures r in a <==> r in b
  {
    WithIdMember(a, r);
    WithIdMember(b, r);
  }

  lemma {:induction false} SameRecordsTail(a: seq<History>, b: seq<History>)
    requires a != [] && b != [] && a[0] == b[0]
    requires SameRecords(a, b)
    ensures SameRecords(a[1..], b[1..])
  {
    forall id: nat ensures WithId(a[1..], id) == WithId(b[1..], id) {
      assert WithId(a, id) == WithId(b, id);
      if a[0].id == id {
        assert WithId(a, id)[1..] == WithId(a[1..], id);
        assert WithId(b, id)[1..] == WithId(b[1..], id);
      }
    }
  }

  /** A stable ascending arrangement is unique, so any order of the pages sorts to the same list. */
  lemma {:induction false} StableSortUnique(a: seq<History>, b: seq<History>)
    requires Ascending(a) && Ascending(b)
    requires SameRecords(a, b)
    ensures a == b
  {
    if a != [] { SameMember(a, b, a[0]); }
    if b != [] { SameMember(a, b, b[0]); }
    if a != [] {
      assert a[0].id == b[0].id;
      assert WithId(a, a[0].id)[0] == a[0];
      assert WithId(b, b[0].id)[0] == b[0];
      SameRecordsTail(a, b);
      StableSortUnique(a[1..], b[1..]);
    }
  }

  // ---------------------------------------------------------------- last event per message

  predicate Mentions(evs: seq<Event>, msg: string)
  {
    exists i :: 0 <= i < |evs| && evs[i].msg == msg
  }

  /** Keep exactly the events that are the last of their message. */
  function LastOnly(evs: seq<Event>): seq<Event>
  {
    if evs == [] then []
    else if Mentions(evs[1..], evs[0].msg) then LastOnly(evs[1..])
    else [evs[0]] + LastOnly(evs[1..])
  }

  predicate IsLast(evs: seq<Event>, i: int)
    requires 0 <= i < |evs|
  {
    forall j :: i < j < |evs| ==> evs[j].msg != evs[i].msg
  }

  /** Apply one event to the set of live messages. */
  function Apply(live: set<string>, e: Event): set<string>
  {
    if e.kind == Added then live + {e.msg} else live - {e.msg}
  }

  function ApplyAll(live: set<string>, evs: seq<Event>): set<string>
    decreases |evs|
  {
    if evs == [] then live else ApplyAll(Apply(live, evs[0]), evs[1..])
  }

  ghost predicate SameExcept(a: set<string>, b: set<string>, msg: string)
  {
    forall x :: x != msg ==> (x in a <==> x in b)
  }

  /** An event is lost when a later event concerns the same message. */
  lemma {:induction false} OverwrittenEventIsLost(live: set<string>, other: set<string>, evs: seq<Event>, msg: string)
    requires Mentions(evs, msg)
    requires SameExcept(live, other, msg)
    ensures ApplyAll(live, evs) == ApplyAll(other, evs)
    decreases |evs|
  {
    var a, b := Apply(live, evs[0]), Apply(other, evs[0]);
    if evs[0].msg == msg {
      assert a == b;
    } else {
      MentionsCons(evs, msg);
      OverwrittenEventIsLost(a, b, evs[1..], msg);
    }
  }

  /** Folding to last events means the same as replaying every event one by one. */
  lemma {:induction false} FoldRefinesReplay(live: set<string>, evs: seq<Event>)
    ensures ApplyAll(live, LastOnly(evs)) == ApplyAll(live, evs)
    decreases |evs|
  {
    if evs != [] {
      var rest := evs[1..];
      if Mentions(rest, evs[0].msg) {
        OverwrittenEventIsLost(live, Apply(live, evs[0]), rest, evs[0].msg);
        FoldRefinesReplay(live, rest);
      } else {
        FoldRefinesReplay(Apply(live, evs[0]), rest);
        assert LastOnly(evs)[1..] == LastOnly(rest);
      }
    }
  }

  /** Replaying events leaves a message live if its last event adds it; without an event it is as it was. */
  lemma {:induction false} LastEventDecides(live: set<string>, evs: seq<Event>, i: nat, msg: string)
    ensures i < |evs| && IsLast(evs, i) ==> (evs[i].msg in ApplyAll(live, evs) <==> evs[i].kind == Added)
    ensures !Mentions(evs, msg) ==> (msg in ApplyAll(live, evs) <==> msg in live)
    decreases |evs|
  {
    if evs != [] {
      var rest := evs[1..];
      MentionsCons(evs, msg);
      if 0 < i < |evs| {
        IsLastShift(evs, i - 1);
        LastEventDecides(Apply(live, evs[0]), rest, i - 1, msg);
      } else {
        assert i == 0 && IsLast(evs, 0) ==> !Mentions(rest, evs[0].msg);
        LastEventDecides(Apply(live, evs[0]), rest, |rest|, msg);
        LastEventDecides(Apply(live, evs[0]), rest, |rest|, evs[0].msg);
      }
    }
  }

  /** Each mentioned message appears exactly once. */
  lemma {:induction false} LastOnlyIsDistinct(evs: seq<Event>)
    ensures forall a, b :: 0 <= a < b < |LastOnly(evs)| ==> LastOnly(evs)[a].msg != LastOnly(evs)[b].msg
    ensures forall m :: Mentions(evs, m) <==> Mentions(LastOnly(evs), m)
  {
    if evs != [] {
      var rest := evs[1..];
      LastOnlyIsDistinct(rest);
      forall m ensures Mentions(evs, m) <==> Mentions(LastOnly(evs), m) {
        MentionsCons(evs, m);
        if !Mentions(rest, evs[0].msg) {
          MentionsCons(LastOnly(evs), m);
          assert LastOnly(evs)[1..] == LastOnly(rest);
        }
      }
      assert !Mentions(rest, evs[0].msg) ==> !Mentions(LastOnly(rest), evs[0].msg);
    }
  }

  lemma {:induction false} IsLastShift(evs: seq<Event>, i: nat)
    requires i + 1 < |evs|
    ensures IsLast(evs, i + 1) <==> IsLast(evs[1..], i)
  {
    var rest := evs[1..];
    assert forall j :: i + 1 < j < |evs| ==> evs[j] == rest[j - 1];
    assert forall j :: i < j < |rest| ==> rest[j] == evs[j + 1];
  }

  /** An event is kept exactly when it is the last of its message; kept events stay in event order. */
  lemma {:induction false} LastOnlyIsLast(evs: seq<Event>)
    ensures forall e <- LastOnly(evs) :: exists i :: 0 <= i < |evs| && IsLast(evs, i) && evs[i] == e
    ensures forall i :: 0 <= i < |evs| && IsLast(evs, i) ==> evs[i] in LastOnly(evs)
  {
    if evs != [] {
      var rest := evs[1..];
      LastOnlyIsLast(rest);
      LastIsNotMentioned(evs, 0);
      forall e | e in LastOnly(evs) ensures exists i :: 0 <= i < |evs| && IsLast(evs, i) && evs[i] == e {
        if e in LastOnly(rest) {
          var i :| 0 <= i < |rest| && IsLast(rest, i) && rest[i] == e;
          IsLastShift(evs, i);
          assert evs[i + 1] == e;
        }
      }
      forall i | 0 <= i < |evs| && IsLast(evs, i) ensures evs[i] in LastOnly(evs) {
        if i > 0 {
          IsLastShift(evs, i - 1);
          assert rest[i - 1] in LastOnly(rest);
        }
      }
    }
  }

  /** The kept events are ordered by their positions, each position a last one. */
  lemma {:induction false} LastOnlyInOrder(evs: seq<Event>) returns (at: seq<nat>)
    ensures |at| == |LastOnly(evs)|
    ensures forall k :: 0 <= k < |at| ==> at[k] < |evs| && IsLast(evs, at[k]) && evs[at[k]] == LastOnly(evs)[k]
    ensures forall a, b :: 0 <= a < b < |at| ==> at[a] < at[b]
  {
    at := [];
    if evs != [] {
      var rest := LastOnlyInOrder(evs[1..]);
      LastIsNotMentioned(evs, 0);
      var shifted := seq(|rest|, k requires 0 <= k < |rest| => rest[k] + 1);
      forall k | 0 <= k < |rest| ensures IsLast(evs, shifted[k]) { IsLastShift(evs, rest[k]); }
      at := if Mentions(evs[1..], evs[0].msg) then shifted else [0] + shifted;
    }
  }

  lemma {:induction false} MentionsCons(evs: seq<Event>, m: string)
    requires evs != []
    ensures Mentions(evs, m) <==> evs[0].msg == m || Mentions(evs[1..], m)
  {
    if Mentions(evs[1..], m) {
      var i :| 0 <= i < |evs[1..]| && evs[1..][i].msg == m;
      assert evs[i + 1].msg == m;
    }
    if Mentions(evs, m) && evs[0].msg != m {
      var i :| 0 <= i < |evs| && evs[i].msg == m;
      assert evs[1..][i - 1].msg == m;
    }
  }

  // ---------------------------------------------------------------- the fold itself

  /** `c` records the last event of its message among `evs`. */
  predicate Entry(c: Change, evs: seq<Event>)
  {
    1 <= c.seqNo <= |evs| && evs[c.seqNo - 1] == c.event && IsLast(evs, c.seqNo - 1)
  }

  /** After noting `evs`: one entry per message, found through `last`. */
  ghost predicate Noted(changes: seq<Change>, last: map<string, nat>, seqNo: nat, evs: seq<Event>)
  {
    && seqNo == |evs|
    && (forall k :: 0 <= k < |changes| ==> Entry(changes[k], evs))
    && (forall k :: 0 <= k < |changes| ==> changes[k].event.msg in last && last[changes[k].event.msg] == k)
    && (forall m <- last :: last[m] < |changes| && changes[last[m]].event.msg == m)
    && (forall i :: 0 <= i < |evs| ==> evs[i].msg in last)
  }

  lemma {:induction false} EntryKept(c: Change, evs: seq<Event>, e: Event)
    requires Entry(c, evs) && c.event.msg != e.msg
    ensures Entry(c, evs + [e])
  {
  }

  /** The closure `note`: the entry found through `last` is overwritten in place. */
  method Note(changes: seq<Change>, last: map<string, nat>, seqNo: nat, e: Event, ghost evs: seq<Event>)
    returns (changes': seq<Change>, last': map<string, nat>, seqNo': nat)
    requires Noted(changes, last, seqNo, evs)
    ensures Noted(changes', last', seqNo', if e.msg == "" then evs else evs + [e])
  {
    changes', last', seqNo' := changes, last, seqNo;
    if e.msg == "" { return; }
    seqNo' := seqNo' + 1;
    assert Entry(Change(e, seqNo'), evs + [e]);
    hide Entry;
    if e.msg !in last' {
      last' := last'[e.msg := |changes'|];
      changes' := changes' + [Change(e, seqNo')];
    } else {
      changes' := changes'[last'[e.msg] := Change(e, seqNo')];
    }
    forall k | 0 <= k < |changes'| ensures Entry(changes'[k], evs + [e]) {
      if k < |changes| && changes[k].event.msg != e.msg {
        EntryKept(changes[k], evs, e);
      }
    }
  }

  function InsertChange(c: Change, cs: seq<Change>): seq<Change>
  {
    if cs == [] || c.seqNo <= cs[0].seqNo then [c] + cs else [cs[0]] + InsertChange(c, cs[1..])
  }

  /** sort.Slice by sequence number. */
  function SortBySeq(cs: seq<Change>): seq<Change>
  {
    if cs == [] then [] else InsertChange(cs[0], SortBySeq(cs[1..]))
  }

  predicate Rising(cs: seq<Change>)
  {
    forall i, j :: 0 <= i < j < |cs| ==> cs[i].seqNo < cs[j].seqNo
  }

  predicate DistinctSeq(cs: seq<Change>)
  {
    forall i, j :: 0 <= i < j < |cs| ==> cs[i].seqNo != cs[j].seqNo
  }

  lemma {:induction false} InsertChangeRises(c: Change, cs: seq<Change>)
    requires Rising(cs)
    requires forall x <- cs :: x.seqNo != c.seqNo
    ensures Rising(InsertChange(c, cs))
    ensures forall x :: x in InsertChange(c, cs) <==> x == c || x in cs
  {
    if cs != [] && c.seqNo > cs[0].seqNo {
      InsertChangeRises(c, cs[1..]);
      var tail := InsertChange(c, cs[1..]);
      assert forall x <- tail :: cs[0].seqNo < x.seqNo;
      assert forall x :: x in cs <==> x == cs[0] || x in cs[1..];
    }
  }

  lemma {:induction false} SortBySeqSorts(cs: seq<Change>)
    requires DistinctSeq(cs)
    ensures Rising(SortBySeq(cs))
    ensures forall x :: x in SortBySeq(cs) <==> x in cs
  {
    if cs != [] {
      SortBySeqSorts(cs[1..]);
      InsertChangeRises(cs[0], SortBySeq(cs[1..]));
      assert forall x :: x in cs <==> x == cs[0] || x in cs[1..];
    }
  }

  function Plain(cs: seq<Change>): seq<Event>
  {
    if cs == [] then [] else [cs[0].event] + Plain(cs[1..])
  }

  /** A rising list of changes that holds exactly the last events from `from` on spells out `LastOnly`. */
  lemma {:induction false} RisingIsLastOnly(cs: seq<Change>, evs: seq<Event>, from: nat)
    requires from <= |evs| && Rising(cs)
    requires forall c <- cs :: from < c.seqNo && Entry(c, evs)
    requires forall i :: from <= i < |evs| && IsLast(evs, i) ==> Change(evs[i], i + 1) in cs
    ensures Plain(cs) == LastOnly(evs[from..])
    decreases |evs| - from
  {
    if from < |evs| {
      var rest := evs[from..];
      assert rest[1..] == evs[from + 1..];
      if IsLast(evs, from) {
        var c := Change(evs[from], from + 1);
        HeadIsNext(cs, c);
        LastIsNotMentioned(evs, from);
        forall i | from + 1 <= i < |evs| && IsLast(evs, i) ensures Change(evs[i], i + 1) in cs[1..] {
          assert Change(evs[i], i + 1) in cs;
        }
        RisingIsLastOnly(cs[1..], evs, from + 1);
      } else {
        LastIsNotMentioned(evs, from);
        assert forall c <- cs :: c.seqNo != from + 1;
        RisingIsLastOnly(cs, evs, from + 1);
      }
    } else {
      assert forall k :: 0 <= k < |cs| ==> cs[k] in cs;
    }
  }

  lemma {:induction false} HeadIsNext(cs: seq<Change>, c: Change)
    requires Rising(cs) && c in cs
    requires forall x <- cs :: c.seqNo <= x.seqNo
    ensures cs[0] == c
  {
    var k :| 0 <= k < |cs| && cs[k] == c;
    assert cs[0] in cs;
  }

  lemma {:induction false} LastIsNotMentioned(evs: seq<Event>, i: nat)
    requires i < |evs|
    ensures IsLast(evs, i) <==> !Mentions(evs[i..][1..], evs[i..][0].msg)
  {
    var rest := evs[i..][1..];
    assert forall j :: 0 <= j < |rest| ==> rest[j] == evs[i + 1 + j];
    assert forall j :: i < j < |evs| ==> evs[j] == rest[j - i - 1];
  }

  lemma {:induction false} EventsConcat(a: seq<History>, b: seq<History>)
    ensures Events(a + b) == Events(a) + Events(b)
  {
    hide RecordEvents;
    if a == [] {
      assert a + b == b;
    } else {
      EventsConcat(a[1..], b);
      assert (a + b)[1..] == a[1..] + b;
      ConcatAssoc(RecordEvents(a[0]), Events(a[1..]), Events(b));
    }
  }

  lemma {:induction false} NamedConcat(a: seq<Option<string>>, b: seq<Option<string>>, kind: Kind, id: nat)
    ensures Named(a + b, kind, id) == Named(a, kind, id) + Named(b, kind, id)
  {
    if a == [] {
      assert a + b == b;
    } else {
      NamedConcat(a[1..], b, kind, id);
      assert (a + b)[0] == a[0] && (a + b)[1..] == a[1..] + b;
      NamedFirst(a, kind, id);
      NamedFirst(a + b, kind, id);
      hide Named;
      ConcatAssoc(Named(a[..1], kind, id), Named(a[1..], kind, id), Named(b, kind, id));
      assert a[..1] == (a + b)[..1];
    }
  }

  lemma {:induction false} NamedFirst(a: seq<Option<string>>, kind: Kind, id: nat)
    requires a != []
    ensures Named(a, kind, id) == Named(a[..1], kind, id) + Named(a[1..], kind, id)
  {
    assert a[..1][1..] == [];
  }

  lemma {:induction false} NamedAreNamed(refs: seq<Option<string>>, kind: Kind, id: nat)
    ensures forall e <- Named(refs, kind, id) :: e.msg != ""
  {
    if refs != [] { NamedAreNamed(refs[1..], kind, id); }
  }

  /** The events are exactly the named references of the records: with the record's id, deleted or added as listed. */
  ghost predicate IsReference(rs: seq<History>, e: Event)
  {
    exists r <- rs :: e.msg != "" && e.historyId == r.id && Some(e.msg) in (if e.kind == Deleted then r.deleted else r.added)
  }

  lemma {:induction false} NamedExactly(refs: seq<Option<string>>, kind: Kind, id: nat, e: Event)
    ensures e in Named(refs, kind, id) <==> e.msg != "" && e.kind == kind && e.historyId == id && Some(e.msg) in refs
  {
    if refs != [] {
      NamedExactly(refs[1..], kind, id, e);
      assert refs == [refs[0]] + refs[1..];
    }
  }

  lemma {:induction false} EventsExactly(rs: seq<History>, e: Event)
    ensures e in Events(rs) <==> IsReference(rs, e)
  {
    if rs != [] {
      EventsExactly(rs[1..], e);
      NamedExactly(rs[0].deleted, Deleted, rs[0].id, e);
      NamedExactly(rs[0].added, Added, rs[0].id, e);
      assert rs == [rs[0]] + rs[1..];
      hide Named;
    }
  }

  /** Every folded change carries the history id of a record that names its message with that kind. */
  lemma {:induction false} FoldedAreReferences(rs: seq<History>, e: Event)
    ensures e in LastOnly(Events(StableSort(rs))) ==> IsReference(rs, e)
  {
    var evs := Events(StableSort(rs));
    LastOnlyIsLast(evs);
    StableSortSorts(rs);
    EventsExactly(StableSort(rs), e);
    if e in LastOnly(evs) {
      assert e in evs;
      hide LastOnly, Events, StableSort, WithId;
      var r :| r in StableSort(rs) && e.msg != "" && e.historyId == r.id && Some(e.msg) in (if e.kind == Deleted then r.deleted else r.added);
      SameMember(StableSort(rs), rs, r);
    }
  }

  lemma {:induction false} EventsAreNamed(rs: seq<History>)
    ensures forall e <- Events(rs) :: e.msg != ""
  {
    if rs != [] {
      NamedAreNamed(rs[0].deleted, Deleted, rs[0].id);
      NamedAreNamed(rs[0].added, Added, rs[0].id);
      EventsAreNamed(rs[1..]);
    }
  }

  /** One of the two inner loops of foldHistory. */
  method NoteAll(changes: seq<Change>, last: map<string, nat>, seqNo: nat,
                 refs: seq<Option<string>>, kind: Kind, id: nat, ghost evs: seq<Event>)
    returns (changes': seq<Change>, last': map<string, nat>, seqNo': nat)
    requires Noted(changes, last, seqNo, evs)
    ensures Noted(changes', last', seqNo', evs + Named(refs, kind, id))
  {
    hide Noted;
    changes', last', seqNo' := changes, last, seqNo;
    assert evs + Named([], kind, id) == evs;
    assert refs[..0] == [];
    for i := 0 to |refs|
      invariant Noted(changes', last', seqNo', evs + Named(refs[..i], kind, id))
    {
      ghost var before := evs + Named(refs[..i], kind, id);
      NamedConcat(refs[..i], [refs[i]], kind, id);
      assert refs[..i + 1] == refs[..i] + [refs[i]];
      match refs[i] {
        case None =>
          assert evs + Named(refs[..i + 1], kind, id) == before;
        case Some(msg) =>
          changes', last', seqNo' := Note(changes', last', seqNo', Event(msg, kind, id), before);
          assert evs + Named(refs[..i + 1], kind, id) == if msg == "" then before else before + [Event(msg, kind, id)];
      }
    }
    assert refs[..|refs|] == refs;
  }

  /** foldHistory: the final change of every message, ordered by that final event. */
  method FoldHistory(records: seq<History>) returns (out: seq<Event>)
    ensures out == LastOnly(Events(StableSort(records)))
  {
    hide Noted;
    var sorted := StableSort(records);
    var last: map<string, nat> := map[];
    var changes: seq<Change> := [];
    var seqNo := 0;
    NotedNothing();
    assert Events(sorted[..0]) == [];
    for i := 0 to |sorted|
      invariant Noted(changes, last, seqNo, Events(sorted[..i]))
    {
      ghost var evs := Events(sorted[..i]);
      var r := sorted[i];
      changes, last, seqNo := NoteAll(changes, last, seqNo, r.deleted, Deleted, r.id, evs);
      changes, last, seqNo := NoteAll(changes, last, seqNo, r.added, Added, r.id, evs + Named(r.deleted, Deleted, r.id));
      EventsSnoc(sorted, i);
    }
    assert sorted[..|sorted|] == sorted;
    NotedIsLastOnly(changes, last, seqNo, Events(sorted));
    out := Plain(SortBySeq(changes));
  }

  lemma {:induction false} EventsSnoc(rs: seq<History>, i: nat)
    requires i < |rs|
    ensures Events(rs[..i + 1]) == Events(rs[..i]) + Named(rs[i].deleted, Deleted, rs[i].id) + Named(rs[i].added, Added, rs[i].id)
  {
    EventsConcat(rs[..i], [rs[i]]);
    assert rs[..i + 1] == rs[..i] + [rs[i]];
    assert Events([rs[i]]) == RecordEvents(rs[i]) + Events([]) == RecordEvents(rs[i]);
    assert Events(rs[..i]) + RecordEvents(rs[i])
        == Events(rs[..i]) + Named(rs[i].deleted, Deleted, rs[i].id) + Named(rs[i].added, Added, rs[i].id);
  }

  lemma {:induction false} NotedNothing()
    ensures Noted([], map[], 0, [])
  {
  }

  lemma {:induction false} NotedIsComplete(changes: seq<Change>, last: map<string, nat>, seqNo: nat, evs: seq<Event>, i: nat)
    requires Noted(changes, last, seqNo, evs)
    requires i < |evs| && IsLast(evs, i)
    ensures Change(evs[i], i + 1) in changes
  {
    var k := last[evs[i].msg];
    assert changes[k].event.msg == evs[i].msg;
    assert evs[changes[k].seqNo - 1].msg == evs[i].msg;
    assert changes[k].seqNo - 1 == i;
  }

  lemma {:induction false} NotedIsDistinct(changes: seq<Change>, last: map<string, nat>, seqNo: nat, evs: seq<Event>)
    requires Noted(changes, last, seqNo, evs)
    ensures DistinctSeq(changes)
  {
    forall i, j | 0 <= i < j < |changes| ensures changes[i].seqNo != changes[j].seqNo {
      assert changes[i].event.msg != changes[j].event.msg;
    }
  }

  lemma {:induction false} NotedIsLastOnly(changes: seq<Change>, last: map<string, nat>, seqNo: nat, evs: seq<Event>)
    requires Noted(changes, last, seqNo, evs)
    ensures Plain(SortBySeq(changes)) == LastOnly(evs)
  {
    NotedIsDistinct(changes, last, seqNo, evs);
    SortBySeqSorts(changes);
    var cs := SortBySeq(changes);
    forall i | 0 <= i < |evs| && IsLast(evs, i) ensures Change(evs[i], i + 1) in cs {
      NotedIsComplete(changes, last, seqNo, evs, i);
    }
    assert forall c <- cs :: Entry(c, evs);
    hide Noted, SortBySeq, IsLast, LastOnly, Plain;
    RisingIsLastOnly(cs, evs, 0);
    assert evs[0..] == evs;
  }
}
