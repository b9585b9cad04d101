/** Feeds, as text, on which a sync goes wrong. */
module ICalFeedWitness {
  import opened Common
  import opened Documents
  import opened Text
  import opened ICalText
  import opened ICalParse
  import opened ICalEvent
  import opened ICalFeed
  import R = ICalRoundTrip

  // ---------------------------------------------------------------- a feed with one event

  function Prop(name: string, text: string): R.Node { R.Line(R.Prop(name, [], text)) }

  function Calendar(sequence: string, summary: string): R.Node
  {
    R.Component("BEGIN", "VEVENT", [Prop("UID", "1"), Prop("SEQUENCE", sequence), Prop("SUMMARY", summary)], "END", "VEVENT")
  }

  function Whole(lines: seq<string>): (fs: seq<Folded>)
    ensures |fs| == |lines| && forall i :: 0 <= i < |fs| ==> fs[i] == Folded(lines[i], [])
  {
    seq(|lines|, i requires 0 <= i < |lines| => Folded(lines[i], []))
  }

  /** The text of a feed with these items, its lines not folded. */
  function Printed(items: seq<R.Node>): string { PrintAll(Whole(R.ItemLines(items))) }

  /** The text of a feed whose only event has this SEQUENCE and SUMMARY. */
  function Feed(sequence: string, summary: string): string { Printed([Calendar(sequence, summary)]) }

  function Event(sequence: string, summary: string): VEvent
  {
    var p, q, r := R.Prop("UID", [], "1"), R.Prop("SEQUENCE", [], sequence), R.Prop("SUMMARY", [], summary);
    VEvent([Property("UID", map[], "1"), Property("SEQUENCE", map[], sequence), Property("SUMMARY", map[], summary)],
           JoinLines([R.PropText(p), R.PropText(q), R.PropText(r)]))
  }

  lemma {:induction false} WholeContents(lines: seq<string>)
    ensures Contents(Whole(lines)) == lines
  {
    var fs := Whole(lines);
    assert forall i :: 0 <= i < |fs| ==> Content(fs[i]) == lines[i] + "" == lines[i];
    assert |Contents(fs)| == |lines|;
    forall i | 0 <= i < |fs| ensures Contents(fs)[i] == lines[i] { R.ContentAt(fs, i); }
  }

  lemma {:induction false} UpperNames()
    ensures Upper("UID") == "UID" && Upper("SEQUENCE") == "SEQUENCE" && Upper("SUMMARY") == "SUMMARY" && Upper("VEVENT") == "VEVENT"
  {
    hide Upper;
    assert Upper("UID") == "UID";
    assert Upper("SEQUENCE") == "SEQUENCE";
    assert Upper("SUMMARY") == "SUMMARY";
    assert Upper("VEVENT") == "VEVENT";
  }

  lemma {:induction false} PropIsGood(name: string, text: string)
    requires R.IsToken(name) && Upper(name) == name && name != "BEGIN" && name != "END"
    ensures R.Good(Prop(name, text)) && R.EventFree(Prop(name, text))
  {
  }

  lemma {:induction false} CalendarIsGood(sequence: string, summary: string)
    ensures R.Good(Calendar(sequence, summary)) && R.Events(Calendar(sequence, summary)) == [Event(sequence, summary)]
  {
    UpperNames();
    PropIsGood("UID", "1");
    PropIsGood("SEQUENCE", sequence);
    PropIsGood("SUMMARY", summary);
    var a, b, c := Prop("UID", "1"), Prop("SEQUENCE", sequence), Prop("SUMMARY", summary);
    ThreeItems(a, b, c);
    var n := Calendar(sequence, summary);
    assert n.items == [a, b, c];
    hide Upper, R.PropText, JoinLines;
    assert R.IsEvent(n);
  }

  lemma {:induction false} ThreeItems(a: R.Node, b: R.Node, c: R.Node)
    requires a.Line? && b.Line? && c.Line?
    ensures R.AllGood([a, b, c]) <==> R.Good(a) && R.Good(b) && R.Good(c)
    ensures R.AllEventFree([a, b, c])
    ensures R.DirectProps([a, b, c]) == [R.Expected(a.prop), R.Expected(b.prop), R.Expected(c.prop)]
    ensures R.DirectLines([a, b, c]) == [R.PropText(a.prop), R.PropText(b.prop), R.PropText(c.prop)]
  {
    hide R.Good, R.Expected, R.PropText;
    assert [a, b, c][1..] == [b, c] && [b, c][1..] == [c] && [c][1..] == [];
    assert R.AllGood([c]) <==> R.Good(c) && R.AllGood([]);
    assert R.AllGood([b, c]) <==> R.Good(b) && R.AllGood([c]);
    assert R.EventFree(a) && R.EventFree(b) && R.EventFree(c);
    assert R.AllEventFree([c]) <==> R.AllEventFree([]);
    assert R.AllEventFree([b, c]) <==> R.AllEventFree([c]);
    assert R.AllGood([a, b, c]) <==> R.Good(a) && R.AllGood([b, c]);
    assert R.AllEventFree([a, b, c]) <==> R.AllEventFree([b, c]);
    assert R.DirectProps([c]) == [R.Expected(c.prop)] + R.DirectProps([]);
    assert R.DirectProps([b, c]) == [R.Expected(b.prop)] + R.DirectProps([c]);
    assert R.DirectProps([a, b, c]) == [R.Expected(a.prop)] + R.DirectProps([b, c]);
    assert R.DirectLines([c]) == [R.PropText(c.prop)] + R.DirectLines([]);
    assert R.DirectLines([b, c]) == [R.PropText(b.prop)] + R.DirectLines([c]);
    assert R.DirectLines([a, b, c]) == [R.PropText(a.prop)] + R.DirectLines([b, c]);
  }

  /** The parser returns exactly that event. */
  lemma {:induction false} FeedIsRead(sequence: string, summary: string)
    ensures EventsOfBody(Feed(sequence, summary)) == [Event(sequence, summary)]
  {
    var n := Calendar(sequence, summary);
    CalendarIsGood(sequence, summary);
    assert [n][1..] == [];
    hide Calendar, Event, EventsOfBody, Printed, R.Good, R.Events;
    assert R.AllGood([n]) && R.EventsOfItems([n]) == R.Events(n) + R.EventsOfItems([]);
    PrintedIsRead([n]);
  }

  lemma {:induction false} PrintedIsRead(items: seq<R.Node>)
    requires R.AllGood(items)
    ensures EventsOfBody(Printed(items)) == R.EventsOfItems(items)
    ensures AddLines([], Split(Printed(items))) == R.ItemLines(items) + [""]
  {
    var lines := R.ItemLines(items);
    hide R.ItemLines, R.AllGood, R.EventsOfItems, EventsOfBody, PrintAll, Contents, AddLines, Split;
    WholeContents(lines);
    R.RoundTrip(items, Whole(lines));
    R.LinesComeBack(items, Whole(lines));
  }

  lemma {:induction false} ThreeProps(p: Property, q: Property, r: Property, name: string)
    ensures Get([p, q, r], name)
         == if p.name == name then Some(p) else if q.name == name then Some(q) else if r.name == name then Some(r) else None
  {
    assert [p, q, r][1..] == [q, r] && [q, r][1..] == [r] && [r][1..] == [];
    assert Get([q, r], name) == if q.name == name then Some(q) else Get([r], name);
  }

  lemma {:induction false} EventReads(sequence: string, summary: string)
    ensures var ev := Event(sequence, summary);
            && Uid(ev) == "1" && !Canceled(ev) && Value(ev, "SUMMARY") == summary
            && (TrimSpace(sequence) != "" ==> VersionEtag(ev) == Seq(TrimSpace(sequence)))
  {
    var ev := Event(sequence, summary);
    var p, q, r := ev.props[0], ev.props[1], ev.props[2];
    ThreeProps(p, q, r, "UID");
    ThreeProps(p, q, r, "SEQUENCE");
    ThreeProps(p, q, r, "SUMMARY");
    ThreeProps(p, q, r, "STATUS");
    assert TrimSpace("1") == "1" && TrimSpace("") == "";
    assert |Upper("")| == 0;
    hide Get, TrimSpace, JoinLines, R.PropText, Upper;
  }

  lemma {:induction false} TrimDigit(c: char)
    requires '0' <= c <= '9'
    ensures TrimSpace([c]) == [c]
  {
  }

  lemma {:induction false} OnlyEvent(ev: VEvent)
    requires Uid(ev) == "1"
    ensures At([ev], "1") == Some(ev)
  {
    hide Uid;
  }

  // ---------------------------------------------------------------- a change that is not seen

  /**
   * An edit that leaves SEQUENCE alone is never indexed: from any index that
   * is the image of the first feed, syncing the second does not reach its image.
   */
  lemma {:induction false} HiddenChangeIsMissed(clock: Clock, before: string, after: string, ix: Index<Page>, gone: seq<string>)
    requires Title(before) != Title(after)
    requires IsImage(clock, ix, EventsOfBody(Feed("1", before)))
    requires AreGone(gone, EtagsOf(EventsOfBody(Feed("1", before))), EventsOfBody(Feed("1", after)))
    ensures !NoHiddenChange(clock, EventsOfBody(Feed("1", before)), EventsOfBody(Feed("1", after)))
    ensures !IsImage(clock, ApplyAll(ix, Diff(clock, EtagsOf(EventsOfBody(Feed("1", before))), EventsOfBody(Feed("1", after)), gone)),
                     EventsOfBody(Feed("1", after)))
  {
    var a, b := Event("1", before), Event("1", after);
    FeedIsRead("1", before);
    FeedIsRead("1", after);
    TrimDigit('1');
    EventReads("1", before);
    EventReads("1", after);
    OnlyEvent(a);
    OnlyEvent(b);
    assert Rendered(clock, a).title == Title(before) && Rendered(clock, b).title == Title(after);
    hide Feed, EventsOfBody, IsImage, AreGone, EtagsOf, At, Diff, ApplyAll, VersionEtag, Canceled, TrimSpace, Title, Rendered, Uid, Value, Event;
    assert !VersionTells(clock, a, b, [b], "1");
    assert !NoHiddenChange(clock, [a], [b]);
    DiffConvergesExactly(clock, ix, [a], [b], gone);
  }

  // ---------------------------------------------------------------- an override that is lost

  /** A feed with two events of one uid, under some PRODID. */
  function Pair(id: string, first: string, second: string): seq<R.Node>
  {
    [Prop("PRODID", id), Calendar("1", first), Calendar("2", second)]
  }

  lemma {:induction false} PairIsRead(id: string, first: string, second: string)
    ensures R.AllGood(Pair(id, first, second))
    ensures EventsOfBody(Printed(Pair(id, first, second))) == [Event("1", first), Event("2", second)]
  {
    hide *;
    ProductIsGood(id);
    CalendarIsGood("1", first);
    CalendarIsGood("2", second);
    ThreeNodes(Prop("PRODID", id), Calendar("1", first), Calendar("2", second));
    PairIs(id, first, second);
    PrintedIsRead(Pair(id, first, second));
  }

  lemma {:induction false} PairIs(id: string, first: string, second: string)
    ensures Pair(id, first, second) == [Prop("PRODID", id), Calendar("1", first), Calendar("2", second)]
    ensures [] + ([Event("1", first)] + [Event("2", second)]) == [Event("1", first), Event("2", second)]
  {
    hide Prop, Calendar, Event;
  }

  lemma {:induction false} ProductIsGood(id: string)
    ensures R.Good(Prop("PRODID", id)) && R.Events(Prop("PRODID", id)) == []
  {
    assert Upper("PRODID") == "PRODID";
    PropIsGood("PRODID", id);
  }

  lemma {:induction false} ThreeNodes(p: R.Node, m: R.Node, o: R.Node)
    ensures R.AllGood([p, m, o]) <==> R.Good(p) && R.Good(m) && R.Good(o)
    ensures R.EventsOfItems([p, m, o]) == R.Events(p) + (R.Events(m) + R.Events(o))
  {
    hide R.Good, R.Events;
    assert [p, m, o][1..] == [m, o] && [m, o][1..] == [o] && [o][1..] == [];
    assert R.AllGood([o]) <==> R.Good(o) && R.AllGood([]);
    assert R.AllGood([m, o]) <==> R.Good(m) && R.AllGood([o]);
    assert R.EventsOfItems([o]) == R.Events(o) + R.EventsOfItems([]) == R.Events(o);
    assert R.EventsOfItems([m, o]) == R.Events(m) + R.EventsOfItems([o]);
  }

  lemma {:induction false} PairsDiffer(id: string, id': string, first: string, second: string)
    requires id != id'
    ensures Printed(Pair(id, first, second)) != Printed(Pair(id', first, second))
  {
    var a, b := Pair(id, first, second), Pair(id', first, second);
    PairIsRead(id, first, second);
    PairIsRead(id', first, second);
    PrintedIsRead(a);
    PrintedIsRead(b);
    if Printed(a) == Printed(b) {
      assert R.ItemLines(a)[0] == R.PropText(a[0].prop) && R.ItemLines(b)[0] == R.PropText(b[0].prop);
      assert (R.ItemLines(a) + [""])[0] == R.ItemLines(a)[0] && (R.ItemLines(b) + [""])[0] == R.ItemLines(b)[0];
      R.PropRoundTrip(a[0].prop);
      R.PropRoundTrip(b[0].prop);
      hide *;
      SameText(id, id');
    }
  }

  lemma {:induction false} SameText(id: string, id': string)
    requires R.Expected(R.Prop("PRODID", [], id)) == R.Expected(R.Prop("PRODID", [], id'))
    ensures id == id'
  {
  }

  /**
   * After a FullSync of a feed with an event and its override, a sync of a
   * text that differs in the PRODID only puts the overridden event back.
   */
  lemma {:induction false} OverrideFeedIsLost(clock: Clock, id: string, id': string, first: string, second: string, s: State, s': State, gone: seq<string>)
    requires id != id' && Started(clock, s, Printed(Pair(id, first, second))) && Synced(clock, s, Printed(Pair(id', first, second)), s', gone)
    ensures Lookup(s.ix, "1") == Some(Rendered(clock, Event("2", second))) && Lookup(s'.ix, "1") == Some(Rendered(clock, Event("1", first)))
    ensures IsImage(clock, s.ix, EventsOfBody(Printed(Pair(id, first, second))))
    ensures !IsImage(clock, s'.ix, EventsOfBody(Printed(Pair(id', first, second))))
  {
    var m, o := Event("1", first), Event("2", second);
    PairIsRead(id, first, second);
    PairIsRead(id', first, second);
    PairsDiffer(id, id', first, second);
    StartIsImage(clock, s, Printed(Pair(id, first, second)));
    TrimDigit('1');
    TrimDigit('2');
    EventReads("1", first);
    EventReads("2", second);
    hide Printed, Pair, EventsOfBody, TrimSpace, Uid, Value, Event, Canceled, VersionEtag, Rendered, IsImage, EventDocs, EtagsOf, LatestStamp, AreGone, Diff, ApplyAll;
    OverrideIsLost(clock, m, o, s.ix, gone);
    DiffConvergesExactly(clock, s.ix, [m, o], [m, o], gone);
  }

  // ---------------------------------------------------------------- a change that sticks

  /**
   * After a FullSync of one feed, a pass over the next one emits the change and
   * fails; the feed then returns to its first text.  Every later sync of that
   * text succeeds, emits nothing, and leaves the withdrawn event in the index.
   */
  lemma {:induction false} WithdrawnFeedSticks(clock: Clock, first: string, second: string, s: State, ix: Index<Page>, s': State, gone: seq<string>)
    requires Started(clock, s, Feed("1", first))
    requires ix == ApplyAll(s.ix, EventDocs(clock, s.cur.events, EventsOfBody(Feed("2", second))))
    requires Synced(clock, State(ix, s.cur), Feed("1", first), s', gone)
    ensures s'.ix == ix && Lookup(ix, "1") == Some(Rendered(clock, Event("2", second))) && !IsImage(clock, s'.ix, EventsOfBody(Feed("1", first)))
  {
    var a, b := Event("1", first), Event("2", second);
    FeedIsRead("1", first);
    FeedIsRead("2", second);
    TrimDigit('1');
    TrimDigit('2');
    EventReads("1", first);
    EventReads("2", second);
    hide Feed, EventsOfBody, TrimSpace, Uid, Value, Event, Canceled, VersionEtag, Rendered, IsImage, EventDocs, EtagsOf, LatestStamp, AreGone, Diff, At, ApplyAll;
    WithdrawnChangeSticks(clock, a, b);
    FullSyncOfOne(clock, s.ix, a);
    assert s.cur.events == EtagsOf([a]);
    var d := Upsert("1", Rendered(clock, b));
    assert ix == ApplyAll(s.ix, [d]);
    ApplyLast(s.ix, [], d, "1");
    assert [] + [d] == [d];
    hide Lookup;
  }

  lemma {:induction false} FullSyncOfOne(clock: Clock, ix: Index<Page>, a: VEvent)
    requires Uid(a) == "1" && !Canceled(a) && ix == ApplyAll(map[], EventDocs(clock, map[], [a]))
    ensures ix == map["1" := Rendered(clock, a)]
  {
    hide Uid, Canceled, VersionEtag, Rendered;
    OneDoc(clock, map[], a);
    assert [Upsert("1", Rendered(clock, a))][1..] == [];
  }
}
