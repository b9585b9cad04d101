/** What a parsed VEVENT means: its identity, its version and the document made from it. */
module ICalEvent {
  import opened Common
  import opened Text
  import opened ICalParse
  import opened ICalCase

  /** The first property with the (upper-case) name. */
  function Get(props: seq<Property>, name: string): Option<Property>
  {
    if props == [] then None else if props[0].name == name then Some(props[0]) else Get(props[1..], name)
  }

  function Value(ev: VEvent, name: string): string
  {
    match Get(ev.props, name) case Some(p) => p.value case None => ""
  }

  function Uid(ev: VEvent): string { TrimSpace(Value(ev, "UID")) }

  /** strings.EqualFold with the STATUS that denotes a deletion. */
  predicate Canceled(ev: VEvent) { Upper(TrimSpace(Value(ev, "STATUS"))) == "CANCELLED" }

  /** version_etag; Sha stands for the SHA-256 of the raw block, free of collisions. */
  datatype Etag = Seq(text: string) | Mod(text: string) | Sha(raw: string)

  function VersionEtag(ev: VEvent): Etag
  {
    var s, m := TrimSpace(Value(ev, "SEQUENCE")), TrimSpace(Value(ev, "LAST-MODIFIED"));
    if s != "" then Seq(s) else if m != "" then Mod(m) else Sha(ev.raw)
  }

  function Dtstamp(ev: VEvent): string
  {
    var a, b := TrimSpace(Value(ev, "DTSTAMP")), TrimSpace(Value(ev, "LAST-MODIFIED"));
    if a != "" then a else if b != "" then b else TrimSpace(Value(ev, "CREATED"))
  }

  // ---------------------------------------------------------------- the document

  const NO_TITLE := "(no title)"

  /** How a trimmed, non-empty date-time parses, if it does. */
  type Clock = string -> Option<int>

  datatype Participant = Participant(name: string, email: string, role: string)

  /** The fields of the document that depend on the event. */
  datatype Page = Page(title: string, body: string, people: seq<Participant>, meta: map<string, string>,
                       created: Option<int>, modified: Option<int>, etag: Etag)

  function Title(summary: string): string
  {
    var t := TrimSpace(summary);
    if t == "" then NO_TITLE else t
  }

  /** DESCRIPTION and LOCATION, those that are not blank, with an empty line in between. */
  function EventBody(ev: VEvent): string
  {
    var d, l := TrimSpace(Value(ev, "DESCRIPTION")), TrimSpace(Value(ev, "LOCATION"));
    if d == "" then l else if l == "" then d else d + "\n\n" + l
  }

  function LowerChar(c: char): char { if 'A' <= c <= 'Z' then (c as int + 32) as char else c }

  function Lower(s: string): string { if s == "" then "" else [LowerChar(s[0])] + Lower(s[1..]) }

  function MailtoAddr(v: string): string
  {
    var s := TrimSpace(v);
    if |s| >= 7 && Upper(s[..7]) == "MAILTO:" then TrimSpace(s[7..]) else ""
  }

  function Actor(p: Property, role: string): seq<Participant>
  {
    var name := if "CN" in p.params then TrimSpace(p.params["CN"]) else "";
    var email := MailtoAddr(p.value);
    if name == "" && email == "" then [] else [Participant(name, email, role)]
  }

  function RoleOf(p: Property): string
  {
    if "ROLE" in p.params && TrimSpace(p.params["ROLE"]) != "" then Lower(TrimSpace(p.params["ROLE"])) else "attendee"
  }

  function Attendees(props: seq<Property>): seq<Participant>
  {
    if props == [] then []
    else
      (if props[0].name == "ATTENDEE" then Actor(props[0], RoleOf(props[0])) else []) + Attendees(props[1..])
  }

  function Participants(ev: VEvent): seq<Participant>
  {
    (match Get(ev.props, "ORGANIZER") case Some(p) => Actor(p, "organizer") case None => []) + Attendees(ev.props)
  }

  /** A blank value is omitted. */
  function Noted(meta: map<string, string>, key: string, value: string): map<string, string>
  {
    var v := TrimSpace(value);
    if v == "" then meta else meta[key := v]
  }

  function AllDay(ev: VEvent): bool
  {
    match Get(ev.props, "DTSTART")
    case Some(p) => "VALUE" in p.params && Upper(TrimSpace(p.params["VALUE"])) == "DATE"
    case None => false
  }

  function Metadata(ev: VEvent): map<string, string>
  {
    var a := Noted(Noted(map[], "uid", Value(ev, "UID")), "location", Value(ev, "LOCATION"));
    var b := Noted(Noted(a, "dtstart", Value(ev, "DTSTART")), "dtend", Value(ev, "DTEND"));
    var c := Noted(Noted(b, "status", Value(ev, "STATUS")), "url", Value(ev, "URL"));
    var d := Noted(Noted(c, "sequence", Value(ev, "SEQUENCE")), "rrule", Value(ev, "RRULE"));
    if AllDay(ev) then d["all_day" := "true"] else d
  }

  function Time(clock: Clock, value: string): Option<int>
  {
    var s := TrimSpace(value);
    if s == "" then None else clock(s)
  }

  /** The document of a live event. */
  function Rendered(clock: Clock, ev: VEvent): Page
  {
    Page(Title(Value(ev, "SUMMARY")), EventBody(ev), Participants(ev), Metadata(ev),
         Time(clock, Value(ev, "CREATED")), Time(clock, Value(ev, "LAST-MODIFIED")), VersionEtag(ev))
  }

  /** What the index should say of the event: its document, or nothing once it is cancelled. */
  function Shown(clock: Clock, ev: VEvent): Option<Page> { if Canceled(ev) then None else Some(Rendered(clock, ev)) }

  /** Documents of live events with different versions differ. */
  lemma {:induction false} VersionShows(clock: Clock, a: VEvent, b: VEvent)
    requires VersionEtag(a) != VersionEtag(b)
    ensures !Canceled(b) ==> Shown(clock, a) != Shown(clock, b)
  {
    hide VersionEtag, Canceled, EventBody, Participants, Metadata, Time, Title;
  }

  // ---------------------------------------------------------------- the fields, property by property

  /** The i-th property is the first of that name. */
  predicate FirstAt(props: seq<Property>, name: string, i: nat)
  {
    i < |props| && props[i].name == name && forall j :: 0 <= j < i ==> props[j].name != name
  }

  /** The first property of that name says `text`, blanks around it aside; nothing is said when there is none. */
  ghost predicate Says(ev: VEvent, name: string, text: string)
  {
    || (exists i: nat :: FirstAt(ev.props, name, i) && text == TrimSpace(ev.props[i].value))
    || (text == "" && forall i :: 0 <= i < |ev.props| ==> ev.props[i].name != name)
  }

  lemma {:induction false} GetIsFirst(props: seq<Property>, name: string)
    ensures match Get(props, name)
            case Some(p) => exists i: nat :: FirstAt(props, name, i) && props[i] == p
            case None => forall i :: 0 <= i < |props| ==> props[i].name != name
    ensures forall i: nat :: FirstAt(props, name, i) ==> Get(props, name) == Some(props[i])
  {
    if props != [] {
      var rest := props[1..];
      GetIsFirst(rest, name);
      assert forall i :: 0 <= i < |rest| ==> rest[i] == props[i + 1];
      if props[0].name == name {
        assert FirstAt(props, name, 0);
      } else {
        forall i: nat | FirstAt(rest, name, i) ensures FirstAt(props, name, i + 1) {}
        forall i: nat | FirstAt(props, name, i) ensures i > 0 && FirstAt(rest, name, i - 1) && rest[i - 1] == props[i] {}
      }
    }
  }

  lemma {:induction false} SaysValue(ev: VEvent, name: string, text: string)
    ensures Says(ev, name, text) <==> TrimSpace(Value(ev, name)) == text
  {
    GetIsFirst(ev.props, name);
    assert TrimSpace("") == "";
    hide TrimSpace, Get, FirstAt;
  }

  /** Identity and version. */
  lemma {:induction false} IdentityIs(ev: VEvent, u: string, status: string, sequence: string, modified: string)
    requires Says(ev, "UID", u) && Says(ev, "STATUS", status) && Says(ev, "SEQUENCE", sequence) && Says(ev, "LAST-MODIFIED", modified)
    ensures Uid(ev) == u
    ensures Canceled(ev) <==> SameWord(status, "CANCELLED")
    ensures VersionEtag(ev) == if sequence != "" then Seq(sequence) else if modified != "" then Mod(modified) else Sha(ev.raw)
  {
    SaysValue(ev, "UID", u);
    SaysValue(ev, "STATUS", status);
    SaysValue(ev, "SEQUENCE", sequence);
    SaysValue(ev, "LAST-MODIFIED", modified);
    UpperOf(status, "CANCELLED");
    hide Says, TrimSpace, Value, Upper, SameWord;
  }

  /** The freshness marker: DTSTAMP, else LAST-MODIFIED, else CREATED. */
  lemma {:induction false} DtstampIs(ev: VEvent, stamp: string, modified: string, created: string)
    requires Says(ev, "DTSTAMP", stamp) && Says(ev, "LAST-MODIFIED", modified) && Says(ev, "CREATED", created)
    ensures Dtstamp(ev) == if stamp != "" then stamp else if modified != "" then modified else created
  {
    SaysValue(ev, "DTSTAMP", stamp);
    SaysValue(ev, "LAST-MODIFIED", modified);
    SaysValue(ev, "CREATED", created);
    hide Says, TrimSpace, Value;
  }

  /** Title, text and times of the document. */
  lemma {:induction false} TextIs(clock: Clock, ev: VEvent, summary: string, description: string, location: string, created: string, modified: string)
    requires Says(ev, "SUMMARY", summary) && Says(ev, "DESCRIPTION", description) && Says(ev, "LOCATION", location)
    requires Says(ev, "CREATED", created) && Says(ev, "LAST-MODIFIED", modified)
    ensures var page := Rendered(clock, ev);
            && page.title == (if summary == "" then "(no title)" else summary)
            && page.body == (if description == "" then location else if location == "" then description else description + "\n\n" + location)
            && page.created == (if created == "" then None else clock(created))
            && page.modified == (if modified == "" then None else clock(modified))
            && page.etag == VersionEtag(ev)
  {
    SaysValue(ev, "SUMMARY", summary);
    SaysValue(ev, "DESCRIPTION", description);
    SaysValue(ev, "LOCATION", location);
    SaysValue(ev, "CREATED", created);
    SaysValue(ev, "LAST-MODIFIED", modified);
    hide Says, TrimSpace, Value, Participants, Metadata, VersionEtag;
  }

  /** The metadata keys and the properties they come from. */
  predicate Column(key: string, name: string)
  {
    || (key == "uid" && name == "UID") || (key == "location" && name == "LOCATION") || (key == "dtstart" && name == "DTSTART")
    || (key == "dtend" && name == "DTEND") || (key == "status" && name == "STATUS") || (key == "url" && name == "URL")
    || (key == "sequence" && name == "SEQUENCE") || (key == "rrule" && name == "RRULE")
  }

  /** The event lasts whole days: its first DTSTART has VALUE=DATE, in any case. */
  ghost predicate WholeDay(ev: VEvent)
  {
    exists i: nat :: FirstAt(ev.props, "DTSTART", i) && "VALUE" in ev.props[i].params && SameWord(TrimSpace(ev.props[i].params["VALUE"]), "DATE")
  }

  lemma {:induction false} AllDayIs(ev: VEvent)
    ensures AllDay(ev) <==> WholeDay(ev)
  {
    GetIsFirst(ev.props, "DTSTART");
    forall s ensures Upper(s) == "DATE" <==> SameWord(s, "DATE") { UpperOf(s, "DATE"); }
    hide Get, FirstAt, TrimSpace, Upper, SameWord;
  }

  lemma {:induction false} NotedAt(meta: map<string, string>, key: string, value: string, k: string)
    ensures Lookup(Noted(meta, key, value), k) == if k == key && TrimSpace(value) != "" then Some(TrimSpace(value)) else Lookup(meta, k)
  {
    hide TrimSpace;
  }

  /** The eight notes, one after the other. */
  lemma {:induction false} MetadataNotes(ev: VEvent, key: string)
    ensures Lookup(Metadata(ev), key) ==
              if key == "all_day" then (if AllDay(ev) then Some("true") else None)
              else if exists name :: Column(key, name) && TrimSpace(Value(ev, name)) != ""
              then (var name :| Column(key, name); Some(TrimSpace(Value(ev, name)))) else None
  {
    var a0 := Noted(map[], "uid", Value(ev, "UID"));
    NotedAt(map[], "uid", Value(ev, "UID"), key);
    var a := Noted(a0, "location", Value(ev, "LOCATION"));
    NotedAt(a0, "location", Value(ev, "LOCATION"), key);
    var b0 := Noted(a, "dtstart", Value(ev, "DTSTART"));
    NotedAt(a, "dtstart", Value(ev, "DTSTART"), key);
    var b := Noted(b0, "dtend", Value(ev, "DTEND"));
    NotedAt(b0, "dtend", Value(ev, "DTEND"), key);
    var c0 := Noted(b, "status", Value(ev, "STATUS"));
    NotedAt(b, "status", Value(ev, "STATUS"), key);
    var c := Noted(c0, "url", Value(ev, "URL"));
    NotedAt(c0, "url", Value(ev, "URL"), key);
    var d0 := Noted(c, "sequence", Value(ev, "SEQUENCE"));
    NotedAt(c, "sequence", Value(ev, "SEQUENCE"), key);
    var d := Noted(d0, "rrule", Value(ev, "RRULE"));
    NotedAt(d0, "rrule", Value(ev, "RRULE"), key);
    hide TrimSpace, Value, AllDay, Noted;
  }

  /** Nothing but what a column's property says, or the whole-day mark, is in the metadata, and all of it is. */
  lemma {:induction false} MetadataIs(ev: VEvent, key: string, v: string)
    ensures Lookup(Metadata(ev), key) == Some(v)
       <==> (v != "" && exists name :: Column(key, name) && Says(ev, name, v)) || (key == "all_day" && v == "true" && WholeDay(ev))
  {
    AllDayIs(ev);
    MetadataNotes(ev, key);
    OneColumn(key);
    forall name ensures Says(ev, name, v) <==> TrimSpace(Value(ev, name)) == v { SaysValue(ev, name, v); }
    hide Says, TrimSpace, Value, AllDay, WholeDay, Metadata, Column;
  }

  lemma {:induction false} OneColumn(key: string)
    ensures forall a, b :: Column(key, a) && Column(key, b) ==> a == b
    ensures key == "all_day" ==> forall a :: !Column(key, a)
  {
  }

  // ---------------------------------------------------------------- participants

  lemma {:induction false} LowerIs(s: string)
    ensures SameWord(Lower(s), s) && forall c <- Lower(s) :: !('A' <= c <= 'Z')
  {
    if s != "" {
      LowerIs(s[1..]);
      assert forall i :: 0 < i < |s| ==> s[i] == s[1..][i - 1];
    }
  }

  /** The address after "mailto:", in any case; other values have none. */
  lemma {:induction false} MailtoIs(v: string)
    ensures forall w, x :: TrimSpace(v) == w + x && SameWord(w, "mailto:") ==> MailtoAddr(v) == TrimSpace(x)
    ensures (forall w, x :: TrimSpace(v) == w + x ==> !SameWord(w, "mailto:")) ==> MailtoAddr(v) == ""
  {
    var s := TrimSpace(v);
    assert Upper("mailto:") == "MAILTO:";
    forall w ensures Upper(w) == "MAILTO:" <==> SameWord(w, "mailto:") { SameUpper(w, "mailto:"); }
    hide TrimSpace, Upper, SameLetter;
    forall w, x | s == w + x && SameWord(w, "mailto:") ensures s[..7] == w && s[7..] == x {}
    if |s| >= 7 { assert s == s[..7] + s[7..]; }
  }

  /** A participant: its CN and its address, unless both are blank. */
  lemma {:induction false} ActorIs(p: Property, role: string, name: string, email: string)
    requires name == if "CN" in p.params then TrimSpace(p.params["CN"]) else ""
    requires email == MailtoAddr(p.value)
    ensures Actor(p, role) == if name == "" && email == "" then [] else [Participant(name, email, role)]
  {
  }

  /** The role of an attendee: the ROLE parameter in small letters, or "attendee". */
  ghost predicate IsRole(p: Property, role: string)
  {
    var r := if "ROLE" in p.params then TrimSpace(p.params["ROLE"]) else "";
    if r == "" then role == "attendee" else SameWord(role, r) && forall c <- role :: !('A' <= c <= 'Z')
  }

  lemma {:induction false} SmallLettersOnly(a: string, b: string)
    requires SameWord(a, b) && (forall c <- a :: !('A' <= c <= 'Z')) && forall c <- b :: !('A' <= c <= 'Z')
    ensures a == b
  {
    forall i | 0 <= i < |a| ensures a[i] == b[i] { assert SameLetter(a[i], b[i]) && a[i] in a && b[i] in b; }
  }

  /** One more property: an attendee comes last, with its role; the first organizer comes first; others change nothing. */
  lemma {:induction false} OneMoreParticipant(props: seq<Property>, p: Property, raw: string, role: string)
    requires IsRole(p, role)
    ensures var before, after := Participants(VEvent(props, raw)), Participants(VEvent(props + [p], raw));
            after == if p.name == "ATTENDEE" then before + Actor(p, role)
                     else if p.name == "ORGANIZER" && Get(props, "ORGANIZER").None? then Actor(p, "organizer") + before
                     else before
    ensures Participants(VEvent([], raw)) == []
  {
    RoleIs(p, role);
    AttendeesSnoc(props, p, role);
    GetSnoc(props, p, "ORGANIZER");
    hide Actor, IsRole, Get, Attendees;
    assert Get([], "ORGANIZER") == None && Attendees([]) == [] by { NoProps(); }
  }

  lemma {:induction false} NoProps() ensures Get([], "ORGANIZER") == None && Attendees([]) == [] {}

  lemma {:induction false} GetSnoc(props: seq<Property>, p: Property, name: string)
    ensures Get(props + [p], name) == if Get(props, name).Some? then Get(props, name) else if p.name == name then Some(p) else None
  {
    if props == [] {
      assert props + [p] == [p];
    } else {
      assert (props + [p])[1..] == props[1..] + [p];
      GetSnoc(props[1..], p, name);
    }
  }

  lemma {:induction false} RoleIs(p: Property, role: string)
    requires IsRole(p, role)
    ensures RoleOf(p) == role
  {
    if "ROLE" in p.params {
      var r := TrimSpace(p.params["ROLE"]);
      LowerIs(r);
      if r != "" {
        SameUpper(role, r);
        SameUpper(Lower(r), r);
        SameUpper(role, Lower(r));
        hide Upper, Lower, SameLetter, TrimSpace;
        SmallLettersOnly(role, Lower(r));
      }
    }
  }

  lemma {:induction false} AttendeesSnoc(props: seq<Property>, p: Property, role: string)
    requires RoleOf(p) == role
    ensures Attendees(props + [p]) == Attendees(props) + if p.name == "ATTENDEE" then Actor(p, role) else []
  {
    hide Actor, RoleOf;
    if props == [] {
      assert props + [p] == [p] && [p][1..] == [];
    } else {
      assert (props + [p])[0] == props[0] && (props + [p])[1..] == props[1..] + [p];
      AttendeesSnoc(props[1..], p, role);
    }
  }
}
