/**
Parsing a WhatsApp chat export: header lines start messages, other lines
continue them, and exact duplicates are numbered.
*/
module WhatsAppParse {
  import opened Common
  import opened Text
  import Strings

  /**
   * time.Parse over the layouts of the two header families; the stamp's
   * instant, if some layout accepts it.
   */
  datatype Clock = Clock(bracket: string -> Option<int>, dash: string -> Option<int>)

  datatype Message = Message(sender: string, text: string, sentAt: int, raw: string, lineIndex: nat, occurrence: nat, system: bool, format: string)

  datatype Header = Header(sentAt: int, raw: string, rest: string, format: string)

  // ---------------------------------------------------------------- lines

  /** strings.ReplaceAll(s, "\r\n", "\n"). */
  function ReplaceCrLf(s: string): string
  {
    if s == "" then ""
    else if |s| > 1 && s[0] == '\r' && s[1] == '\n' then "\n" + ReplaceCrLf(s[2..])
    else [s[0]] + ReplaceCrLf(s[1..])
  }

  /** strings.ReplaceAll(s, "\r", "\n"). */
  function ReplaceCr(s: string): string
  {
    if s == "" then "" else [if s[0] == '\r' then '\n' else s[0]] + ReplaceCr(s[1..])
  }

  function Normalized(body: string): string { ReplaceCr(ReplaceCrLf(body)) }

  /** strings.TrimSuffix(s, "\n"). */
  function TrimNewline(s: string): string
  {
    if s != "" && s[|s| - 1] == '\n' then s[..|s| - 1] else s
  }

  function Lines(body: string): (lines: seq<string>)
    ensures lines != []
  {
    Split(TrimNewline(Normalized(body)))
  }

  // ---------------------------------------------------------------- headers

  predicate IsDirMark(c: char)
  {
    c == '\U{200e}' || c == '\U{200f}' || '\U{2066}' <= c <= '\U{2069}'
  }

  function StripDirMarks(s: string): string
  {
    if s == "" then "" else (if IsDirMark(s[0]) then "" else [s[0]]) + StripDirMarks(s[1..])
  }

  function BracketHeader(line: string, clock: Clock): Option<Header>
  {
    if line == "" || line[0] != '[' then None
    else
      var end := IndexOf(line, ']');
      if end < 1 then None
      else
        var inner := TrimSpace(line[1..end]);
        match clock.bracket(inner)
        case None => None
        case Some(t) => Some(Header(t, inner, TrimSpace(line[end + 1..]), "bracket"))
  }

  function DashHeader(line: string, clock: Clock): Option<Header>
  {
    var sep := Strings.Index(line, " - ");
    if sep < 0 then None
    else
      var stamp := TrimSpace(line[..sep]);
      match clock.dash(stamp)
      case None => None
      case Some(t) => Some(Header(t, stamp, TrimSpace(line[sep + 3..]), "dash"))
  }

  function ParseHeader(line: string, clock: Clock): Option<Header>
  {
    if BracketHeader(line, clock).Some? then BracketHeader(line, clock) else DashHeader(line, clock)
  }

  function HeaderOf(raw: string, clock: Clock): Option<Header> { ParseHeader(StripDirMarks(raw), clock) }

  /** Sender, text and whether it is a system line. */
  function SplitSenderText(rest: string): (string, string, bool)
  {
    var i := Strings.Index(rest, ": ");
    if i < 0 then ("", TrimSpace(rest), true)
    else
      var sender := TrimSpace(rest[..i]);
      if sender == "" then ("", TrimSpace(rest), true) else (sender, rest[i + 2..], false)
  }

  // ---------------------------------------------------------------- messages

  function Started(h: Header, lineIndex: nat): Message
  {
    var (sender, text, system) := SplitSenderText(h.rest);
    Message(sender, text, h.sentAt, h.raw, lineIndex, 0, system, h.format)
  }

  function Continued(m: Message, raw: string): Message
  {
    m.(text := if m.text == "" then raw else m.text + "\n" + raw)
  }

  /** One line of the export. */
  function OnLine(msgs: seq<Message>, raw: string, clock: Clock): seq<Message>
  {
    match HeaderOf(raw, clock)
    case Some(h) => msgs + [Started(h, |msgs|)]
    case None => if msgs == [] then [] else msgs[|msgs| - 1 := Continued(msgs[|msgs| - 1], raw)]
  }

  function OnLines(msgs: seq<Message>, lines: seq<string>, clock: Clock): seq<Message>
    decreases |lines|
  {
    if lines == [] then msgs else OnLines(OnLine(msgs, lines[0], clock), lines[1..], clock)
  }

  /** The identity two exact duplicates share. */
  function IdentityKey(m: Message): string { m.sender + "\0" + m.raw + "\0" + m.text }

  function Count(msgs: seq<Message>, key: string): nat
  {
    if msgs == [] then 0
    else Count(msgs[..|msgs| - 1], key) + if IdentityKey(msgs[|msgs| - 1]) == key then 1 else 0
  }

  /** Every message numbered by the duplicates before it. */
  function Numbered(msgs: seq<Message>): (r: seq<Message>)
    ensures |r| == |msgs|
    ensures forall i :: 0 <= i < |msgs| ==> r[i] == msgs[i].(occurrence := Count(msgs[..i], IdentityKey(msgs[i])))
  {
    seq(|msgs|, i requires 0 <= i < |msgs| => msgs[i].(occurrence := Count(msgs[..i], IdentityKey(msgs[i]))))
  }

  function Parsed(body: string, clock: Clock): seq<Message> { Numbered(OnLines([], Lines(body), clock)) }

  method ParseExport(body: string, clock: Clock) returns (msgs: seq<Message>)
    ensures msgs == Parsed(body, clock)
  {
    var lines := Lines(body);
    hide Lines, OnLine, Numbered, HeaderOf;
    msgs := [];
    for i := 0 to |lines|
      invariant OnLines([], lines, clock) == OnLines(msgs, lines[i..], clock)
    {
      assert lines[i..][0] == lines[i] && lines[i..][1..] == lines[i + 1..];
      msgs := ParseLine(msgs, lines[i], clock);
    }
    msgs := AssignOccurrences(msgs);
  }

  /** The loop body of parseExport. */
  method ParseLine(msgs: seq<Message>, raw: string, clock: Clock) returns (r: seq<Message>)
    ensures r == OnLine(msgs, raw, clock)
  {
    hide ParseHeader, SplitSenderText;
    r := msgs;
    var line := StripDirMarks(raw);
    var header := ParseHeader(line, clock);
    if header.None? {
      if r != [] {
        var cur := r[|r| - 1];
        if cur.text == "" { cur := cur.(text := raw); } else { cur := cur.(text := cur.text + "\n" + raw); }
        r := r[|r| - 1 := cur];
      }
      return;
    }
    var (sender, text, system) := SplitSenderText(header.value.rest);
    r := r + [Message(sender, text, header.value.sentAt, header.value.raw, |r|, 0, system, header.value.format)];
  }

  /** assignOccurrences, with its running counters. */
  method AssignOccurrences(unnumbered: seq<Message>) returns (msgs: seq<Message>)
    ensures msgs == Numbered(unnumbered)
  {
    hide IdentityKey, Count;
    msgs := unnumbered;
    var seen: map<string, nat> := map[];
    CountNone(unnumbered);
    for i := 0 to |msgs|
      invariant |msgs| == |unnumbered|
      invariant forall j :: 0 <= j < i ==> msgs[j] == unnumbered[j].(occurrence := Count(unnumbered[..j], IdentityKey(unnumbered[j])))
      invariant forall j :: i <= j < |msgs| ==> msgs[j] == unnumbered[j]
      invariant forall key :: (if key in seen then seen[key] else 0) == Count(unnumbered[..i], key)
    {
      var key := IdentityKey(msgs[i]);
      CountOne(unnumbered, i);
      var n := if key in seen then seen[key] else 0;
      msgs := msgs[i := msgs[i].(occurrence := n)];
      seen := seen[key := n + 1];
    }
    assert msgs == Numbered(unnumbered);
  }

  lemma {:induction false} CountNone(msgs: seq<Message>)
    ensures forall key :: Count(msgs[..0], key) == 0
  {
  }

  lemma {:induction false} CountOne(msgs: seq<Message>, i: nat)
    requires i < |msgs|
    ensures forall key :: Count(msgs[..i + 1], key) == Count(msgs[..i], key) + if IdentityKey(msgs[i]) == key then 1 else 0
  {
    assert msgs[..i + 1][..i] == msgs[..i];
  }

  // ---------------------------------------------------------------- growing an export

  lemma {:induction false} CrLfPair(s: string)
    requires |s| > 1 && s[0] == '\r' && s[1] == '\n'
    ensures ReplaceCrLf(s) == "\n" + ReplaceCrLf(s[2..])
  {
  }

  lemma {:induction false} CrLfSingle(s: string)
    requires s != "" && !(|s| > 1 && s[0] == '\r' && s[1] == '\n')
    ensures ReplaceCrLf(s) == [s[0]] + ReplaceCrLf(s[1..])
  {
  }

  lemma {:induction false} CrLfConcat(a: string, b: string)
    requires a != "" ==> a[|a| - 1] != '\r' || b == "" || b[0] != '\n'
    ensures ReplaceCrLf(a + b) == ReplaceCrLf(a) + ReplaceCrLf(b)
  {
    if a == "" {
      assert a + b == b;
    } else {
      hide ReplaceCrLf;
      var n := if |a| > 1 && a[0] == '\r' && a[1] == '\n' then 2 else 1;
      var first := if n == 2 then "\n" else [a[0]];
      assert (a + b)[n..] == a[n..] + b;
      CrLfConcat(a[n..], b);
      if n == 2 { CrLfPair(a); CrLfPair(a + b); } else { CrLfSingle(a); CrLfSingle(a + b); }
      ConcatAssoc(first, ReplaceCrLf(a[n..]), ReplaceCrLf(b));
    }
  }

  lemma {:induction false} CrConcat(a: string, b: string)
    ensures ReplaceCr(a + b) == ReplaceCr(a) + ReplaceCr(b)
  {
    if a == "" {
      assert a + b == b;
    } else {
      assert (a + b)[1..] == a[1..] + b;
      CrConcat(a[1..], b);
    }
  }

  /** The last character survives, as a newline if it was one. */
  lemma {:induction false} CrLfLast(a: string)
    requires a != ""
    ensures ReplaceCrLf(a) != "" && ReplaceCrLf(a)[|ReplaceCrLf(a)| - 1] == a[|a| - 1]
  {
    if |a| > 1 && a[0] == '\r' && a[1] == '\n' {
      if |a| > 2 { CrLfLast(a[2..]); }
    } else if |a| > 1 {
      CrLfLast(a[1..]);
    }
  }

  lemma {:induction false} CrLast(a: string)
    requires a != ""
    ensures |ReplaceCr(a)| == |a| && ReplaceCr(a)[|a| - 1] == if a[|a| - 1] == '\r' then '\n' else a[|a| - 1]
  {
    if |a| > 1 { CrLast(a[1..]); }
  }

  predicate EndsLine(body: string) { body != "" && (body[|body| - 1] == '\n' || body[|body| - 1] == '\r') }

  lemma {:induction false} NormalizedConcat(body: string, more: string)
    requires EndsLine(body) && (more == "" || more[0] != '\n')
    ensures Normalized(body + more) == Normalized(body) + Normalized(more)
    ensures Normalized(body) == TrimNewline(Normalized(body)) + "\n"
  {
    hide ReplaceCr, ReplaceCrLf;
    CrLfConcat(body, more);
    CrConcat(ReplaceCrLf(body), ReplaceCrLf(more));
    CrLfLast(body);
    CrLast(ReplaceCrLf(body));
  }

  lemma {:induction false} EmptyLines()
    ensures Lines("") == [""]
  {
    assert Normalized("") == "";
  }

  lemma {:induction false} NormalizedNonEmpty(more: string)
    requires more != ""
    ensures Normalized(more) != ""
  {
    CrLfLast(more);
    CrLast(ReplaceCrLf(more));
  }

  /** The lines of a grown export: the old lines, then the new ones. */
  lemma {:induction false} LinesConcat(body: string, more: string)
    requires EndsLine(body) && more != "" && more[0] != '\n'
    ensures Lines(body + more) == Lines(body) + Lines(more)
  {
    NormalizedConcat(body, more);
    NormalizedNonEmpty(more);
    var b, m := Normalized(body), Normalized(more);
    hide Normalized, Split;
    assert b + m != "" && (b + m)[|b + m| - 1] == m[|m| - 1];
    assert TrimNewline(b + m) == b + TrimNewline(m) by { TrimConcat(b, m); }
    SplitConcat(TrimNewline(b), TrimNewline(m));
  }

  lemma {:induction false} TrimConcat(b: string, m: string)
    requires m != ""
    ensures TrimNewline(b + m) == b + TrimNewline(m)
  {
    if m[|m| - 1] == '\n' { assert (b + m)[..|b + m| - 1] == b + m[..|m| - 1]; }
  }

  lemma {:induction false} OnLinesConcat(msgs: seq<Message>, a: seq<string>, b: seq<string>, clock: Clock)
    ensures OnLines(msgs, a + b, clock) == OnLines(OnLines(msgs, a, clock), b, clock)
    decreases |a|
  {
    hide OnLine;
    if a == [] {
      assert a + b == b;
    } else {
      assert (a + b)[0] == a[0] && (a + b)[1..] == a[1..] + b;
      OnLinesConcat(OnLine(msgs, a[0], clock), a[1..], b, clock);
    }
  }

  /** Lines only ever change the last message: the ones before a header are final. */
  lemma {:induction false} EarlierAreFinal(done: seq<Message>, msgs: seq<Message>, lines: seq<string>, clock: Clock)
    requires done < msgs
    ensures done < OnLines(msgs, lines, clock)
    decreases |lines|
  {
    hide HeaderOf;
    if lines != [] {
      assert done < OnLine(msgs, lines[0], clock);
      EarlierAreFinal(done, OnLine(msgs, lines[0], clock), lines[1..], clock);
    }
  }

  lemma {:induction false} NumberedPrefix(a: seq<Message>, b: seq<Message>)
    requires a <= b
    ensures Numbered(a) <= Numbered(b)
  {
    hide Count, IdentityKey;
    forall i | 0 <= i < |a| ensures Numbered(a)[i] == Numbered(b)[i] { assert a[..i] == b[..i]; }
  }

  predicate StartsWithHeader(more: string, clock: Clock) { HeaderOf(Lines(more)[0], clock).Some? }

  lemma {:induction false} NoHeaderInNothing(clock: Clock)
    ensures HeaderOf("", clock).None?
  {
    Strings.NothingToCut("", " - ");
  }

  /** Text whose first line is a header is not empty and does not start with a newline. */
  lemma {:induction false} HeaderIsText(more: string, clock: Clock)
    requires StartsWithHeader(more, clock)
    ensures more != "" && more[0] != '\n'
  {
    NoHeaderInNothing(clock);
    EmptyLines();
    if more != "" && more[0] == '\n' { LeadingNewline(more); }
  }

  lemma {:induction false} LeadingNewline(more: string)
    requires more != "" && more[0] == '\n'
    ensures Lines(more)[0] == ""
  {
    var m := Normalized(more);
    assert m == "\n" + ReplaceCr(ReplaceCrLf(more[1..]));
    assert TrimNewline(m) == "" || (TrimNewline(m) != "" && TrimNewline(m)[0] == '\n');
  }

  /**
   * An export that ends a line and grows by text starting with a header keeps
   * every parsed message, in place and with its occurrence number.
   */
  lemma {:induction false} AppendKeepsMessages(body: string, more: string, clock: Clock)
    requires EndsLine(body) && StartsWithHeader(more, clock)
    ensures Parsed(body, clock) < Parsed(body + more, clock)
  {
    HeaderIsText(more, clock);
    LinesConcat(body, more);
    var old_, new_ := Lines(body), Lines(more);
    hide Lines, HeaderOf, Numbered;
    var msgs := OnLines([], old_, clock);
    OnLinesConcat([], old_, new_, clock);
    assert msgs < OnLine(msgs, new_[0], clock);
    EarlierAreFinal(msgs, OnLine(msgs, new_[0], clock), new_[1..], clock);
    NumberedPrefix(msgs, OnLines(msgs, new_, clock));
  }
}
