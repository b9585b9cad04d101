/**
A printer for chat exports in both header families, and the theorem that
parsing undoes it: whatever messages, system lines and continuation lines are
printed, with whatever line ends and direction marks, they come back in order.
*/
module WhatsAppRoundTrip {
  import opened Common
  import opened Text
  import opened WhatsAppParse
  import Strings

  /** "[stamp] ..." and "stamp - ...". */
  datatype Family = Bracket | Dash

  /** A message by a sender or a system line, the rest of its first line, and its further lines. */
  datatype Item =
    | Said(family: Family, stamp: string, sender: string, text: string, more: seq<string>)
    | Notice(family: Family, stamp: string, text: string, more: seq<string>)

  // ---------------------------------------------------------------- what can be printed

  /** LRM, RLM and the isolates. */
  predicate IsMark(c: char)
  {
    c == '\U{200e}' || c == '\U{200f}' || c == '\U{2066}' || c == '\U{2067}' || c == '\U{2068}' || c == '\U{2069}'
  }

  /** `line` is `plain`, which has no direction marks, with any number of them put in. */
  predicate Marked(line: string, plain: string)
  {
    if line == "" then plain == ""
    else if IsMark(line[0]) then Marked(line[1..], plain)
    else plain != "" && plain[0] == line[0] && Marked(line[1..], plain[1..])
  }

  predicate Trimmed(s: string) { s == "" || (!IsSpace(s[0]) && !IsSpace(s[|s| - 1])) }

  /** One line without direction marks. */
  predicate Plain(s: string) { forall c <- s :: c != '\n' && c != '\r' && !IsMark(c) }

  predicate OneLine(s: string) { '\n' !in s && '\r' !in s }

  /** `sep` does not occur in `s`. */
  ghost predicate Lacks(s: string, sep: string) { forall i: nat :: !Strings.At(s, sep, i) }

  /** A stamp that one of the family's layouts accepts and that its separator ends. */
  ghost predicate GoodStamp(family: Family, stamp: string, clock: Clock)
  {
    && stamp != "" && Trimmed(stamp) && Plain(stamp)
    && match family
       case Bracket => ']' !in stamp && clock.bracket(stamp).Some?
       case Dash => stamp[0] != '[' && Lacks(stamp + " ", " - ") && clock.dash(stamp).Some?
  }

  /** A first line the parser does not take for something else: a sender's text does not end blank, a notice has no sender. */
  ghost predicate GoodFirst(it: Item)
  {
    match it
    case Said(_, _, sender, text, _) =>
      && sender != "" && Trimmed(sender) && Plain(sender) && Lacks(sender, ": ")
      && text != "" && !IsSpace(text[|text| - 1]) && Plain(text)
    case Notice(_, _, text, _) => Trimmed(text) && Plain(text) && (Lacks(text, ": ") || Strings.At(text, ": ", 0))
  }

  /** The line, marks aside, is a header of the bracket family up to position `e`. */
  predicate BracketUpTo(line: string, e: nat, clock: Clock)
  {
    0 < e < |line| && line[0] == '[' && line[e] == ']' && ']' !in line[..e] && clock.bracket(TrimSpace(line[1..e])).Some?
  }

  ghost predicate DashUpTo(line: string, e: nat, clock: Clock)
  {
    Strings.At(line, " - ", e) && (forall j: nat :: j < e ==> !Strings.At(line, " - ", j)) && clock.dash(TrimSpace(line[..e])).Some?
  }

  /** No header: neither family's separator comes after an accepted stamp. */
  ghost predicate NoHeader(line: string, clock: Clock)
  {
    forall plain, e: nat :: Marked(line, plain) ==> !BracketUpTo(plain, e, clock) && !DashUpTo(plain, e, clock)
  }

  ghost predicate GoodLines(lines: seq<string>, clock: Clock) { forall line <- lines :: OneLine(line) && NoHeader(line, clock) }

  ghost predicate Good(it: Item, clock: Clock) { GoodStamp(it.family, it.stamp, clock) && GoodFirst(it) && GoodLines(it.more, clock) }

  // ---------------------------------------------------------------- the printer

  function Rest(it: Item): string { if it.Said? then it.sender + ": " + it.text else it.text }

  function HeaderLine(it: Item): string
  {
    match it.family case Bracket => "[" + it.stamp + "] " + Rest(it) case Dash => it.stamp + " - " + Rest(it)
  }

  /** An item's lines: its header with marks put in, and its further lines as they are. */
  ghost predicate IsPrinted(lines: seq<string>, it: Item) { lines != [] && OneLine(lines[0]) && Marked(lines[0], HeaderLine(it)) && lines[1..] == it.more }

  predicate IsEol(eol: string) { eol == "\n" || eol == "\r\n" || eol == "\r" }

  function Body(lines: seq<string>, eol: string): string { if lines == [] then "" else lines[0] + eol + Body(lines[1..], eol) }

  // ---------------------------------------------------------------- what should come back

  function Joined(lines: seq<string>): string
  {
    if lines == [] then "" else if |lines| == 1 then lines[0] else lines[0] + "\n" + Joined(lines[1..])
  }

  /** Empty lines before the first other one are dropped. */
  function FromFirst(lines: seq<string>): seq<string> { if lines != [] && lines[0] == "" then FromFirst(lines[1..]) else lines }

  ghost function Expected(it: Item, n: nat, clock: Clock): Message
    requires GoodStamp(it.family, it.stamp, clock)
  {
    var at := if it.family.Bracket? then clock.bracket(it.stamp).value else clock.dash(it.stamp).value;
    Message(if it.Said? then it.sender else "", Joined(FromFirst([it.text] + it.more)), at, it.stamp, n, 0, it.Notice?,
            if it.family.Bracket? then "bracket" else "dash")
  }

  // ---------------------------------------------------------------- marks

  lemma {:induction false} MarksAreStripped(line: string, plain: string)
    ensures Marked(line, plain) <==> StripDirMarks(line) == plain
  {
    if line != "" {
      if IsMark(line[0]) {
        MarksAreStripped(line[1..], plain);
      } else {
        if plain != "" { MarksAreStripped(line[1..], plain[1..]); }
        assert plain != "" ==> plain == [plain[0]] + plain[1..];
        assert ([line[0]] + StripDirMarks(line[1..]))[1..] == StripDirMarks(line[1..]);
      }
    }
  }

  // ---------------------------------------------------------------- headers

  lemma {:induction false} TrimOfTrimmed(s: string)
    requires Trimmed(s)
    ensures TrimSpace(s) == s && TrimSpace(" " + s) == s
  {
    assert (" " + s)[1..] == s;
    assert TrimLeft(" " + s) == TrimLeft(s) == s;
  }

  lemma {:induction false} RestIsTrimmed(it: Item)
    requires GoodFirst(it)
    ensures Trimmed(Rest(it))
  {
    if it.Said? {
      assert Rest(it)[0] == it.sender[0];
      assert Rest(it)[|Rest(it)| - 1] == it.text[|it.text| - 1];
    }
  }

  lemma {:induction false} BracketEnds(stamp: string, rest: string)
    requires ']' !in stamp
    ensures var line := "[" + stamp + "] " + rest;
            IndexOf(line, ']') == |stamp| + 1 && line[1..|stamp| + 1] == stamp && line[|stamp| + 2..] == " " + rest
  {
    var line, e := "[" + stamp + "] " + rest, |stamp| + 1;
    assert line[e] == ']';
    forall j: nat | j < e ensures line[j] != ']' { assert j > 0 ==> line[j] == stamp[j - 1]; }
  }

  lemma {:induction false} BracketIsRead(it: Item, clock: Clock)
    requires it.family.Bracket? && GoodStamp(it.family, it.stamp, clock) && Trimmed(Rest(it))
    ensures ParseHeader(HeaderLine(it), clock)
         == Some(WhatsAppParse.Header(clock.bracket(it.stamp).value, it.stamp, Rest(it), "bracket"))
  {
    BracketEnds(it.stamp, Rest(it));
    TrimOfTrimmed(it.stamp);
    TrimOfTrimmed(Rest(it));
    hide TrimSpace, Rest, DashHeader, Plain, Trimmed;
  }

  lemma {:induction false} DashIsFirst(stamp: string, rest: string)
    requires stamp != "" && Trimmed(stamp) && Lacks(stamp + " ", " - ")
    ensures Strings.Index(stamp + " - " + rest, " - ") == |stamp|
  {
    var line, s := stamp + " - " + rest, stamp + " ";
    assert Strings.At(line, " - ", |stamp|);
    forall j: nat | j < |stamp| ensures !Strings.At(line, " - ", j) {
      assert !Strings.At(s, " - ", j);
      if j + 3 <= |s| {
        assert line[j..j + 3] == s[j..j + 3];
      } else {
        assert line[j..j + 3][0] == stamp[j];
        assert j == |stamp| - 1;
      }
    }
  }

  lemma {:induction false} DashIsRead(it: Item, clock: Clock)
    requires it.family.Dash? && GoodStamp(it.family, it.stamp, clock) && Trimmed(Rest(it))
    ensures ParseHeader(HeaderLine(it), clock)
         == Some(WhatsAppParse.Header(clock.dash(it.stamp).value, it.stamp, Rest(it), "dash"))
  {
    var line := HeaderLine(it);
    DashIsFirst(it.stamp, Rest(it));
    assert line[0] == it.stamp[0];
    assert BracketHeader(line, clock).None?;
    assert line[..|it.stamp|] == it.stamp && line[|it.stamp| + 3..] == Rest(it);
    TrimOfTrimmed(it.stamp);
    TrimOfTrimmed(Rest(it));
    hide TrimSpace, Rest, BracketHeader, Lacks;
  }

  lemma {:induction false} SenderIsFirst(sender: string, text: string)
    requires Lacks(sender, ": ")
    ensures Strings.Index(sender + ": " + text, ": ") == |sender|
  {
    var s := sender + ": " + text;
    assert Strings.At(s, ": ", |sender|);
    forall j: nat | j < |sender| ensures !Strings.At(s, ": ", j) {
      assert !Strings.At(sender, ": ", j);
      if j + 2 <= |sender| {
        assert s[j..j + 2] == sender[j..j + 2];
      } else {
        assert s[j..j + 2][1] == ':';
      }
    }
  }

  lemma {:induction false} FirstIsSplit(it: Item)
    requires GoodFirst(it)
    ensures SplitSenderText(Rest(it)) == if it.Said? then (it.sender, it.text, false) else ("", it.text, true)
  {
    var rest := Rest(it);
    match it
    case Said(_, _, sender, text, _) =>
      SenderIsFirst(sender, text);
      assert rest[..|sender|] == sender && rest[|sender| + 2..] == text;
      TrimOfTrimmed(sender);
      hide TrimSpace, Lacks;
    case Notice(_, _, text, _) =>
      TrimOfTrimmed(text);
      var i := Strings.Index(text, ": ");
      if Strings.At(text, ": ", 0) {
        assert i == 0 && text[..0] == "";
        assert TrimSpace("") == "";
      } else {
        assert i == -1;
      }
      hide TrimSpace, Lacks;
  }

  /** The header line starts the item's message. */
  lemma {:induction false} HeaderStarts(it: Item, line: string, n: nat, clock: Clock)
    requires GoodStamp(it.family, it.stamp, clock) && GoodFirst(it) && Marked(line, HeaderLine(it))
    ensures HeaderOf(line, clock).Some?
    ensures Started(HeaderOf(line, clock).value, n) == Expected(it, n, clock).(text := it.text)
  {
    MarksAreStripped(line, HeaderLine(it));
    RestIsTrimmed(it);
    if it.family.Bracket? { BracketIsRead(it, clock); } else { DashIsRead(it, clock); }
    FirstIsSplit(it);
    hide ParseHeader, StripDirMarks, HeaderLine, Rest, SplitSenderText, GoodFirst, Marked, Trimmed;
  }

  /** A line is a header exactly when, marks aside, an accepted stamp comes before its family's separator. */
  lemma {:induction false} HeaderExactly(line: string, clock: Clock)
    ensures HeaderOf(line, clock).None? <==> NoHeader(line, clock)
  {
    var plain := StripDirMarks(line);
    forall p ensures Marked(line, p) <==> p == plain { MarksAreStripped(line, p); }
    hide StripDirMarks, Marked, TrimSpace;
    forall e: nat ensures BracketUpTo(plain, e, clock) ==> BracketHeader(plain, clock).Some? {
      if BracketUpTo(plain, e, clock) { assert plain[..e][0] == plain[0]; assert forall j: nat :: j < e ==> plain[..e][j] == plain[j]; assert IndexOf(plain, ']') == e; }
    }
    if BracketHeader(plain, clock).Some? { assert BracketUpTo(plain, IndexOf(plain, ']'), clock); }
    forall e: nat ensures DashUpTo(plain, e, clock) ==> DashHeader(plain, clock).Some? {
      if DashUpTo(plain, e, clock) { assert Strings.Index(plain, " - ") == e; }
    }
    if DashHeader(plain, clock).Some? { assert DashUpTo(plain, Strings.Index(plain, " - "), clock); }
    hide BracketUpTo, DashUpTo, BracketHeader, DashHeader;
  }

  // ---------------------------------------------------------------- messages

  /** Further lines go to the last message. */
  lemma {:induction false} LinesAreJoined(msgs: seq<Message>, m: Message, more: seq<string>, clock: Clock)
    requires forall line <- more :: HeaderOf(line, clock).None?
    ensures OnLines(msgs + [m], more, clock) == msgs + [m.(text := Joined(FromFirst([m.text] + more)))]
    decreases |more|
  {
    hide HeaderOf;
    if more == [] {
      assert [m.text] + more == [m.text];
      assert m.text == "" ==> [m.text][1..] == [];
      assert m.(text := m.text) == m;
    } else {
      var m' := Continued(m, more[0]);
      assert OnLine(msgs + [m], more[0], clock) == msgs + [m'];
      LinesAreJoined(msgs, m', more[1..], clock);
      JoinedNext(m.text, more);
    }
  }

  lemma {:induction false} JoinedNext(text: string, more: seq<string>)
    requires more != []
    ensures Joined(FromFirst([text] + more)) == Joined(FromFirst([if text == "" then more[0] else text + "\n" + more[0]] + more[1..]))
  {
    if text == "" {
      assert ([text] + more)[1..] == more == [more[0]] + more[1..];
    } else {
      var first := text + "\n" + more[0];
      assert ([text] + more)[1..] == more;
      assert ([first] + more[1..])[1..] == more[1..];
      if |more| > 1 { assert text + "\n" + (more[0] + "\n" + Joined(more[1..])) == first + "\n" + Joined(more[1..]); }
    }
  }

  /** One printed item yields its message. */
  lemma {:induction false} ItemIsRead(msgs: seq<Message>, it: Item, lines: seq<string>, clock: Clock)
    requires Good(it, clock) && IsPrinted(lines, it)
    ensures OnLines(msgs, lines, clock) == msgs + [Expected(it, |msgs|, clock)]
  {
    HeaderStarts(it, lines[0], |msgs|, clock);
    forall line | line in it.more ensures HeaderOf(line, clock).None? { HeaderExactly(line, clock); }
    hide HeaderOf, Marked, NoHeader, GoodStamp, GoodFirst, HeaderLine, Joined, FromFirst;
    var m := Expected(it, |msgs|, clock).(text := it.text);
    assert OnLine(msgs, lines[0], clock) == msgs + [m];
    LinesAreJoined(msgs, m, it.more, clock);
  }

  lemma {:induction false} PreambleIsDropped(lines: seq<string>, clock: Clock)
    requires GoodLines(lines, clock)
    ensures OnLines([], lines, clock) == []
    decreases |lines|
  {
    hide HeaderOf, NoHeader;
    if lines != [] {
      HeaderExactly(lines[0], clock);
      PreambleIsDropped(lines[1..], clock);
    }
  }

  function Concat(parts: seq<seq<string>>): seq<string> { if parts == [] then [] else Concat(parts[..|parts| - 1]) + parts[|parts| - 1] }

  /** The parts are printings of the items, one by one. */
  ghost predicate ArePrinted(parts: seq<seq<string>>, items: seq<Item>)
  {
    |parts| == |items| && forall i :: 0 <= i < |items| ==> IsPrinted(parts[i], items[i])
  }

  ghost predicate AllGood(items: seq<Item>, clock: Clock) { forall i :: 0 <= i < |items| ==> Good(items[i], clock) }

  ghost function Messages(items: seq<Item>, clock: Clock): (msgs: seq<Message>)
    requires AllGood(items, clock)
    ensures |msgs| == |items|
  {
    if items == [] then []
    else
      var n := |items| - 1;
      Messages(items[..n], clock) + [Expected(items[n], n, clock)]
  }

  lemma {:induction false} ItemsAreRead(items: seq<Item>, parts: seq<seq<string>>, clock: Clock)
    requires AllGood(items, clock) && ArePrinted(parts, items)
    ensures OnLines([], Concat(parts), clock) == Messages(items, clock)
    decreases |items|
  {
    hide OnLine, IsPrinted, Good, Expected;
    if items != [] {
      var n := |items| - 1;
      ItemsAreRead(items[..n], parts[..n], clock);
      OnLinesConcat([], Concat(parts[..n]), parts[n], clock);
      ItemIsRead(Messages(items[..n], clock), items[n], parts[n], clock);
    }
  }

  // ---------------------------------------------------------------- files

  lemma {:induction false} CrLfClean(s: string)
    requires OneLine(s)
    ensures ReplaceCrLf(s) == s && ReplaceCr(s) == s
  {
    if s != "" {
      CrLfClean(s[1..]);
      assert [s[0]] + s[1..] == s;
    }
  }

  /** A line and its end, whatever follows. */
  lemma {:induction false} LineIsNormal(line: string, eol: string, rest: string)
    requires OneLine(line) && IsEol(eol) && (eol == "\r" ==> rest == "" || rest[0] != '\n')
    ensures Normalized(line + eol + rest) == line + "\n" + Normalized(rest)
  {
    EolIsNewline(eol, rest);
    hide ReplaceCrLf, ReplaceCr, IsEol;
    CleanIsNormal(line, eol + rest);
    ConcatAssoc(line, eol, rest);
    ConcatAssoc(line, "\n", Normalized(rest));
  }

  lemma {:induction false} CleanIsNormal(line: string, rest: string)
    requires OneLine(line)
    ensures Normalized(line + rest) == line + Normalized(rest)
  {
    hide ReplaceCrLf, ReplaceCr;
    CrLfConcat(line, rest);
    CrLfClean(line);
    CrConcat(line, ReplaceCrLf(rest));
  }

  lemma {:induction false} EolIsNewline(eol: string, rest: string)
    requires IsEol(eol) && (eol == "\r" ==> rest == "" || rest[0] != '\n')
    ensures Normalized(eol + rest) == "\n" + Normalized(rest)
  {
    var s := eol + rest;
    if eol == "\r\n" {
      CrLfPair(s);
      assert s[2..] == rest;
    } else {
      CrLfSingle(s);
      assert s[1..] == rest;
    }
    hide ReplaceCrLf;
    var t := ReplaceCrLf(rest);
    assert ("\n" + t)[1..] == t && ("\r" + t)[1..] == t;
  }

  lemma {:induction false} BodyIsNormal(lines: seq<string>, eol: string)
    requires IsEol(eol) && forall line <- lines :: OneLine(line)
    ensures Normalized(Body(lines, eol)) == Body(lines, "\n")
    ensures eol == "\r" ==> Body(lines, eol) == "" || Body(lines, eol)[0] != '\n'
    decreases |lines|
  {
    hide ReplaceCr, ReplaceCrLf;
    if lines == [] {
      assert Normalized("") == "" by { EmptyIsNormal(); }
    } else {
      BodyIsNormal(lines[1..], eol);
      hide Normalized;
      LineIsNormal(lines[0], eol, Body(lines[1..], eol));
      assert Body(lines, eol)[0] == if lines[0] == "" then eol[0] else lines[0][0];
    }
  }

  lemma {:induction false} EmptyIsNormal() ensures Normalized("") == "" {}

  lemma {:induction false} LinesAreSplit(lines: seq<string>)
    requires lines != [] && forall line <- lines :: OneLine(line)
    ensures Body(lines, "\n") == TrimNewline(Body(lines, "\n")) + "\n" && Split(TrimNewline(Body(lines, "\n"))) == lines
    decreases |lines|
  {
    hide Split;
    var line, tail := lines[0], lines[1..];
    if tail == [] {
      assert Body(lines, "\n") == line + "\n" + "" == line + "\n";
      assert OneLine(line);
      SplitOne(line);
    } else {
      LinesAreSplit(tail);
      var b := TrimNewline(Body(tail, "\n"));
      assert Body(lines, "\n") == line + "\n" + b + "\n";
      assert TrimNewline(Body(lines, "\n")) == line + "\n" + b;
      assert OneLine(line);
      SplitLine(line, b);
    }
  }

  /** The lines of a file come back, with any line ends. */
  lemma {:induction false} LinesComeBack(lines: seq<string>, eol: string)
    requires lines != [] && IsEol(eol) && forall line <- lines :: OneLine(line)
    ensures Lines(Body(lines, eol)) == lines
  {
    hide Normalized, Split, TrimNewline, Body;
    BodyIsNormal(lines, eol);
    LinesAreSplit(lines);
  }

  lemma {:induction false} PartsAreLines(items: seq<Item>, parts: seq<seq<string>>, clock: Clock)
    requires AllGood(items, clock) && ArePrinted(parts, items)
    ensures forall line <- Concat(parts) :: OneLine(line)
    decreases |items|
  {
    hide NoHeader, GoodStamp, GoodFirst, Marked, HeaderLine;
    if items != [] {
      var n := |items| - 1;
      PartsAreLines(items[..n], parts[..n], clock);
      assert parts[n] == [parts[n][0]] + items[n].more;
      assert Good(items[n], clock);
    }
  }

  /**
   * The round trip.  Any sequence of messages and system lines of either
   * family, each with any further lines, printed one after another after any
   * preamble, with any line ends and direction marks in the headers, parses to
   * exactly those messages in order, duplicates numbered.
   */
  lemma {:induction false} RoundTrip(preamble: seq<string>, items: seq<Item>, parts: seq<seq<string>>, eol: string, clock: Clock)
    requires GoodLines(preamble, clock) && AllGood(items, clock) && ArePrinted(parts, items) && IsEol(eol)
    ensures Parsed(Body(preamble + Concat(parts), eol), clock) == Numbered(Messages(items, clock))
  {
    var lines := preamble + Concat(parts);
    PartsAreLines(items, parts, clock);
    PreambleIsDropped(preamble, clock);
    ItemsAreRead(items, parts, clock);
    OnLinesConcat([], preamble, Concat(parts), clock);
    hide OnLine, AllGood, ArePrinted, Concat, Numbered, Messages;
    if lines == [] {
      NothingIsRead(eol, clock);
    } else {
      assert forall line <- lines :: OneLine(line) by { hide NoHeader, OneLine; }
      LinesComeBack(lines, eol);
    }
  }

  lemma {:induction false} NothingIsRead(eol: string, clock: Clock)
    ensures Parsed(Body([], eol), clock) == Numbered(OnLines([], [], clock))
  {
    NoHeaderInNothing(clock);
    EmptyLines();
    assert [""][1..] == [];
    hide HeaderOf, Numbered;
  }
}
