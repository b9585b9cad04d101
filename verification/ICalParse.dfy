/**
The iCalendar parser proper: content lines, parameters, and the component
stack that collects the VEVENTs.
*/
module ICalParse {
  import opened Common
  import opened ICalText
  import opened Text

  /** One content line: upper-cased name, parameters by upper-cased name, unescaped value. */
  datatype Property = Property(name: string, params: map<string, string>, value: string)

  /** A VEVENT: its direct properties in file order and their unfolded lines. */
  datatype VEvent = VEvent(props: seq<Property>, raw: string)

  function UpperChar(c: char): char { if 'a' <= c <= 'z' then (c as int - 32) as char else c }

  function Upper(s: string): (u: string)
    ensures |u| == |s| && forall i :: 0 <= i < |s| ==> u[i] == UpperChar(s[i])
  {
    seq(|s|, i requires 0 <= i < |s| => UpperChar(s[i]))
  }

  /** Name, parameter segment and raw value of a content line. */
  function SplitContent(line: string): (string, string, string)
  {
    var colon := Unquoted(line, ':');
    var head := if colon < 0 then line else line[..colon];
    var value := if colon < 0 then "" else line[colon + 1..];
    var semi := IndexOf(head, ';');
    if semi >= 0 then (head[..semi], head[semi + 1..], value) else (head, "", value)
  }

  function UnquoteParam(v: string): string
  {
    if |v| >= 2 && v[0] == '"' && v[|v| - 1] == '"' then v[1..|v| - 1] else v
  }

  function AddParam(params: map<string, string>, part: string): map<string, string>
  {
    if part == "" then params
    else
      var eq := IndexOf(part, '=');
      if eq < 0 then params[Upper(TrimSpace(part)) := ""]
      else params[Upper(TrimSpace(part[..eq])) := UnquoteParam(part[eq + 1..])]
  }

  function AddParams(params: map<string, string>, parts: seq<string>): map<string, string>
    decreases |parts|
  {
    if parts == [] then params else AddParams(AddParam(params, parts[0]), parts[1..])
  }

  function ParamsOf(seg: string): map<string, string>
  {
    if seg == "" then map[] else AddParams(map[], SplitUnquoted(seg, ';'))
  }

  method ParseParams(seg: string) returns (params: map<string, string>)
    ensures params == ParamsOf(seg)
  {
    params := map[];
    if seg == "" { return; }
    var parts := SplitUnquotedLoop(seg, ';');
    hide AddParam, SplitUnquoted;
    for i := 0 to |parts|
      invariant AddParams(map[], parts) == AddParams(params, parts[i..])
    {
      assert parts[i..][0] == parts[i] && parts[i..][1..] == parts[i + 1..];
      params := AddParam(params, parts[i]);
    }
  }

  function PropertyOf(line: string): Property
  {
    var (name, seg, value) := SplitContent(line);
    Property(Upper(TrimSpace(name)), ParamsOf(seg), Unescape(value))
  }

  /** splitLine. */
  method SplitLine(line: string) returns (name: string, seg: string, value: string)
    ensures (name, seg, value) == SplitContent(line)
  {
    var colon := UnquotedIndex(line, ':');
    FirstUnquotedUnique(line, ':', colon, Unquoted(line, ':'));
    hide FirstUnquoted, Unquoted;
    var head := line;
    value := "";
    if colon >= 0 {
      head, value := line[..colon], line[colon + 1..];
    }
    var semi := IndexOf(head, ';');
    if semi >= 0 {
      name, seg := head[..semi], head[semi + 1..];
    } else {
      name, seg := head, "";
    }
  }

  /**
   * Where a content line is cut: at its first unquoted colon, if any, and the
   * head before that at its first semicolon, if any.
   */
  lemma {:induction false} SplitExactly(line: string, colon: int)
    requires FirstUnquoted(line, ':', colon)
    ensures var (name, seg, value) := SplitContent(line);
            var head := if colon == -1 then line else line[..colon];
            && (colon == -1 ==> value == "") && (colon >= 0 ==> line == head + ":" + value)
            && (';' !in head ==> name == head && seg == "") && (';' in head ==> head == name + ";" + seg && ';' !in name)
  {
    FirstUnquotedUnique(line, ':', colon, Unquoted(line, ':'));
    hide FirstUnquoted, Unquoted;
    var head := if colon == -1 then line else line[..colon];
    var semi := IndexOf(head, ';');
    if semi >= 0 { assert head == head[..semi] + ";" + head[semi + 1..]; }
  }

  method ParseProperty(line: string) returns (p: Property)
    ensures p == PropertyOf(line)
  {
    hide SplitContent, ParamsOf, Unescape, TrimSpace;
    var name, seg, raw := SplitLine(line);
    var params := ParseParams(seg);
    var value := UnescapeText(raw);
    p := Property(Upper(TrimSpace(name)), params, value);
  }

  // ---------------------------------------------------------------- the component stack

  /** The state of parseEvents: `cur` holds the VEVENT being collected and its raw lines. */
  datatype Parser = Parser(events: seq<VEvent>, stack: seq<string>, cur: Option<(seq<Property>, seq<string>)>)

  const START: Parser := Parser([], [], None)

  function JoinLines(lines: seq<string>): string
  {
    if lines == [] then "" else if |lines| == 1 then lines[0] else lines[0] + "\n" + JoinLines(lines[1..])
  }

  /** The raw text of an event is its lines, one newline between any two. */
  lemma {:induction false} JoinedSplits(lines: seq<string>)
    requires forall i :: 0 <= i < |lines| ==> '\n' !in lines[i]
    ensures if lines == [] then JoinLines(lines) == "" else Split(JoinLines(lines)) == lines
  {
    if |lines| == 1 {
      SplitOne(lines[0]);
    } else if lines != [] {
      JoinedSplits(lines[1..]);
      Text.SplitLine(lines[0], JoinLines(lines[1..]));
    }
  }

  predicate Inside(st: Parser, comp: string) { st.stack != [] && st.stack[|st.stack| - 1] == comp }

  function BeginComponent(st: Parser, comp: string): Parser
  {
    st.(stack := st.stack + [comp], cur := if comp == "VEVENT" && st.cur.None? then Some(([], [])) else st.cur)
  }

  function EndComponent(st: Parser, comp: string): Parser
  {
    var popped := if Inside(st, comp) then st.(stack := st.stack[..|st.stack| - 1]) else st;
    if comp == "VEVENT" && st.cur.Some? then
      popped.(events := st.events + [VEvent(st.cur.value.0, JoinLines(st.cur.value.1))], cur := None)
    else popped
  }

  function CollectLine(st: Parser, line: string): Parser
  {
    if st.cur.Some? && Inside(st, "VEVENT") then
      st.(cur := Some((st.cur.value.0 + [PropertyOf(line)], st.cur.value.1 + [line])))
    else st
  }

  function Step(st: Parser, line: string): Parser
  {
    if line == "" then st
    else
      var (name, _, value) := SplitContent(line);
      if Upper(name) == "BEGIN" then BeginComponent(st, Upper(TrimSpace(value)))
      else if Upper(name) == "END" then EndComponent(st, Upper(TrimSpace(value)))
      else CollectLine(st, line)
  }

  function Run(st: Parser, lines: seq<string>): Parser
    decreases |lines|
  {
    if lines == [] then st else Run(Step(st, lines[0]), lines[1..])
  }

  lemma {:induction false} RunConcat(st: Parser, a: seq<string>, b: seq<string>)
    ensures Run(st, a + b) == Run(Run(st, a), b)
    decreases |a|
  {
    hide Step;
    if a == [] {
      assert a + b == b;
    } else {
      assert (a + b)[0] == a[0] && (a + b)[1..] == a[1..] + b;
      RunConcat(Step(st, a[0]), a[1..], b);
    }
  }

  /** The events of a feed body. */
  function EventsOfBody(body: string): seq<VEvent> { Run(START, AddLines([], Split(body))).events }

  /** parseEvents. */
  method ParseEvents(body: string) returns (events: seq<VEvent>)
    ensures events == EventsOfBody(body)
  {
    var lines := Unfold(body);
    hide SplitContent, PropertyOf, AddLines, Split, JoinLines, TrimSpace;
    events := [];
    var stack: seq<string> := [];
    var cur: Option<(seq<Property>, seq<string>)> := None;
    for i := 0 to |lines|
      invariant Run(START, lines) == Run(Parser(events, stack, cur), lines[i..])
    {
      var line := lines[i];
      assert lines[i..][0] == line && lines[i..][1..] == lines[i + 1..];
      if line == "" { continue; }
      ghost var before := Parser(events, stack, cur);
      var name, _, value := SplitLine(line);
      var comp := Upper(TrimSpace(value));
      if Upper(name) == "BEGIN" {
        stack := stack + [comp];
        if comp == "VEVENT" && cur.None? { cur := Some(([], [])); }
      } else if Upper(name) == "END" {
        if |stack| > 0 && stack[|stack| - 1] == comp { stack := stack[..|stack| - 1]; }
        if comp == "VEVENT" && cur.Some? {
          events := events + [VEvent(cur.value.0, JoinLines(cur.value.1))];
          cur := None;
        }
      } else if cur.Some? && |stack| > 0 && stack[|stack| - 1] == "VEVENT" {
        var p := ParseProperty(line);
        cur := Some((cur.value.0 + [p], cur.value.1 + [line]));
      }
      assert Parser(events, stack, cur) == Step(before, line);
    }
  }
}
