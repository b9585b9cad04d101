/**
A printer for calendars, and the theorem that parsing undoes it: whatever the
component tree, the parameters, the texts and the points at which lines are
folded, the parser returns exactly the VEVENTs.
*/
module ICalRoundTrip {
  import opened Common
  import opened ICalText
  import opened ICalParse
  import opened ICalCase
  import opened Text

  /** A parameter with a value, one that is only named, and an empty one. */
  datatype Param = Param(name: string, value: string, quoted: bool) | Bare(name: string) | Blank

  datatype Prop = Prop(name: string, params: seq<Param>, text: string)

  /** A property line or a BEGIN/END block; `open`, `close` and `last` are the spellings of BEGIN, END and the name at the end. */
  datatype Node = Line(prop: Prop) | Component(open: string, name: string, items: seq<Node>, close: string, last: string)

  // ---------------------------------------------------------------- well-formed calendars

  predicate IsTokenChar(c: char) { 'a' <= c <= 'z' || 'A' <= c <= 'Z' || '0' <= c <= '9' || c == '-' }

  predicate IsToken(s: string) { s != "" && forall i :: 0 <= i < |s| ==> IsTokenChar(s[i]) }

  /** A parameter value has no double quote or line break; unquoted it has no ';' or ':' either. */
  predicate GoodParam(p: Param)
  {
    match p
    case Param(name, value, quoted) =>
      && IsToken(name) && '"' !in value && '\n' !in value
      && (!quoted ==> ';' !in value && ':' !in value)
    case Bare(name) => IsToken(name)
    case Blank => true
  }

  predicate GoodParams(ps: seq<Param>) { forall i :: 0 <= i < |ps| ==> GoodParam(ps[i]) }

  predicate GoodProp(p: Prop)
  {
    IsToken(p.name) && !SameWord(p.name, "BEGIN") && !SameWord(p.name, "END") && GoodParams(p.params)
  }

  predicate IsEvent(n: Node) { n.Component? && SameWord(n.name, "VEVENT") }

  /** No VEVENT anywhere in the node. */
  predicate EventFree(n: Node)
    decreases n, 1
  {
    n.Line? || (!IsEvent(n) && AllEventFree(n.items))
  }

  predicate AllEventFree(items: seq<Node>)
    decreases items, 0
  {
    items == [] || (EventFree(items[0]) && AllEventFree(items[1..]))
  }

  /** Well-formed names and lines throughout, and no VEVENT inside a VEVENT. */
  predicate Good(n: Node)
    decreases n, 1
  {
    match n
    case Line(p) => GoodProp(p)
    case Component(open, name, items, close, last) =>
      && SameWord(open, "BEGIN") && IsToken(name) && SameWord(close, "END") && SameWord(last, name)
      && AllGood(items) && (IsEvent(n) ==> AllEventFree(items))
  }

  predicate AllGood(items: seq<Node>)
    decreases items, 0
  {
    items == [] || (Good(items[0]) && AllGood(items[1..]))
  }

  // ---------------------------------------------------------------- the printer

  function ParamText(p: Param): string
  {
    match p
    case Param(name, value, quoted) => name + "=" + (if quoted then "\"" + value + "\"" else value)
    case Bare(name) => name
    case Blank => ""
  }

  function ParamsText(ps: seq<Param>): string
  {
    if ps == [] then "" else ";" + ParamText(ps[0]) + ParamsText(ps[1..])
  }

  function PropText(p: Prop): string { p.name + ParamsText(p.params) + ":" + Escape(p.text) }

  function NodeLines(n: Node): seq<string>
    decreases n, 1
  {
    match n
    case Line(p) => [PropText(p)]
    case Component(open, name, items, close, last) => [open + ":" + name] + ItemLines(items) + [close + ":" + last]
  }

  function ItemLines(items: seq<Node>): seq<string>
    decreases items, 0
  {
    if items == [] then [] else NodeLines(items[0]) + ItemLines(items[1..])
  }

  // ---------------------------------------------------------------- what should come back

  function WithParam(params: map<string, string>, p: Param): map<string, string>
  {
    match p
    case Param(name, value, _) => params[Upper(name) := value]
    case Bare(name) => params[Upper(name) := ""]
    case Blank => params
  }

  function ExpectedParams(params: map<string, string>, ps: seq<Param>): map<string, string>
    decreases |ps|
  {
    if ps == [] then params else ExpectedParams(WithParam(params, ps[0]), ps[1..])
  }

  function Expected(p: Prop): Property { Property(Upper(p.name), ExpectedParams(map[], p.params), p.text) }

  function DirectProps(items: seq<Node>): seq<Property>
  {
    if items == [] then []
    else if items[0].Line? then [Expected(items[0].prop)] + DirectProps(items[1..])
    else DirectProps(items[1..])
  }

  function DirectLines(items: seq<Node>): seq<string>
  {
    if items == [] then []
    else if items[0].Line? then [PropText(items[0].prop)] + DirectLines(items[1..])
    else DirectLines(items[1..])
  }

  /** The VEVENTs of a node in document order, each with its direct properties only. */
  function Events(n: Node): seq<VEvent>
    decreases n, 1
  {
    if n.Line? then []
    else if IsEvent(n) then [VEvent(DirectProps(n.items), JoinLines(DirectLines(n.items)))]
    else EventsOfItems(n.items)
  }

  function EventsOfItems(items: seq<Node>): seq<VEvent>
    decreases items, 0
  {
    if items == [] then [] else Events(items[0]) + EventsOfItems(items[1..])
  }

  // ---------------------------------------------------------------- one content line

  lemma {:induction false} NoQuoteNeverInQuote(s: string, i: nat)
    requires '"' !in s && i <= |s|
    ensures !InQuote(s, i)
  {
    if i > 0 { NoQuoteNeverInQuote(s, i - 1); }
  }

  lemma {:induction false} CleanIsPlain(s: string, ch: char)
    requires '"' !in s && ch !in s
    ensures Plain(s, ch)
  {
    NoQuoteNeverInQuote(s, |s|);
    hide InQuote;
  }

  lemma {:induction false} InsideQuotes(v: string, i: nat)
    requires '"' !in v && 1 <= i <= |v| + 1
    ensures InQuote("\"" + v + "\"", i)
  {
    var s := "\"" + v + "\"";
    if i == 1 {
      assert !InQuote(s, 0);
    } else {
      InsideQuotes(v, i - 1);
      assert s[i - 1] == v[i - 2];
    }
  }

  lemma {:induction false} QuotedIsPlain(v: string, ch: char)
    requires '"' !in v && ch != '"'
    ensures Plain("\"" + v + "\"", ch)
  {
    var s := "\"" + v + "\"";
    InsideQuotes(v, |v| + 1);
    assert !InQuote(s, |s|);
    forall j: nat | j < |s| ensures !UnquotedAt(s, ch, j) {
      if 1 <= j <= |v| { InsideQuotes(v, j); }
    }
  }

  lemma {:induction false} TokenIsClean(s: string)
    requires IsToken(s)
    ensures '"' !in s && ':' !in s && ';' !in s && '=' !in s && '\n' !in s
    ensures TrimSpace(s) == s && !IsFoldSpace(s[0])
  {
    assert !IsSpace(s[0]) && !IsSpace(s[|s| - 1]);
  }

  /** A parameter as printed is plain for both separators. */
  lemma {:induction false} ParamIsPlain(p: Param, ch: char)
    requires GoodParam(p) && (ch == ';' || ch == ':')
    ensures Plain(ParamText(p), ch)
  {
    match p
    case Param(name, value, quoted) =>
      TokenIsClean(name);
      CleanIsPlain(name + "=", ch);
      if quoted {
        QuotedIsPlain(value, ch);
        PlainConcat(name + "=", "\"" + value + "\"", ch);
      } else {
        CleanIsPlain(value, ch);
        PlainConcat(name + "=", value, ch);
      }
    case Bare(name) =>
      TokenIsClean(name);
      CleanIsPlain(name, ch);
    case Blank => CleanIsPlain("", ch);
  }

  lemma {:induction false} IndexOfClean(head: string, c: char, tail: string)
    requires c !in head
    ensures IndexOf(head + [c] + tail, c) == |head|
  {
    var s := head + [c] + tail;
    assert s[|head|] == c;
    assert forall j: nat :: j < |head| ==> s[j] == head[j];
  }

  lemma {:induction false} IndexOfNothing(s: string, c: char)
    requires c !in s
    ensures IndexOf(s, c) == -1
  {
  }

  lemma {:induction false} QuotedValue(v: string)
    requires '"' !in v
    ensures UnquoteParam("\"" + v + "\"") == v && UnquoteParam(v) == v
  {
    var q := "\"" + v + "\"";
    assert q[1..|q| - 1] == v;
  }

  lemma {:induction false} ValueIsRead(params: map<string, string>, name: string, value: string, quoted: bool)
    requires GoodParam(Param(name, value, quoted))
    ensures AddParam(params, ParamText(Param(name, value, quoted))) == params[Upper(name) := value]
  {
    var v := if quoted then "\"" + value + "\"" else value;
    var s := name + ['='] + v;
    assert ParamText(Param(name, value, quoted)) == s;
    TokenIsClean(name);
    IndexOfClean(name, '=', v);
    QuotedValue(value);
    assert s[..|name|] == name;
    assert s[|name| + 1..] == v;
    hide TrimSpace, UnquoteParam, IsToken, ParamText;
  }

  lemma {:induction false} ParamIsRead(params: map<string, string>, p: Param)
    requires GoodParam(p)
    ensures AddParam(params, ParamText(p)) == WithParam(params, p)
  {
    match p
    case Param(name, value, quoted) =>
      hide AddParam, ParamText, GoodParam;
      ValueIsRead(params, name, value, quoted);
    case Bare(name) =>
      TokenIsClean(name);
      IndexOfNothing(name, '=');
      hide TrimSpace, IndexOf;
    case Blank =>
  }

  function ParamTexts(ps: seq<Param>): seq<string>
  {
    if ps == [] then [] else [ParamText(ps[0])] + ParamTexts(ps[1..])
  }

  lemma {:induction false} ParamsTextParts(ps: seq<Param>)
    requires ps != []
    ensures ParamsText(ps) == [';'] + ParamsText(ps)[1..]
    ensures ParamsText(ps)[1..] == ParamText(ps[0]) + ParamsText(ps[1..])
  {
    hide ParamText;
  }

  lemma {:induction false} ParamTextsParts(ps: seq<Param>)
    requires ps != []
    ensures ParamTexts(ps) == [ParamText(ps[0])] + ParamTexts(ps[1..])
    ensures |ps| == 1 ==> ParamTexts(ps) == [ParamText(ps[0])] && ParamText(ps[0]) + ParamsText(ps[1..]) == ParamText(ps[0])
  {
    hide ParamText;
  }

  lemma {:induction false} ParamsAreSplit(ps: seq<Param>)
    requires ps != [] && GoodParams(ps)
    ensures SplitUnquoted(ParamsText(ps)[1..], ';') == ParamTexts(ps)
  {
    var first, rest := ParamText(ps[0]), ps[1..];
    assert GoodParam(ps[0]) && GoodParams(rest);
    hide *;
    ParamIsPlain(ps[0], ';');
    ParamsTextParts(ps);
    ParamTextsParts(ps);
    if |ps| == 1 {
      PlainSplits(first);
    } else {
      ParamsTextParts(rest);
      ParamsAreSplit(rest);
      var tail := ParamsText(rest)[1..];
      ConcatAssoc(first, [';'], tail);
      PlainHeadSplits(first, tail);
    }
  }

  lemma {:induction false} PlainSplits(s: string)
    requires Plain(s, ';')
    ensures SplitUnquoted(s, ';') == [s]
  {
    UnquotedInPlain(s, ';');
    hide Plain, Unquoted;
  }

  lemma {:induction false} PlainHeadSplits(head: string, tail: string)
    requires Plain(head, ';')
    ensures SplitUnquoted(head + [';'] + tail, ';') == [head] + SplitUnquoted(tail, ';')
  {
    var s := head + [';'] + tail;
    UnquotedAfterPlain(head, ';', tail);
    assert s[..|head|] == head && s[|head| + 1..] == tail;
    hide Plain;
    SplitAt(s, ';', |head|);
  }

  lemma {:induction false} ParamsAreRead(params: map<string, string>, ps: seq<Param>)
    requires GoodParams(ps)
    ensures AddParams(params, ParamTexts(ps)) == ExpectedParams(params, ps)
    decreases |ps|
  {
    hide AddParam, ParamText, GoodParam;
    if ps != [] {
      ParamIsRead(params, ps[0]);
      assert ParamTexts(ps)[1..] == ParamTexts(ps[1..]);
      ParamsAreRead(WithParam(params, ps[0]), ps[1..]);
    }
  }

  lemma {:induction false} ParamsArePlain(ps: seq<Param>)
    requires GoodParams(ps)
    ensures Plain(ParamsText(ps), ':')
  {
    hide Plain, ParamText, GoodParam;
    if ps == [] {
      CleanIsPlain("", ':');
    } else {
      ParamIsPlain(ps[0], ':');
      CleanIsPlain(";", ':');
      ParamsArePlain(ps[1..]);
      PlainConcat(";", ParamText(ps[0]), ':');
      PlainConcat(";" + ParamText(ps[0]), ParamsText(ps[1..]), ':');
    }
  }

  /** The head of a printed line ends at the value's colon, whatever the value contains. */
  lemma {:induction false} HeadIsCut(name: string, ps: seq<Param>, value: string)
    requires IsToken(name) && GoodParams(ps)
    ensures Unquoted(name + ParamsText(ps) + [':'] + value, ':') == |name + ParamsText(ps)|
  {
    hide Plain, GoodParams, ParamsText, Unquoted;
    TokenIsClean(name);
    CleanIsPlain(name, ':');
    ParamsArePlain(ps);
    PlainConcat(name, ParamsText(ps), ':');
    UnquotedAfterPlain(name + ParamsText(ps), ':', value);
  }

  lemma {:induction false} NameIsCut(name: string, ps: seq<Param>)
    requires IsToken(name)
    ensures ps == [] ==> name + ParamsText(ps) == name && IndexOf(name, ';') == -1
    ensures ps != [] ==> var head := name + ParamsText(ps);
                         IndexOf(head, ';') == |name| && head[..|name|] == name && head[|name| + 1..] == ParamsText(ps)[1..]
  {
    TokenIsClean(name);
    hide IsToken;
    if ps == [] {
      IndexOfNothing(name, ';');
    } else {
      var tail := ParamsText(ps)[1..];
      ParamsTextParts(ps);
      hide ParamsText, IndexOf;
      ConcatAssoc(name, [';'], tail);
      IndexOfClean(name, ';', tail);
    }
  }

  lemma {:induction false} LineIsSplit(name: string, ps: seq<Param>, value: string)
    requires IsToken(name) && GoodParams(ps)
    ensures SplitContent(name + ParamsText(ps) + ":" + value)
         == (name, if ps == [] then "" else ParamsText(ps)[1..], value)
  {
    var head := name + ParamsText(ps);
    var line := head + [':'] + value;
    HeadIsCut(name, ps, value);
    NameIsCut(name, ps);
    hide IsToken, GoodParams, ParamsText, Unquoted, IndexOf;
    assert line[..|head|] == head;
    assert line[|head| + 1..] == value;
  }

  /** Reading a printed property gives back its name, parameters and text. */
  lemma {:induction false} PropRoundTrip(p: Prop)
    requires GoodProp(p)
    ensures PropertyOf(PropText(p)) == Expected(p)
  {
    LineIsSplit(p.name, p.params, Escape(p.text));
    TokenIsClean(p.name);
    UnescapeUndoesEscape(p.text);
    hide SplitContent, Unescape, Escape, TrimSpace, IsToken, GoodParam;
    if p.params == [] {
      assert ParamsOf("") == map[];
    } else {
      ParamsAreSplit(p.params);
      ParamsAreRead(map[], p.params);
      if ParamsText(p.params)[1..] == "" { NothingToRead(); }
    }
  }

  lemma {:induction false} NothingToRead()
    ensures AddParams(map[], SplitUnquoted("", ';')) == map[]
  {
    CleanIsPlain("", ';');
    PlainSplits("");
    assert AddParam(map[], "") == map[];
    assert [""][1..] == [];
  }

  // ---------------------------------------------------------------- the component tree

  lemma {:induction false} StepProp(st: Parser, p: Prop)
    requires GoodProp(p)
    ensures Step(st, PropText(p)) == CollectLine(st, PropText(p))
  {
    NoKeyword(p);
    LineIsSplit(p.name, p.params, Escape(p.text));
    hide SplitContent, Escape, CollectLine, BeginComponent, EndComponent, GoodProp, Upper, ParamsText;
    assert PropText(p) != "";
  }

  lemma {:induction false} NoKeyword(p: Prop)
    requires GoodProp(p)
    ensures Upper(p.name) != "BEGIN" && Upper(p.name) != "END"
  {
    UpperOf(p.name, "BEGIN");
    UpperOf(p.name, "END");
    hide Upper, SameWord, GoodParams;
  }

  lemma {:induction false} WordIsSplit(word: string, name: string)
    requires IsToken(word)
    ensures SplitContent(word + ":" + name) == (word, "", name)
  {
    LineIsSplit(word, [], name);
    assert word + ParamsText([]) == word;
    hide SplitContent, IsToken;
  }

  /** A spelling of a word of capitals is a token. */
  lemma {:induction false} SpellingIsToken(s: string, word: string)
    requires SameWord(s, word) && IsToken(word)
    ensures IsToken(s)
  {
    forall i | 0 <= i < |s| ensures IsTokenChar(s[i]) { assert SameLetter(s[i], word[i]) && IsTokenChar(word[i]); }
  }

  lemma {:induction false} StepBegin(st: Parser, open: string, name: string)
    requires SameWord(open, "BEGIN") && IsToken(name)
    ensures Step(st, open + ":" + name) == BeginComponent(st, Upper(name))
  {
    UpperOf(open, "BEGIN");
    SpellingIsToken(open, "BEGIN");
    TokenIsClean(name);
    WordIsSplit(open, name);
    hide SplitContent, BeginComponent, EndComponent, TrimSpace, IsToken, Upper, SameWord;
  }

  lemma {:induction false} StepEnd(st: Parser, close: string, name: string)
    requires SameWord(close, "END") && IsToken(name)
    ensures Step(st, close + ":" + name) == EndComponent(st, Upper(name))
  {
    UpperOf(close, "END");
    SpellingIsToken(close, "END");
    TokenIsClean(name);
    WordIsSplit(close, name);
    hide SplitContent, BeginComponent, EndComponent, TrimSpace, IsToken, Upper, SameWord;
  }

  lemma {:induction false} RunOne(st: Parser, line: string, rest: seq<string>)
    ensures Run(st, [line] + rest) == Run(Step(st, line), rest)
  {
    assert ([line] + rest)[0] == line && ([line] + rest)[1..] == rest;
  }

  /** A component's lines: open, items, close. */
  lemma {:induction false} RunComponent(st: Parser, n: Node)
    requires n.Component? && IsToken(n.name) && SameWord(n.open, "BEGIN") && SameWord(n.close, "END") && SameWord(n.last, n.name)
    ensures Run(st, NodeLines(n))
         == EndComponent(Run(BeginComponent(st, Upper(n.name)), ItemLines(n.items)), Upper(n.name))
  {
    var open, items, close := n.open + ":" + n.name, ItemLines(n.items), n.close + ":" + n.last;
    var st' := Run(BeginComponent(st, Upper(n.name)), items);
    SpellingIsToken(n.last, n.name);
    SameUpper(n.last, n.name);
    hide Step, BeginComponent, EndComponent, IsToken, Upper, SameWord;
    StepBegin(st, n.open, n.name);
    StepEnd(st', n.close, n.last);
    ConcatAssoc([open], items, [close]);
    RunOne(st, open, items + [close]);
    RunConcat(BeginComponent(st, Upper(n.name)), items, [close]);
    assert [close] + [] == [close];
    RunOne(st', close, []);
  }

  lemma {:induction false} RunLine(st: Parser, p: Prop)
    requires GoodProp(p)
    ensures Run(st, NodeLines(Line(p))) == CollectLine(st, PropText(p))
  {
    StepProp(st, p);
    assert [PropText(p)] + [] == [PropText(p)];
    RunOne(st, PropText(p), []);
    hide Step, PropText, CollectLine;
  }

  /** Closing what was opened, with the stack back as it was. */
  lemma {:induction false} CloseOpened(st: Parser, comp: string, st': Parser)
    requires st'.stack == st.stack + [comp]
    ensures EndComponent(st', comp).stack == st.stack
    ensures comp != "VEVENT" || st'.cur.None? ==> EndComponent(st', comp) == st'.(stack := st.stack)
    ensures comp == "VEVENT" && st'.cur.Some? ==>
      EndComponent(st', comp) == Parser(st'.events + [VEvent(st'.cur.value.0, JoinLines(st'.cur.value.1))], st.stack, None)
  {
    assert Inside(st', comp);
    assert st'.stack[..|st'.stack| - 1] == st.stack;
  }

  /** Inside a VEVENT but below another component, nothing leaves a trace. */
  lemma {:induction false} NodeIsSkipped(st: Parser, n: Node)
    requires Good(n) && EventFree(n) && st.cur.Some? && (n.Line? ==> !Inside(st, "VEVENT"))
    ensures Run(st, NodeLines(n)) == st
    decreases n, 1
  {
    if n.Component? { UpperOf(n.name, "VEVENT"); }
    hide Upper, PropText, GoodProp, SameWord;
    match n
    case Line(p) => RunLine(st, p);
    case Component(_, name, items, _, _) =>
      RunComponent(st, n);
      var inner := BeginComponent(st, Upper(name));
      ItemsAreSkipped(inner, items);
      CloseOpened(st, Upper(name), inner);
  }

  lemma {:induction false} ItemsAreSkipped(st: Parser, items: seq<Node>)
    requires AllGood(items) && AllEventFree(items) && st.cur.Some? && !Inside(st, "VEVENT")
    ensures Run(st, ItemLines(items)) == st
    decreases items, 0
  {
    hide Step, NodeLines, Inside;
    if items != [] {
      RunConcat(st, NodeLines(items[0]), ItemLines(items[1..]));
      NodeIsSkipped(st, items[0]);
      ItemsAreSkipped(st, items[1..]);
    }
  }

  function Collected(st: Parser, props: seq<Property>, lines: seq<string>): Parser
    requires st.cur.Some?
  {
    st.(cur := Some((st.cur.value.0 + props, st.cur.value.1 + lines)))
  }

  lemma {:induction false} CollectedTwice(st: Parser, p: seq<Property>, q: seq<Property>, a: seq<string>, b: seq<string>)
    requires st.cur.Some?
    ensures Collected(Collected(st, p, a), q, b) == Collected(st, p + q, a + b)
    ensures Collected(st, [], []) == st
  {
    ConcatAssoc(st.cur.value.0, p, q);
    ConcatAssoc(st.cur.value.1, a, b);
    assert st.cur.value.0 + [] == st.cur.value.0 && st.cur.value.1 + [] == st.cur.value.1;
  }

  /** Directly inside a VEVENT, exactly the property lines are collected. */
  lemma {:induction false} DirectItemsAreCollected(st: Parser, items: seq<Node>)
    requires AllGood(items) && AllEventFree(items) && st.cur.Some? && Inside(st, "VEVENT")
    ensures Run(st, ItemLines(items)) == Collected(st, DirectProps(items), DirectLines(items))
    decreases |items|
  {
    hide Step, PropText, Expected, PropertyOf, NodeLines, Upper, GoodProp;
    if items == [] {
      CollectedTwice(st, [], [], [], []);
    } else {
      RunConcat(st, NodeLines(items[0]), ItemLines(items[1..]));
      match items[0] {
        case Line(p) =>
          RunLine(st, p);
          PropRoundTrip(p);
          var st' := Collected(st, [Expected(p)], [PropText(p)]);
          DirectItemsAreCollected(st', items[1..]);
          CollectedTwice(st, [Expected(p)], DirectProps(items[1..]), [PropText(p)], DirectLines(items[1..]));
        case Component(_, _, _, _, _) =>
          NodeIsSkipped(st, items[0]);
          DirectItemsAreCollected(st, items[1..]);
      }
    }
  }

  /** Outside any VEVENT, a node contributes exactly its VEVENTs. */
  lemma {:induction false} NodeIsParsed(st: Parser, n: Node)
    requires Good(n) && st.cur.None?
    ensures Run(st, NodeLines(n)) == st.(events := st.events + Events(n))
    decreases n, 1
  {
    if n.Component? { UpperOf(n.name, "VEVENT"); }
    hide PropText, GoodProp, Upper, SameWord;
    match n
    case Line(p) =>
      RunLine(st, p);
      assert st.events + [] == st.events;
    case Component(_, name, items, _, _) =>
      RunComponent(st, n);
      var inner := BeginComponent(st, Upper(name));
      if IsEvent(n) {
        assert [] + DirectProps(items) == DirectProps(items) && [] + DirectLines(items) == DirectLines(items);
        DirectItemsAreCollected(inner, items);
      } else {
        ItemsAreParsed(inner, items);
      }
      CloseOpened(st, Upper(name), Run(inner, ItemLines(items)));
  }

  lemma {:induction false} ItemsAreParsed(st: Parser, items: seq<Node>)
    requires AllGood(items) && st.cur.None?
    ensures Run(st, ItemLines(items)) == st.(events := st.events + EventsOfItems(items))
    decreases items, 0
  {
    hide Step, NodeLines, Events, Good;
    if items == [] {
      assert st.events + [] == st.events;
    } else {
      RunConcat(st, NodeLines(items[0]), ItemLines(items[1..]));
      NodeIsParsed(st, items[0]);
      ItemsAreParsed(st.(events := st.events + Events(items[0])), items[1..]);
      ConcatAssoc(st.events, Events(items[0]), EventsOfItems(items[1..]));
    }
  }

  // ---------------------------------------------------------------- the whole feed

  lemma {:induction false} RunTrailingBlank(st: Parser, lines: seq<string>)
    ensures Run(st, lines + [""]) == Run(st, lines)
  {
    hide SplitContent, PropertyOf;
    RunConcat(st, lines, [""]);
    assert [""] + [] == [""];
    RunOne(Run(st, lines), "", []);
  }

  /** A line that may be cut anywhere: one logical line that does not start with a blank. */
  predicate IsLogicalLine(line: string) { line != "" && !IsFoldSpace(line[0]) && '\n' !in line }

  lemma {:induction false} ParamsHaveNoBreak(ps: seq<Param>)
    requires GoodParams(ps)
    ensures '\n' !in ParamsText(ps)
  {
    if ps != [] {
      if !ps[0].Blank? { TokenIsClean(ps[0].name); }
      assert '\n' !in ParamText(ps[0]);
      hide ParamText, GoodParam;
      ParamsHaveNoBreak(ps[1..]);
    }
  }

  lemma {:induction false} PropIsLogicalLine(p: Prop)
    requires GoodProp(p)
    ensures IsLogicalLine(PropText(p))
  {
    TokenIsClean(p.name);
    ParamsHaveNoBreak(p.params);
    UnescapeUndoesEscape(p.text);
    assert PropText(p)[0] == p.name[0];
    hide ParamsText, Escape, IsToken, GoodParams;
  }

  lemma {:induction false} NameIsLogicalLine(word: string, name: string)
    requires IsToken(word) && IsToken(name)
    ensures IsLogicalLine(word + ":" + name)
  {
    TokenIsClean(word);
    TokenIsClean(name);
    assert (word + ":" + name)[0] == word[0];
    hide IsToken;
  }

  lemma {:induction false} NodeIsLogicalLines(n: Node)
    requires Good(n)
    ensures forall line <- NodeLines(n) :: IsLogicalLine(line)
    decreases n, 1
  {
    match n
    case Line(p) =>
      PropIsLogicalLine(p);
    case Component(open, name, items, close, last) =>
      SpellingIsToken(open, "BEGIN");
      SpellingIsToken(close, "END");
      SpellingIsToken(last, name);
      NameIsLogicalLine(open, name);
      NameIsLogicalLine(close, last);
      hide IsLogicalLine;
      ItemsAreLogicalLines(items);
  }

  lemma {:induction false} ItemsAreLogicalLines(items: seq<Node>)
    requires AllGood(items)
    ensures forall line <- ItemLines(items) :: IsLogicalLine(line)
    decreases items, 0
  {
    hide IsLogicalLine, Good, NodeLines;
    if items != [] {
      NodeIsLogicalLines(items[0]);
      ItemsAreLogicalLines(items[1..]);
    }
  }

  lemma {:induction false} PieceOfPieces(rest: seq<(char, string)>, j: nat, c: char)
    requires j < |rest| && c in rest[j].1
    ensures c in Pieces(rest)
  {
    if j > 0 { PieceOfPieces(rest[1..], j - 1, c); }
  }

  lemma {:induction false} ContentAt(folded: seq<Folded>, i: nat)
    requires i < |folded|
    ensures Contents(folded)[i] == Content(folded[i])
  {
    if i > 0 { ContentAt(folded[1..], i - 1); }
  }

  predicate CutWithBlanks(f: Folded) { forall j :: 0 <= j < |f.rest| ==> f.rest[j].0 == ' ' || f.rest[j].0 == '\t' }

  /** However a logical line is cut, the pieces can be unfolded. */
  lemma {:induction false} CutsAreFoldable(f: Folded)
    requires IsLogicalLine(Content(f)) && CutWithBlanks(f)
    ensures Foldable(f)
  {
    assert f.first != "" ==> f.first[0] == Content(f)[0];
    forall j | 0 <= j < |f.rest| ensures '\n' !in f.rest[j].1 {
      if '\n' in f.rest[j].1 { PieceOfPieces(f.rest, j, '\n'); }
    }
  }

  /** Printed and cut at any points, the lines come back when unfolded. */
  lemma {:induction false} LinesComeBack(items: seq<Node>, folded: seq<Folded>)
    requires AllGood(items)
    requires Contents(folded) == ItemLines(items)
    requires forall i :: 0 <= i < |folded| ==> CutWithBlanks(folded[i])
    ensures AddLines([], Split(PrintAll(folded))) == ItemLines(items) + [""]
  {
    ItemsAreLogicalLines(items);
    hide AddLines, Split, PrintAll, Contents, ItemLines, Foldable, AllGood, IsLogicalLine, Content, CutWithBlanks;
    forall i | 0 <= i < |folded| ensures Foldable(folded[i]) {
      ContentAt(folded, i);
      assert Contents(folded)[i] in ItemLines(items);
      CutsAreFoldable(folded[i]);
    }
    UnfoldUndoesFolding([], folded);
    assert [] + Contents(folded) + [""] == Contents(folded) + [""];
  }

  /**
   * The round trip.  For every list of components and property lines, printed
   * line by line and cut at any points by CRLF and a blank, the parser returns
   * exactly their VEVENTs in document order.
   */
  lemma {:induction false} RoundTrip(items: seq<Node>, folded: seq<Folded>)
    requires AllGood(items)
    requires Contents(folded) == ItemLines(items)
    requires forall i :: 0 <= i < |folded| ==> CutWithBlanks(folded[i])
    ensures EventsOfBody(PrintAll(folded)) == EventsOfItems(items)
  {
    LinesComeBack(items, folded);
    hide Run, AddLines, Split, PrintAll, Contents, ItemLines, AllGood, EventsOfItems, CutWithBlanks;
    RunTrailingBlank(START, ItemLines(items));
    ItemsAreParsed(START, items);
    assert START.events + EventsOfItems(items) == EventsOfItems(items);
  }

  // ---------------------------------------------------------------- case does not matter

  predicate SameParam(p: Param, q: Param)
  {
    match (p, q)
    case (Param(a, v, _), Param(b, w, _)) => SameWord(a, b) && v == w
    case (Bare(a), Bare(b)) => SameWord(a, b)
    case (Blank, Blank) => true
    case _ => false
  }

  /** The same property with its name and its parameters' names spelled in another case. */
  predicate SameProp(p: Prop, q: Prop)
  {
    && SameWord(p.name, q.name) && p.text == q.text
    && |p.params| == |q.params| && forall i :: 0 <= i < |p.params| ==> SameParam(p.params[i], q.params[i])
  }

  predicate SameNode(m: Node, n: Node)
    decreases m, 1
  {
    match (m, n)
    case (Line(p), Line(q)) => SameProp(p, q)
    case (Component(_, a, items, _, _), Component(_, b, others, _, _)) => SameWord(a, b) && SameItems(items, others)
    case _ => false
  }

  predicate SameItems(a: seq<Node>, b: seq<Node>)
    decreases a, 0
  {
    if a == [] then b == [] else b != [] && SameNode(a[0], b[0]) && SameItems(a[1..], b[1..])
  }

  /** The same events as far as their properties go; the raw lines are as spelled. */
  predicate SameEvents(a: seq<VEvent>, b: seq<VEvent>) { |a| == |b| && forall i :: 0 <= i < |a| ==> a[i].props == b[i].props }

  lemma {:induction false} SameParamsExpected(params: map<string, string>, ps: seq<Param>, qs: seq<Param>)
    requires |ps| == |qs| && forall i :: 0 <= i < |ps| ==> SameParam(ps[i], qs[i])
    ensures ExpectedParams(params, ps) == ExpectedParams(params, qs)
    decreases |ps|
  {
    if ps != [] {
      assert SameParam(ps[0], qs[0]);
      if !ps[0].Blank? { SameUpper(ps[0].name, qs[0].name); }
      hide Upper, SameWord;
      assert forall i :: 0 <= i < |ps[1..]| ==> ps[1..][i] == ps[i + 1] && qs[1..][i] == qs[i + 1];
      SameParamsExpected(WithParam(params, ps[0]), ps[1..], qs[1..]);
    }
  }

  lemma {:induction false} SameDirectProps(a: seq<Node>, b: seq<Node>)
    requires SameItems(a, b)
    ensures DirectProps(a) == DirectProps(b)
  {
    if a != [] {
      SameDirectProps(a[1..], b[1..]);
      if a[0].Line? {
        SameUpper(a[0].prop.name, b[0].prop.name);
        SameParamsExpected(map[], a[0].prop.params, b[0].prop.params);
      }
      hide Upper, SameWord, ExpectedParams;
    }
  }

  lemma {:induction false} SameNodeEvents(m: Node, n: Node)
    requires SameNode(m, n)
    ensures SameEvents(Events(m), Events(n))
    decreases m, 1
  {
    if m.Component? {
      SameUpper(m.name, n.name);
      UpperOf(m.name, "VEVENT");
      UpperOf(n.name, "VEVENT");
      hide Upper, SameWord, JoinLines;
      if IsEvent(m) { SameDirectProps(m.items, n.items); } else { SameItemsEvents(m.items, n.items); }
    }
  }

  lemma {:induction false} SameItemsEvents(a: seq<Node>, b: seq<Node>)
    requires SameItems(a, b)
    ensures SameEvents(EventsOfItems(a), EventsOfItems(b))
    decreases a, 0
  {
    hide Events, SameNode;
    if a != [] {
      SameNodeEvents(a[0], b[0]);
      SameItemsEvents(a[1..], b[1..]);
    }
  }

  /**
   * Case does not matter: two printings of one calendar, folded anywhere, whose
   * keywords and component, property and parameter names differ in case only,
   * give the same events.
   */
  lemma {:induction false} CaseDoesNotMatter(items: seq<Node>, folded: seq<Folded>, items': seq<Node>, folded': seq<Folded>)
    requires AllGood(items) && Contents(folded) == ItemLines(items) && forall i :: 0 <= i < |folded| ==> CutWithBlanks(folded[i])
    requires AllGood(items') && Contents(folded') == ItemLines(items') && forall i :: 0 <= i < |folded'| ==> CutWithBlanks(folded'[i])
    requires SameItems(items, items')
    ensures SameEvents(EventsOfBody(PrintAll(folded)), EventsOfBody(PrintAll(folded')))
  {
    hide *;
    RoundTrip(items, folded);
    RoundTrip(items', folded');
    SameItemsEvents(items, items');
  }
}
