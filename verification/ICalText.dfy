/**
The text layer of the iCalendar parser: line unfolding (section 3.1 of
RFC 5545), TEXT escaping (section 3.3.11) and double-quoted runs (section 3.2).
*/
module ICalText {
  import opened Common
  import opened Text

  function TrimCR(s: string): string
  {
    if s != "" && s[|s| - 1] == '\r' then s[..|s| - 1] else s
  }

  predicate IsFoldSpace(c: char) { c == ' ' || c == '\t' }

  /** One physical line joins the previous logical line or starts a new one. */
  function AddLine(out: seq<string>, raw: string): seq<string>
  {
    if raw != "" && IsFoldSpace(raw[0]) && out != [] then out[|out| - 1 := out[|out| - 1] + raw[1..]]
    else out + [raw]
  }

  function AddLines(out: seq<string>, raws: seq<string>): seq<string>
    decreases |raws|
  {
    if raws == [] then out else AddLines(AddLine(out, TrimCR(raws[0])), raws[1..])
  }

  lemma {:induction false} AddLinesConcat(out: seq<string>, a: seq<string>, b: seq<string>)
    ensures AddLines(out, a + b) == AddLines(AddLines(out, a), b)
    decreases |a|
  {
    if a == [] {
      assert a + b == b;
    } else {
      assert (a + b)[0] == a[0] && (a + b)[1..] == a[1..] + b;
      AddLinesConcat(AddLine(out, TrimCR(a[0])), a[1..], b);
    }
  }

  /** unfold. */
  method Unfold(body: string) returns (out: seq<string>)
    ensures out == AddLines([], Split(body))
  {
    var rawLines := Split(body);
    out := [];
    for i := 0 to |rawLines|
      invariant AddLines([], rawLines) == AddLines(out, rawLines[i..])
    {
      var raw := TrimCR(rawLines[i]);
      assert rawLines[i..][0] == rawLines[i] && rawLines[i..][1..] == rawLines[i + 1..];
      if raw == "" {
        out := out + [""];
      } else if IsFoldSpace(raw[0]) && |out| > 0 {
        out := out[|out| - 1 := out[|out| - 1] + raw[1..]];
      } else {
        out := out + [raw];
      }
    }
  }

  // ---------------------------------------------------------------- folding

  /** A logical line cut at arbitrary points: each further piece follows a CRLF and one space or tab. */
  datatype Folded = Folded(first: string, rest: seq<(char, string)>)

  function Pieces(rest: seq<(char, string)>): string
  {
    if rest == [] then "" else rest[0].1 + Pieces(rest[1..])
  }

  /** The logical line. */
  function Content(f: Folded): string { f.first + Pieces(f.rest) }

  function PrintRest(rest: seq<(char, string)>): string
  {
    if rest == [] then "" else [rest[0].0] + rest[0].1 + "\r\n" + PrintRest(rest[1..])
  }

  function PrintFolded(f: Folded): string { f.first + "\r\n" + PrintRest(f.rest) }

  function PrintAll(fs: seq<Folded>): string
  {
    if fs == [] then "" else PrintFolded(fs[0]) + PrintAll(fs[1..])
  }

  function Contents(fs: seq<Folded>): (lines: seq<string>)
    ensures |lines| == |fs|
  {
    if fs == [] then [] else [Content(fs[0])] + Contents(fs[1..])
  }

  predicate Foldable(f: Folded)
  {
    && '\n' !in f.first
    && (f.first != "" ==> !IsFoldSpace(f.first[0]))
    && (forall i :: 0 <= i < |f.rest| ==> IsFoldSpace(f.rest[i].0) && '\n' !in f.rest[i].1)
  }

  lemma {:induction false} SplitPhysical(line: string, tail: string)
    requires '\n' !in line
    ensures Split(line + "\r\n" + tail) == [line + "\r"] + Split(tail)
    ensures TrimCR(line + "\r") == line
  {
    assert line + "\r\n" + tail == (line + "\r") + "\n" + tail;
    SplitLine(line + "\r", tail);
  }

  lemma {:induction false} ContinueLine(out: seq<string>, line: string, ws: char, piece: string)
    requires IsFoldSpace(ws)
    ensures AddLine(out + [line], [ws] + piece) == out + [line + piece]
  {
    assert ([ws] + piece)[1..] == piece;
  }

  lemma {:induction false} AddLinesCons(out: seq<string>, raw: string, rest: seq<string>)
    ensures AddLines(out, [raw] + rest) == AddLines(AddLine(out, TrimCR(raw)), rest)
  {
    assert ([raw] + rest)[0] == raw && ([raw] + rest)[1..] == rest;
  }

  /** The continuation pieces of a line are appended to it. */
  lemma {:induction false} UnfoldRest(out: seq<string>, line: string, rest: seq<(char, string)>, tail: string)
    requires forall i :: 0 <= i < |rest| ==> IsFoldSpace(rest[i].0) && '\n' !in rest[i].1
    ensures AddLines(out + [line], Split(PrintRest(rest) + tail)) == AddLines(out + [line + Pieces(rest)], Split(tail))
    decreases |rest|
  {
    hide AddLine, TrimCR, Split, AddLines;
    if rest == [] {
      assert PrintRest(rest) + tail == tail;
      assert line + "" == line;
    } else {
      var piece := [rest[0].0] + rest[0].1;
      var after := PrintRest(rest[1..]) + tail;
      ConcatAssoc(piece + "\r\n", PrintRest(rest[1..]), tail);
      SplitPhysical(piece, after);
      AddLinesCons(out + [line], piece + "\r", Split(after));
      ContinueLine(out, line, rest[0].0, rest[0].1);
      UnfoldRest(out, line + rest[0].1, rest[1..], tail);
      ConcatAssoc(line, rest[0].1, Pieces(rest[1..]));
    }
  }

  lemma {:induction false} UnfoldOne(out: seq<string>, f: Folded, tail: string)
    requires Foldable(f)
    ensures AddLines(out, Split(PrintFolded(f) + tail)) == AddLines(out + [Content(f)], Split(tail))
  {
    var after := PrintRest(f.rest) + tail;
    assert AddLine(out, f.first) == out + [f.first];
    hide AddLine, TrimCR, Split, AddLines;
    ConcatAssoc(f.first + "\r\n", PrintRest(f.rest), tail);
    SplitPhysical(f.first, after);
    AddLinesCons(out, f.first + "\r", Split(after));
    UnfoldRest(out, f.first, f.rest, tail);
  }

  lemma {:induction false} UnfoldNothing(out: seq<string>)
    ensures AddLines(out, Split("")) == out + [""]
  {
    AddLinesCons(out, "", []);
    assert [""] + [] == [""];
  }

  /** Unfolding undoes folding at any points; the final line end leaves one empty line. */
  lemma {:induction false} UnfoldUndoesFolding(out: seq<string>, fs: seq<Folded>)
    requires forall i :: 0 <= i < |fs| ==> Foldable(fs[i])
    ensures AddLines(out, Split(PrintAll(fs))) == out + Contents(fs) + [""]
    decreases |fs|
  {
    hide PrintFolded, Content, Split, Foldable, AddLines;
    if fs == [] {
      UnfoldNothing(out);
      assert out + [] == out;
    } else {
      UnfoldOne(out, fs[0], PrintAll(fs[1..]));
      UnfoldUndoesFolding(out + [Content(fs[0])], fs[1..]);
      ConcatAssoc(out, [Content(fs[0])], Contents(fs[1..]));
    }
  }

  // ---------------------------------------------------------------- TEXT escaping

  function EscapeChar(c: char): string
  {
    if c == '\\' then "\\\\" else if c == ';' then "\\;" else if c == ',' then "\\,"
    else if c == '\n' then "\\n" else [c]
  }

  function Escape(t: string): string
  {
    if t == "" then "" else EscapeChar(t[0]) + Escape(t[1..])
  }

  function Unescaped(c: char): char { if c == 'n' || c == 'N' then '\n' else c }

  /** unescapeText; a lone backslash at the end is kept. */
  function Unescape(s: string): string
  {
    if s == "" then ""
    else if s[0] != '\\' || |s| == 1 then [s[0]] + Unescape(s[1..])
    else [Unescaped(s[1])] + Unescape(s[2..])
  }

  lemma {:induction false} NothingToUnescape(s: string)
    requires '\\' !in s
    ensures Unescape(s) == s
  {
    if s != "" { NothingToUnescape(s[1..]); }
  }

  lemma {:induction false} UnescapeNext(s: string, i: nat)
    requires i < |s|
    ensures s[i] != '\\' || i == |s| - 1 ==> Unescape(s[i..]) == [s[i]] + Unescape(s[i + 1..])
    ensures s[i] == '\\' && i < |s| - 1 ==> Unescape(s[i..]) == [Unescaped(s[i + 1])] + Unescape(s[i + 2..])
  {
    assert s[i..][1..] == s[i + 1..];
    if i < |s| - 1 { assert s[i..][2..] == s[i + 2..]; }
  }

  method UnescapeText(s: string) returns (r: string)
    ensures r == Unescape(s)
  {
    if '\\' !in s {
      NothingToUnescape(s);
      return s;
    }
    r := "";
    var i := 0;
    assert Unescape("") == "";
    hide Unescape;
    assert s[0..] == s;
    while i < |s|
      invariant 0 <= i <= |s|
      invariant Unescape(s) == r + Unescape(s[i..])
    {
      var c := s[i];
      UnescapeNext(s, i);
      if c != '\\' || i == |s| - 1 {
        ConcatAssoc(r, [c], Unescape(s[i + 1..]));
        r := r + [c];
      } else {
        i := i + 1;
        var d := if s[i] == 'n' || s[i] == 'N' then '\n' else s[i];
        ConcatAssoc(r, [d], Unescape(s[i + 1..]));
        r := r + [d];
      }
      i := i + 1;
    }
    assert s[|s|..] == "";
  }

  lemma {:induction false} UnescapeEscapedChar(c: char, rest: string)
    ensures Unescape(EscapeChar(c) + rest) == [c] + Unescape(rest)
  {
    var e := EscapeChar(c);
    var s := e + rest;
    if |e| == 1 {
      assert s[0] == c && s[1..] == rest;
    } else {
      assert s[0] == '\\' && s[1] == e[1] && s[2..] == rest;
    }
  }

  lemma {:induction false} NoBreakInEscapedChar(c: char)
    ensures '\n' !in EscapeChar(c)
  {
  }

  /** Escaping and unescaping is the identity on every text, and an escaped text has no line break. */
  lemma {:induction false} UnescapeUndoesEscape(t: string)
    ensures Unescape(Escape(t)) == t
    ensures '\n' !in Escape(t)
  {
    if t != "" {
      UnescapeUndoesEscape(t[1..]);
      UnescapeEscapedChar(t[0], Escape(t[1..]));
      assert [t[0]] + t[1..] == t;
      assert forall c :: c in Escape(t) ==> c in EscapeChar(t[0]) || c in Escape(t[1..]);
      hide EscapeChar, Unescape;
      NoBreakInEscapedChar(t[0]);
    }
  }

  /** What each piece of a text stands for: plain runs themselves, an escaped n or N a newline, any other escaped character itself. */
  lemma {:induction false} UnescapeExactly(plain: string, c: char, rest: string)
    requires '\\' !in plain
    ensures Unescape(plain + rest) == plain + Unescape(rest)
    ensures Unescape("\\" + [c] + rest) == (if c == 'n' || c == 'N' then "\n" else [c]) + Unescape(rest)
    ensures Unescape("\\") == "\\" && Unescape("") == ""
    decreases |plain|
  {
    var s := "\\" + [c] + rest;
    assert s[0] == '\\' && s[1] == c && s[2..] == rest;
    if plain == "" {
      assert plain + rest == rest;
    } else {
      assert (plain + rest)[0] == plain[0] && (plain + rest)[1..] == plain[1..] + rest;
      UnescapeExactly(plain[1..], c, rest);
      ConcatAssoc([plain[0]], plain[1..], Unescape(rest));
      assert [plain[0]] + plain[1..] == plain;
    }
  }

  // ---------------------------------------------------------------- double-quoted runs

  /** Position `i` lies inside a double-quoted run: an odd number of quotes precedes it. */
  predicate InQuote(s: string, i: nat)
    requires i <= |s|
  {
    i > 0 && (InQuote(s, i - 1) != (s[i - 1] == '"'))
  }

  predicate UnquotedAt(s: string, ch: char, i: nat)
    requires i < |s|
  {
    s[i] == ch && !InQuote(s, i)
  }

  predicate FirstUnquoted(s: string, ch: char, i: int)
  {
    && -1 <= i < |s|
    && (i >= 0 ==> UnquotedAt(s, ch, i))
    && (forall j: nat :: j < |s| && (i < 0 || j < i) ==> !UnquotedAt(s, ch, j))
  }

  lemma {:induction false} FirstUnquotedUnique(s: string, ch: char, i: int, j: int)
    requires FirstUnquoted(s, ch, i) && FirstUnquoted(s, ch, j)
    ensures i == j
  {
  }

  /** The first unquoted occurrence, or -1. */
  method UnquotedIndex(s: string, ch: char) returns (r: int)
    requires ch != '"'
    ensures FirstUnquoted(s, ch, r)
  {
    var inQuote := false;
    for i := 0 to |s|
      invariant inQuote == InQuote(s, i)
      invariant forall j: nat :: j < i ==> !UnquotedAt(s, ch, j)
    {
      if s[i] == '"' {
        inQuote := !inQuote;
      } else if s[i] == ch && !inQuote {
        return i;
      }
    }
    r := -1;
  }

  /** The same as a function, scanning from `i`. */
  function UnquotedFrom(s: string, ch: char, i: nat): (r: int)
    requires i <= |s| && forall j: nat :: j < i ==> !UnquotedAt(s, ch, j)
    ensures FirstUnquoted(s, ch, r)
    decreases |s| - i
  {
    if i == |s| then -1 else if UnquotedAt(s, ch, i) then i else UnquotedFrom(s, ch, i + 1)
  }

  function Unquoted(s: string, ch: char): (r: int)
    ensures FirstUnquoted(s, ch, r)
  {
    UnquotedFrom(s, ch, 0)
  }

  /** Balanced quotes and no unquoted `ch`. */
  predicate Plain(s: string, ch: char)
  {
    !InQuote(s, |s|) && forall j: nat :: j < |s| ==> !UnquotedAt(s, ch, j)
  }

  /** Quoting is local: a balanced head does not affect what follows. */
  lemma {:induction false} InQuoteShift(a: string, b: string, i: nat)
    requires i <= |b| && !InQuote(a, |a|)
    ensures InQuote(a + b, |a| + i) == InQuote(b, i)
  {
    if i == 0 {
      InQuotePrefix(a, b, |a|);
    } else {
      InQuoteShift(a, b, i - 1);
    }
  }

  lemma {:induction false} InQuotePrefix(a: string, b: string, i: nat)
    requires i <= |a|
    ensures InQuote(a + b, i) == InQuote(a, i)
  {
    if i > 0 { InQuotePrefix(a, b, i - 1); }
  }

  lemma {:induction false} UnquotedPrefix(a: string, b: string, ch: char, j: nat)
    requires j < |a|
    ensures UnquotedAt(a + b, ch, j) == UnquotedAt(a, ch, j)
  {
    InQuotePrefix(a, b, j);
  }

  lemma {:induction false} UnquotedShift(a: string, b: string, ch: char, j: nat)
    requires j < |b| && !InQuote(a, |a|)
    ensures UnquotedAt(a + b, ch, |a| + j) == UnquotedAt(b, ch, j)
  {
    InQuoteShift(a, b, j);
  }

  lemma {:induction false} UnquotedSuffix(s: string, start: nat, ch: char, j: nat)
    requires start <= j < |s| && !InQuote(s, start)
    ensures UnquotedAt(s[start..], ch, j - start) == UnquotedAt(s, ch, j)
  {
    InQuoteSuffix(s, start, j);
  }

  /** A plain head ends at the separator, whatever follows it. */
  lemma {:induction false} UnquotedAfterPlain(head: string, ch: char, tail: string)
    requires Plain(head, ch)
    ensures Unquoted(head + [ch] + tail, ch) == |head|
  {
    var s, rest := head + [ch] + tail, [ch] + tail;
    assert s == head + rest;
    InQuotePrefix(head, rest, |head|);
    assert UnquotedAt(s, ch, |head|);
    forall j: nat | j < |head| ensures !UnquotedAt(s, ch, j) { UnquotedPrefix(head, rest, ch, j); }
    hide InQuote, UnquotedAt;
  }

  lemma {:induction false} UnquotedInPlain(head: string, ch: char)
    requires Plain(head, ch)
    ensures Unquoted(head, ch) == -1
  {
  }

  lemma {:induction false} PlainConcat(a: string, b: string, ch: char)
    requires Plain(a, ch) && Plain(b, ch)
    ensures Plain(a + b, ch)
  {
    var s := a + b;
    InQuoteShift(a, b, |b|);
    forall j: nat | j < |s| ensures !UnquotedAt(s, ch, j) {
      if j < |a| { UnquotedPrefix(a, b, ch, j); } else { UnquotedShift(a, b, ch, j - |a|); }
    }
  }

  /** splitUnquoted. */
  function SplitUnquoted(s: string, sep: char): (parts: seq<string>)
    ensures parts != []
    decreases |s|
  {
    var i := Unquoted(s, sep);
    if i < 0 then [s] else [s[..i]] + SplitUnquoted(s[i + 1..], sep)
  }

  lemma {:induction false} FirstInSuffix(s: string, sep: char, start: nat, i: nat)
    requires start <= i < |s| && !InQuote(s, start) && UnquotedAt(s, sep, i)
    requires forall j: nat :: start <= j < i ==> !UnquotedAt(s, sep, j)
    ensures Unquoted(s[start..], sep) == i - start
  {
    hide InQuote, UnquotedAt;
    var t := s[start..];
    forall j: nat | j < i - start ensures !UnquotedAt(t, sep, j) { UnquotedSuffix(s, start, sep, start + j); }
    UnquotedSuffix(s, start, sep, i);
    FirstUnquotedUnique(t, sep, Unquoted(t, sep), i - start);
  }

  lemma {:induction false} SplitAt(t: string, sep: char, k: nat)
    requires Unquoted(t, sep) == k
    ensures SplitUnquoted(t, sep) == [t[..k]] + SplitUnquoted(t[k + 1..], sep)
  {
  }

  lemma {:induction false} SliceOfSlice(s: string, start: nat, i: nat)
    requires start <= i < |s|
    ensures s[start..][..i - start] == s[start..i]
    ensures s[start..][i - start + 1..] == s[i + 1..]
  {
  }

  lemma {:induction false} SplitUnquotedStep(s: string, sep: char, start: nat, i: nat)
    requires start <= i < |s| && !InQuote(s, start) && UnquotedAt(s, sep, i)
    requires forall j: nat :: start <= j < i ==> !UnquotedAt(s, sep, j)
    ensures SplitUnquoted(s[start..], sep) == [s[start..i]] + SplitUnquoted(s[i + 1..], sep)
  {
    hide *;
    FirstInSuffix(s, sep, start, i);
    SplitAt(s[start..], sep, i - start);
    SliceOfSlice(s, start, i);
  }

  lemma {:induction false} InQuoteSuffix(s: string, start: nat, j: nat)
    requires start <= j <= |s| && !InQuote(s, start)
    ensures InQuote(s[start..], j - start) == InQuote(s, j)
  {
    hide InQuote;
    var a, b := s[..start], s[start..];
    assert s == a + b;
    InQuotePrefix(a, b, start);
    InQuoteShift(a, b, j - start);
  }

  lemma {:induction false} SplitUnquotedLast(s: string, sep: char, start: nat)
    requires start <= |s| && !InQuote(s, start)
    requires forall j: nat :: start <= j < |s| ==> !UnquotedAt(s, sep, j)
    ensures SplitUnquoted(s[start..], sep) == [s[start..]]
  {
    var t := s[start..];
    forall j: nat | j < |t| ensures !UnquotedAt(t, sep, j) { UnquotedSuffix(s, start, sep, start + j); }
    hide InQuote, UnquotedAt;
  }

  method SplitUnquotedLoop(s: string, sep: char) returns (out: seq<string>)
    requires sep != '"'
    ensures out == SplitUnquoted(s, sep)
  {
    hide SplitUnquoted;
    out := [];
    var start := 0;
    var inQuote := false;
    assert s[0..] == s;
    for i := 0 to |s|
      invariant start <= i && inQuote == InQuote(s, i) && !InQuote(s, start)
      invariant forall j: nat :: start <= j < i ==> !UnquotedAt(s, sep, j)
      invariant SplitUnquoted(s, sep) == out + SplitUnquoted(s[start..], sep)
    {
      if s[i] == '"' {
        inQuote := !inQuote;
      } else if s[i] == sep && !inQuote {
        SplitUnquotedStep(s, sep, start, i);
        out := out + [s[start..i]];
        start := i + 1;
      }
    }
    SplitUnquotedLast(s, sep, start);
    out := out + [s[start..]];
  }
}
