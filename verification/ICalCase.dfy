/** Letter case in calendars: names read the same however they are spelled. */
module ICalCase {
  import opened Common
  import opened Text
  import opened ICalText
  import opened ICalParse

  /** The same character, or the same letter in the other case: capitals are 32 code points below. */
  predicate SameLetter(a: char, b: char)
  {
    || a == b
    || ('a' <= a <= 'z' && a as int == b as int + 32)
    || ('a' <= b <= 'z' && b as int == a as int + 32)
  }

  predicate SameWord(a: string, b: string) { |a| == |b| && forall i :: 0 <= i < |a| ==> SameLetter(a[i], b[i]) }

  predicate NoSmallLetter(s: string) { forall c <- s :: !('a' <= c <= 'z') }

  /** Upper-casing changes case only and leaves no small letter; so it tells two words apart exactly when case does not. */
  lemma {:induction false} UpperIs(s: string)
    ensures SameWord(Upper(s), s) && NoSmallLetter(Upper(s))
  {
  }

  lemma {:induction false} SameUpper(a: string, b: string)
    ensures Upper(a) == Upper(b) <==> SameWord(a, b)
  {
    if SameWord(a, b) {
      forall i | 0 <= i < |a| ensures Upper(a)[i] == Upper(b)[i] { assert SameLetter(a[i], b[i]); }
    }
    if Upper(a) == Upper(b) {
      forall i | 0 <= i < |a| ensures SameLetter(a[i], b[i]) { assert Upper(a)[i] == Upper(b)[i]; }
    }
  }

  /** A word without small letters is what its spellings are upper-cased to. */
  lemma {:induction false} UpperOf(s: string, word: string)
    requires NoSmallLetter(word)
    ensures Upper(s) == word <==> SameWord(s, word)
  {
    forall i | 0 <= i < |word| ensures Upper(word)[i] == word[i] { assert word[i] in word; }
    assert Upper(word) == word;
    SameUpper(s, word);
  }

  // ---------------------------------------------------------------- what the parser returns

  predicate CapitalProperty(p: Property) { NoSmallLetter(p.name) && forall k <- p.params :: NoSmallLetter(k) }

  predicate CapitalEvent(ev: VEvent) { forall p <- ev.props :: CapitalProperty(p) }

  lemma {:induction false} ParamsAreCapital(params: map<string, string>, parts: seq<string>)
    requires forall k <- params :: NoSmallLetter(k)
    ensures forall k <- AddParams(params, parts) :: NoSmallLetter(k)
    decreases |parts|
  {
    hide NoSmallLetter, Upper, TrimSpace;
    if parts != [] {
      var eq := IndexOf(parts[0], '=');
      UpperIs(TrimSpace(if eq < 0 then parts[0] else parts[0][..eq]));
      ParamsAreCapital(AddParam(params, parts[0]), parts[1..]);
    }
  }

  lemma {:induction false} PropertyIsCapital(line: string)
    ensures CapitalProperty(PropertyOf(line))
  {
    var (name, seg, _) := SplitContent(line);
    UpperIs(TrimSpace(name));
    ParamsAreCapital(map[], SplitUnquoted(seg, ';'));
    hide NoSmallLetter, Upper, TrimSpace, SplitContent, AddParams, SplitUnquoted, Unescape;
  }

  predicate CapitalParser(st: Parser)
  {
    (forall ev <- st.events :: CapitalEvent(ev)) && (st.cur.Some? ==> forall p <- st.cur.value.0 :: CapitalProperty(p))
  }

  lemma {:induction false} RunIsCapital(st: Parser, lines: seq<string>)
    requires CapitalParser(st)
    ensures CapitalParser(Run(st, lines))
    decreases |lines|
  {
    hide CapitalProperty, PropertyOf, SplitContent, TrimSpace, JoinLines, Upper;
    if lines != [] {
      PropertyIsCapital(lines[0]);
      RunIsCapital(Step(st, lines[0]), lines[1..]);
    }
  }

  /** Whatever the feed, the names of the returned properties and parameters have no small letter. */
  lemma {:induction false} NamesAreCapital(body: string)
    ensures forall ev <- EventsOfBody(body) :: CapitalEvent(ev)
  {
    RunIsCapital(START, AddLines([], Split(body)));
    hide Run, CapitalEvent, AddLines, Split;
  }
}
