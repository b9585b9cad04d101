/** Lines, blanks and single characters. */
module Text {
  import opened Common

  predicate IsSpace(c: char) { c == ' ' || '\t' <= c <= '\r' }

  function TrimLeft(s: string): string { if s != "" && IsSpace(s[0]) then TrimLeft(s[1..]) else s }

  function TrimRight(s: string): string
  {
    if s != "" && IsSpace(s[|s| - 1]) then TrimRight(s[..|s| - 1]) else s
  }

  function TrimSpace(s: string): string { TrimRight(TrimLeft(s)) }

  /** The ASCII blanks, by name. */
  predicate IsBlank(c: char) { c in {' ', '\t', '\n', '\U{0B}', '\U{0C}', '\r'} }

  predicate AllBlank(s: string) { forall i :: 0 <= i < |s| ==> IsBlank(s[i]) }

  lemma {:induction false} LeftIsTrimmed(a: string, s: string)
    requires AllBlank(a) && (s != "" ==> !IsBlank(s[0]))
    ensures TrimLeft(a + s) == s
  {
    if a == "" {
      assert a + s == s;
    } else {
      assert (a + s)[0] == a[0] && (a + s)[1..] == a[1..] + s;
      LeftIsTrimmed(a[1..], s);
    }
  }

  lemma {:induction false} RightIsTrimmed(s: string, b: string)
    requires AllBlank(b) && (s != "" ==> !IsBlank(s[|s| - 1]))
    ensures TrimRight(s + b) == s
  {
    if b == "" {
      assert s + b == s;
    } else {
      var n := |b| - 1;
      assert (s + b)[|s + b| - 1] == b[n] && (s + b)[..|s + b| - 1] == s + b[..n];
      RightIsTrimmed(s, b[..n]);
    }
  }

  /** Trimming takes the blanks at both ends and nothing else, whatever is in between. */
  lemma {:induction false} TrimExactly(a: string, core: string, b: string)
    requires AllBlank(a) && AllBlank(b) && (core != "" ==> !IsBlank(core[0]) && !IsBlank(core[|core| - 1]))
    ensures TrimSpace(a + core + b) == core
  {
    if core == "" {
      assert a + core + b == (a + b) + "";
      LeftIsTrimmed(a + b, "");
      RightIsTrimmed("", "");
      assert "" + "" == "";
    } else {
      assert a + core + b == a + (core + b) && (core + b)[0] == core[0];
      LeftIsTrimmed(a, core + b);
      RightIsTrimmed(core, b);
    }
  }

  /** strings.IndexByte. */
  function IndexOf(s: string, c: char): (i: int)
    ensures -1 <= i < |s|
    ensures i >= 0 ==> s[i] == c
    ensures forall j: nat :: j < |s| && (i < 0 || j < i) ==> s[j] != c
  {
    if s == "" then -1
    else if s[0] == c then 0
    else
      var r := IndexOf(s[1..], c);
      assert forall j: nat :: 0 < j < |s| ==> s[j] == s[1..][j - 1];
      if r < 0 then -1 else r + 1
  }

  /** strings.Split(s, "\n"). */
  function Split(s: string): (lines: seq<string>)
    ensures lines != []
  {
    if s == "" then [""]
    else if s[0] == '\n' then [""] + Split(s[1..])
    else
      var rest := Split(s[1..]);
      [[s[0]] + rest[0]] + rest[1..]
  }

  lemma {:induction false} SplitLine(a: string, b: string)
    requires '\n' !in a
    ensures Split(a + "\n" + b) == [a] + Split(b)
  {
    var s := a + "\n" + b;
    if a == "" {
      assert s[1..] == b;
    } else {
      assert s[1..] == a[1..] + "\n" + b;
      SplitLine(a[1..], b);
      assert [a[0]] + a[1..] == a;
    }
  }

  lemma {:induction false} SplitOne(s: string)
    requires '\n' !in s
    ensures Split(s) == [s]
  {
    if s != "" {
      SplitOne(s[1..]);
      assert [s[0]] + s[1..] == s;
    }
  }

  lemma {:induction false} SplitConcat(a: string, b: string)
    ensures Split(a + "\n" + b) == Split(a) + Split(b)
  {
    if a == "" {
      assert a + "\n" + b == "\n" + b;
      assert ("\n" + b)[1..] == b;
    } else {
      var s := a + "\n" + b;
      assert s[0] == a[0] && s[1..] == a[1..] + "\n" + b;
      SplitConcat(a[1..], b);
      var sa, sb := Split(a[1..]), Split(b);
      assert (sa + sb)[0] == sa[0] && (sa + sb)[1..] == sa[1..] + sb;
      if a[0] == '\n' { ConcatAssoc([""], sa, sb); } else { ConcatAssoc([[a[0]] + sa[0]], sa[1..], sb); }
    }
  }
}
