/** The string library functions the connectors use. */
module Strings {
  import opened Common

  const UINT64_LIMIT: nat := 0x1_0000_0000_0000_0000

  // ---------------------------------------------------------------- decimal numbers

  predicate IsDigit(c: char) { '0' <= c <= '9' }

  predicate AllDigits(s: string) { forall i :: 0 <= i < |s| ==> IsDigit(s[i]) }

  /** The number a digit string denotes. */
  function Value(s: string): nat
    requires AllDigits(s)
  {
    if s == "" then 0 else 10 * Value(s[..|s| - 1]) + ((s[|s| - 1] as int) - ('0' as int))
  }

  /** strconv.FormatUint(n, 10). */
  function FormatUint(n: nat): (s: string)
    ensures s != "" && AllDigits(s)
  {
    var digit := [('0' as int + n % 10) as char];
    if n < 10 then digit else FormatUint(n / 10) + digit
  }

  /** strconv.ParseUint(s, 10, 64). */
  function ParseUint(s: string): Option<nat>
  {
    if s == "" || !AllDigits(s) then None
    else if Value(s) < UINT64_LIMIT then Some(Value(s)) else None
  }

  lemma {:induction false} FormatDenotes(n: nat)
    ensures Value(FormatUint(n)) == n
  {
    var s := FormatUint(n);
    if n >= 10 {
      FormatDenotes(n / 10);
      assert s[..|s| - 1] == FormatUint(n / 10);
    } else {
      assert s[..|s| - 1] == "";
    }
  }

  // ---------------------------------------------------------------- strings.Index and strings.Cut

  predicate At(s: string, sep: string, i: nat) { i + |sep| <= |s| && s[i..i + |sep|] == sep }

  /** The first occurrence of `sep` in `s` at or after `from`, or -1. */
  function IndexFrom(s: string, sep: string, from: nat): (i: int)
    ensures i == -1 || (from <= i && At(s, sep, i))
    ensures forall j: nat :: from <= j && (i == -1 || j < i) ==> !At(s, sep, j)
    decreases |s| - from
  {
    if from + |sep| > |s| then -1
    else if At(s, sep, from) then from
    else IndexFrom(s, sep, from + 1)
  }

  function Index(s: string, sep: string): (i: int)
    ensures i == -1 || (0 <= i && At(s, sep, i))
    ensures forall j: nat :: i == -1 || j < i ==> !At(s, sep, j)
  {
    IndexFrom(s, sep, 0)
  }

  lemma {:induction false} NoMatchWithoutFirstChar(s: string, sep: string, j: nat)
    requires sep != "" && j < |s| && s[j] != sep[0]
    ensures !At(s, sep, j)
  {
    assert j + |sep| <= |s| ==> s[j..j + |sep|][0] == s[j];
  }

  /** A head free of the separator's first character is cut off whole, whatever follows. */
  lemma {:induction false} CutAfterCleanHead(head: string, sep: string, tail: string)
    requires sep != "" && sep[0] !in head
    ensures Index(head + sep + tail, sep) == |head|
  {
    var s := head + sep + tail;
    assert At(s, sep, |head|);
    forall j: nat | j < |head| ensures !At(s, sep, j) {
      assert s[j] == head[j];
      NoMatchWithoutFirstChar(s, sep, j);
    }
  }

  lemma {:induction false} NothingToCut(s: string, sep: string)
    requires sep != "" && sep[0] !in s
    ensures Index(s, sep) == -1
  {
    forall j: nat | j < |s| ensures !At(s, sep, j) {
      NoMatchWithoutFirstChar(s, sep, j);
    }
  }
}
