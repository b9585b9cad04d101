/** Byte-wise string order and sort.Strings. */
module StringOrder {

  predicate Less(a: string, b: string)
  {
    b != "" && (a == "" || a[0] < b[0] || (a[0] == b[0] && Less(a[1..], b[1..])))
  }

  lemma {:induction false} LessIsStrict(a: string, b: string)
    ensures Less(a, b) ==> a != b && !Less(b, a)
    ensures a == b || Less(a, b) || Less(b, a)
  {
    if a != "" && b != "" && a[0] == b[0] {
      LessIsStrict(a[1..], b[1..]);
      assert a == [a[0]] + a[1..] && b == [b[0]] + b[1..];
    }
  }

  lemma {:induction false} LessIsTransitive(a: string, b: string, c: string)
    requires Less(a, b) && Less(b, c)
    ensures Less(a, c)
  {
    if a != "" && a[0] == b[0] == c[0] { LessIsTransitive(a[1..], b[1..], c[1..]); }
  }

  predicate IsSorted(s: seq<string>)
  {
    forall i, j :: 0 <= i < j < |s| ==> !Less(s[j], s[i])
  }

  predicate IsAscending(s: seq<string>)
  {
    forall i, j :: 0 <= i < j < |s| ==> Less(s[i], s[j])
  }

  function Insert(k: string, s: seq<string>): seq<string>
  {
    if s == [] || !Less(s[0], k) then [k] + s else [s[0]] + Insert(k, s[1..])
  }

  function Sort(s: seq<string>): seq<string>
  {
    if s == [] then [] else Insert(s[0], Sort(s[1..]))
  }

  lemma {:induction false} InsertPermutes(k: string, s: seq<string>)
    ensures multiset(Insert(k, s)) == multiset{k} + multiset(s)
  {
    hide Less;
    if s != [] && Less(s[0], k) {
      InsertPermutes(k, s[1..]);
      assert s == [s[0]] + s[1..];
    }
  }

  lemma {:induction false} NotLessThan(k: string, s: seq<string>)
    requires s != [] && IsSorted(s) && !Less(s[0], k)
    ensures forall j :: 0 <= j < |s| ==> !Less(s[j], k)
  {
    hide Less;
    forall j | 0 <= j < |s| ensures !Less(s[j], k) {
      if Less(s[j], k) && s[j] != s[0] {
        LessIsStrict(s[j], s[0]);
        LessIsTransitive(s[0], s[j], k);
      }
    }
  }

  lemma {:induction false} InsertSorts(k: string, s: seq<string>)
    requires IsSorted(s)
    ensures IsSorted(Insert(k, s))
  {
    hide Less;
    if s == [] || !Less(s[0], k) {
      if s != [] { NotLessThan(k, s); }
    } else {
      assert IsSorted(s[1..]);
      InsertSorts(k, s[1..]);
      InsertPermutes(k, s[1..]);
      var rest := Insert(k, s[1..]);
      LessIsStrict(s[0], k);
      forall j | 0 <= j < |rest| ensures !Less(rest[j], s[0]) {
        assert rest[j] in multiset(rest);
        assert rest[j] == k || rest[j] in s[1..];
      }
    }
  }

  lemma {:induction false} SortSorts(s: seq<string>)
    ensures IsSorted(Sort(s)) && multiset(Sort(s)) == multiset(s)
  {
    hide Less, Insert;
    if s != [] {
      SortSorts(s[1..]);
      InsertSorts(s[0], Sort(s[1..]));
      InsertPermutes(s[0], Sort(s[1..]));
      assert s == [s[0]] + s[1..];
    }
  }

  lemma {:induction false} FirstIsLeast(a: seq<string>, b: seq<string>)
    requires IsSorted(a) && a != [] && b != [] && b[0] in a
    ensures !Less(b[0], a[0])
  {
    LessIsStrict(a[0], a[0]);
  }

  lemma {:induction false} SameFirst(a: seq<string>, b: seq<string>)
    requires IsSorted(a) && IsSorted(b) && a != [] && b != [] && multiset(a) == multiset(b)
    ensures a[0] == b[0]
  {
    assert b[0] in multiset(a) && a[0] in multiset(b);
    hide Less, IsSorted;
    FirstIsLeast(a, b);
    FirstIsLeast(b, a);
    LessIsStrict(a[0], b[0]);
  }

  lemma {:induction false} SameRest(a: seq<string>, b: seq<string>)
    requires a != [] && b != [] && a[0] == b[0] && multiset(a) == multiset(b)
    ensures multiset(a[1..]) == multiset(b[1..])
  {
    assert a == [a[0]] + a[1..] && b == [b[0]] + b[1..];
    assert multiset(a[1..]) == multiset(a) - multiset{a[0]};
    assert multiset(b[1..]) == multiset(b) - multiset{b[0]};
  }

  lemma {:induction false} SortedUnique(a: seq<string>, b: seq<string>)
    requires IsSorted(a) && IsSorted(b) && multiset(a) == multiset(b)
    ensures a == b
  {
    hide Less;
    if a == [] || b == [] {
      assert |multiset(a)| == |multiset(b)|;
    } else {
      SameFirst(a, b);
      SameRest(a, b);
      assert IsSorted(a[1..]) && IsSorted(b[1..]);
      SortedUnique(a[1..], b[1..]);
      assert a == [a[0]] + a[1..] && b == [b[0]] + b[1..];
    }
  }

  /** sort.Strings leaves an ascending list alone. */
  lemma {:induction false} SortAscending(s: seq<string>)
    requires IsAscending(s)
    ensures Sort(s) == s
  {
    SortSorts(s);
    forall i, j | 0 <= i < j < |s| ensures !Less(s[j], s[i]) { LessIsStrict(s[i], s[j]); }
    SortedUnique(Sort(s), s);
  }

  lemma {:induction false} SortOfSame(a: seq<string>, b: seq<string>)
    requires multiset(a) == multiset(b)
    ensures Sort(a) == Sort(b)
  {
    hide IsSorted, Sort;
    SortSorts(a);
    SortSorts(b);
    SortedUnique(Sort(a), Sort(b));
  }
}
