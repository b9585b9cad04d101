/** Cutting UTF-8 text to a byte limit without splitting a rune. */
module Utf8 {
  import opened Common

  newtype byte = x: int | 0 <= x < 256

  // ---------------------------------------------------------------- section 4 of RFC 3629

  predicate IsTail(b: byte) { 0x80 <= b <= 0xBF }

  /** UTF8-char: the well-formed encodings of one rune. */
  predicate IsRune(r: seq<byte>)
  {
    match |r|
    case 1 => r[0] <= 0x7F
    case 2 => 0xC2 <= r[0] <= 0xDF && IsTail(r[1])
    case 3 =>
      && IsTail(r[2])
      && ((r[0] == 0xE0 && 0xA0 <= r[1] <= 0xBF)
          || (0xE1 <= r[0] <= 0xEC && IsTail(r[1]))
          || (r[0] == 0xED && 0x80 <= r[1] <= 0x9F)
          || (0xEE <= r[0] <= 0xEF && IsTail(r[1])))
    case 4 =>
      && IsTail(r[2]) && IsTail(r[3])
      && ((r[0] == 0xF0 && 0x90 <= r[1] <= 0xBF)
          || (0xF1 <= r[0] <= 0xF3 && IsTail(r[1]))
          || (r[0] == 0xF4 && 0x80 <= r[1] <= 0x8F))
    case _ => false
  }

  predicate AreRunes(runes: seq<seq<byte>>) { forall i :: 0 <= i < |runes| ==> IsRune(runes[i]) }

  /** The bytes of a text. */
  function Bytes(runes: seq<seq<byte>>): seq<byte>
  {
    if runes == [] then [] else Bytes(runes[..|runes| - 1]) + runes[|runes| - 1]
  }

  // ---------------------------------------------------------------- decoding, as utf8.DecodeRune does it

  /** How long an encoding starting with `b` is; 0 if none can. */
  function Length(b: byte): nat
  {
    if b < 0x80 then 1 else if b < 0xC2 then 0 else if b <= 0xDF then 2 else if b <= 0xEF then 3 else if b <= 0xF4 then 4 else 0
  }

  /** The accept ranges for the second byte. */
  predicate Accepts(first: byte, second: byte)
  {
    if first == 0xE0 then 0xA0 <= second <= 0xBF
    else if first == 0xED then 0x80 <= second <= 0x9F
    else if first == 0xF0 then 0x90 <= second <= 0xBF
    else if first == 0xF4 then 0x80 <= second <= 0x8F
    else 0x80 <= second <= 0xBF
  }

  /** The size of the first rune; None stands for (RuneError, 1). */
  function Decode(p: seq<byte>): Option<nat>
    requires p != []
  {
    var n := Length(p[0]);
    if n == 0 || |p| < n then None
    else if n == 1 then Some(1)
    else if !Accepts(p[0], p[1]) then None
    else if n == 2 then Some(2)
    else if !IsTail(p[2]) then None
    else if n == 3 then Some(3)
    else if !IsTail(p[3]) then None
    else Some(4)
  }

  predicate RuneStart(b: byte) { !IsTail(b) }

  /** The backward scan: the first rune start at or below `i`, stopping below `lim`. */
  function ScanBack(p: seq<byte>, i: int, lim: nat): (start: int)
    requires lim - 1 <= i < |p|
    ensures lim - 1 <= start <= i
    decreases i
  {
    if i < lim || RuneStart(p[i]) then i else ScanBack(p, i - 1, lim)
  }

  /** utf8.DecodeLastRune: the size of the last rune; None stands for (RuneError, 1). */
  function DecodeLast(p: seq<byte>): Option<nat>
    requires p != []
  {
    var end := |p|;
    if p[end - 1] < 0x80 then Some(1)
    else
      var lim := if end < 4 then 0 else end - 4;
      var start := ScanBack(p, end - 2, lim);
      var from := if start < 0 then 0 else start;
      match Decode(p[from..])
      case None => None
      case Some(size) => if from + size != end then None else Some(size)
  }

  // ---------------------------------------------------------------- truncateUTF8

  /** At most `tries` more bytes are dropped. */
  function Trimmed(b: seq<byte>, tries: nat): seq<byte>
  {
    if tries == 0 || b == [] || DecodeLast(b).Some? then b else Trimmed(b[..|b| - 1], tries - 1)
  }

  function Truncated(b: seq<byte>, max: nat): seq<byte>
  {
    if |b| <= max then b else Trimmed(b[..max], 3)
  }

  method TruncateUtf8(b: seq<byte>, max: nat) returns (r: seq<byte>)
    ensures r == Truncated(b, max)
    ensures r <= b && |r| <= max && (|b| <= max ==> r == b)
    ensures |b| > max ==> |r| >= max - 3
  {
    if |b| <= max { return b; }
    hide DecodeLast;
    r := b[..max];
    for i := 0 to 3
      invariant r <= b && max - i <= |r| <= max
      invariant Truncated(b, max) == Trimmed(r, 3 - i)
    {
      if r == [] { break; }
      if DecodeLast(r).Some? { break; }
      r := r[..|r| - 1];
    }
  }

  // ---------------------------------------------------------------- the decoder and the standard

  /** The decoder accepts exactly the well-formed encodings. */
  lemma {:induction false} DecodeIsExact(p: seq<byte>, n: nat)
    requires p != [] && n <= |p|
    ensures Decode(p) == Some(n) <==> IsRune(p[..n])
  {
  }

  lemma {:induction false} DecodeWhole(r: seq<byte>, rest: seq<byte>)
    requires IsRune(r)
    ensures Decode(r + rest) == Some(|r|)
  {
    assert (r + rest)[..|r|] == r;
    DecodeIsExact(r + rest, |r|);
  }

  lemma {:induction false} DecodePart(r: seq<byte>, n: nat)
    requires IsRune(r) && 0 < n < |r|
    ensures Decode(r[..n]) == None
  {
  }

  lemma {:induction false} RuneShape(r: seq<byte>)
    requires IsRune(r)
    ensures 1 <= |r| <= 4 && RuneStart(r[0]) && forall i :: 0 < i < |r| ==> IsTail(r[i])
    ensures |r| == 1 <==> r[0] < 0x80
  {
  }

  /** Scanning back over continuation bytes stops at the rune start before them. */
  lemma {:induction false} ScanFinds(p: seq<byte>, i: int, lim: nat, at: nat)
    requires lim <= at <= i < |p| && RuneStart(p[at]) && forall j :: at < j <= i ==> IsTail(p[j])
    ensures ScanBack(p, i, lim) == at
    decreases i
  {
    if i > at { ScanFinds(p, i - 1, lim, at); }
  }

  lemma {:induction false} ScanMisses(p: seq<byte>, i: int, lim: nat)
    requires lim - 1 <= i < |p| && forall j :: lim <= j <= i ==> IsTail(p[j])
    ensures ScanBack(p, i, lim) == lim - 1
    decreases i
  {
    if i >= lim { ScanMisses(p, i - 1, lim); }
  }

  /** A continuation byte at the end sends the decoder back to the rune start before it. */
  lemma {:induction false} LastFrom(a: seq<byte>, q: seq<byte>)
    requires 2 <= |q| <= 4 && RuneStart(q[0]) && forall j :: 0 < j < |q| ==> IsTail(q[j])
    ensures DecodeLast(a + q) == if Decode(q) == Some(|q|) then Some(|q|) else None
  {
    var p := a + q;
    hide Decode, ScanBack;
    assert p[|a|] == q[0];
    forall j | |a| < j < |p| ensures IsTail(p[j]) { assert p[j] == q[j - |a|]; }
    ScanFinds(p, |p| - 2, if |p| < 4 then 0 else |p| - 4, |a|);
    assert p[|a|..] == q;
  }

  /** A text that ends with a whole rune decodes backwards. */
  lemma {:induction false} LastWhole(a: seq<byte>, r: seq<byte>)
    requires IsRune(r)
    ensures DecodeLast(a + r) == Some(|r|)
  {
    RuneShape(r);
    if |r| == 1 {
      hide Decode, ScanBack, IsRune;
      assert (a + r)[|a|] == r[0];
    } else {
      hide *;
      DecodeWhole(r, []);
      assert r + [] == r;
      LastFrom(a, r);
    }
  }

  /** Two or three bytes of a longer rune at the end do not. */
  lemma {:induction false} LastPart(a: seq<byte>, r: seq<byte>, n: nat)
    requires IsRune(r) && 2 <= n < |r|
    ensures DecodeLast(a + r[..n]) == None
  {
    hide *;
    RuneShape(r);
    LastFrom(a, r[..n]);
    DecodePart(r, n);
  }

  /** Nor does a lone leading byte, after nothing ... */
  lemma {:induction false} LoneLead(r: seq<byte>)
    requires IsRune(r) && |r| > 1
    ensures DecodeLast(r[..1]) == None
  {
    RuneShape(r);
    var p := r[..1];
    assert p[0..] == p;
    DecodePart(r, 1);
  }

  /** ... or after a whole rune. */
  lemma {:induction false} LeadAfterRune(a: seq<byte>, q: seq<byte>, r: seq<byte>)
    requires IsRune(q) && IsRune(r) && |r| > 1
    ensures DecodeLast(a + q + r[..1]) == None
  {
    hide Decode, ScanBack, IsRune;
    RuneShape(q);
    RuneShape(r);
    var p := a + q + r[..1];
    var end, lim := |p|, if |p| < 4 then 0 else |p| - 4;
    assert p[end - 1] == r[0];
    assert forall j :: |a| <= j < end - 1 ==> p[j] == q[j - |a|];
    if |q| < 4 { ScanFinds(p, end - 2, lim, |a|); } else { ScanMisses(p, end - 2, lim); }
    assert p[|a|..] == q + r[..1];
    DecodeWhole(q, r[..1]);
  }

  /** A cut inside a rune is noticed, wherever it is. */
  lemma {:induction false} PartIsNoticed(runes: seq<seq<byte>>, r: seq<byte>, n: nat)
    requires AreRunes(runes) && IsRune(r) && 0 < n < |r|
    ensures DecodeLast(Bytes(runes) + r[..n]) == None
  {
    hide DecodeLast, IsRune;
    if n >= 2 {
      LastPart(Bytes(runes), r, n);
    } else if runes == [] {
      assert Bytes(runes) + r[..1] == r[..1];
      LoneLead(r);
    } else {
      var k := |runes| - 1;
      LeadAfterRune(Bytes(runes[..k]), runes[k], r);
    }
  }

  /** Each dropped byte belongs to the cut rune; dropping stops at its beginning. */
  lemma {:induction false} TrimStops(runes: seq<seq<byte>>, r: seq<byte>, n: nat, tries: nat)
    requires AreRunes(runes) && IsRune(r) && n < |r| && n <= tries
    ensures Trimmed(Bytes(runes) + r[..n], tries) == Bytes(runes)
    decreases n
  {
    hide DecodeLast, IsRune;
    var b := Bytes(runes);
    if n > 0 {
      PartIsNoticed(runes, r, n);
      assert (b + r[..n])[..|b| + n - 1] == b + r[..n - 1];
      TrimStops(runes, r, n - 1, tries - 1);
    } else {
      assert b + r[..0] == b;
      if runes != [] { LastWhole(Bytes(runes[..|runes| - 1]), runes[|runes| - 1]); }
    }
  }

  // ---------------------------------------------------------------- the longest whole-rune prefix

  lemma {:induction false} BytesSplit(runes: seq<seq<byte>>, k: nat)
    requires k < |runes|
    ensures Bytes(runes[..k]) + runes[k] <= Bytes(runes)
    ensures Bytes(runes[..k + 1]) == Bytes(runes[..k]) + runes[k]
    decreases |runes|
  {
    assert runes[..k + 1][..k] == runes[..k];
    var n := |runes| - 1;
    if k < n {
      assert runes[..n][..k] == runes[..k];
      BytesSplit(runes[..n], k);
    }
  }

  /** How many whole runes fit. */
  function Fitting(runes: seq<seq<byte>>, max: nat): (k: nat)
    ensures k <= |runes| && |Bytes(runes[..k])| <= max
    ensures k < |runes| ==> |Bytes(runes[..k + 1])| > max
    decreases |runes|
  {
    assert runes[..|runes|] == runes;
    if |Bytes(runes)| <= max then |runes|
    else
      var n := |runes| - 1;
      var k := Fitting(runes[..n], max);
      assert runes[..n][..k] == runes[..k] && (k < n ==> runes[..n][..k + 1] == runes[..k + 1]);
      assert k == n ==> runes[..k + 1] == runes;
      k
  }

  /** For every text and every limit: exactly the longest prefix of whole runes that fits. */
  lemma {:induction false} TruncatesToWholeRunes(runes: seq<seq<byte>>, max: nat)
    requires AreRunes(runes)
    ensures var k := Fitting(runes, max);
            && Truncated(Bytes(runes), max) == Bytes(runes[..k])
            && |Bytes(runes[..k])| <= max
            && (k < |runes| ==> |Bytes(runes[..k + 1])| > max)
  {
    var b, k := Bytes(runes), Fitting(runes, max);
    if |b| <= max {
      assert runes[..|runes|] == runes && k == |runes|;
    } else {
      assert k < |runes| by { assert runes[..|runes|] == runes; }
      BytesSplit(runes, k);
      RuneShape(runes[k]);
      var n := max - |Bytes(runes[..k])|;
      assert b[..max] == Bytes(runes[..k]) + runes[k][..n];
      TrimStops(runes[..k], runes[k], n, 3);
    }
  }
}
