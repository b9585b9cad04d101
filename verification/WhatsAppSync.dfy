/**
Syncing a WhatsApp export: a cursor pins the messages already imported, an
incremental pass emits only what was appended, and ids do not depend on position.
*/
module WhatsAppSync {
  import opened Common
  import opened WhatsAppParse
  import Strings

  /** SHA-256, free of collisions. */
  datatype Digest = Sha(input: string)

  /** The digest's hex form, with ":<occurrence>" appended from the second duplicate on. */
  datatype NativeId = NativeId(digest: Digest, occurrence: nat)

  function Hashed(chat: string, m: Message): string { chat + "|" + (m.raw + "|" + (m.sender + "|" + m.text)) }

  function Native(chat: string, m: Message): NativeId { NativeId(Sha(Hashed(chat, m)), m.occurrence) }

  function Etag(m: Message): Digest { Sha(m.sender + "\0" + (m.raw + "\0" + m.text)) }

  /** What toDocument derives from a message. */
  datatype Document = Document(native: NativeId, etag: Digest, chat: string, message: Message)

  function ToDocument(chat: string, m: Message): Document { Document(Native(chat, m), Etag(m), chat, m) }

  function Docs(chat: string, msgs: seq<Message>): (ds: seq<Document>)
    ensures |ds| == |msgs| && forall i :: 0 <= i < |ds| ==> ds[i] == ToDocument(chat, msgs[i])
  {
    seq(|msgs|, i requires 0 <= i < |msgs| => ToDocument(chat, msgs[i]))
  }

  function Etags(msgs: seq<Message>): (es: seq<Digest>)
    ensures |es| == |msgs| && forall i :: 0 <= i < |es| ==> es[i] == Etag(msgs[i])
  {
    seq(|msgs|, i requires 0 <= i < |msgs| => Etag(msgs[i]))
  }

  /**
   * A decoded cursor; the prefix hash stands for the etags it was computed from.
   * Malformed is a string that parseCursor rejects.
   */
  datatype Cursor = Start | Malformed | Pinned(count: nat, prefix: seq<Digest>)

  function CursorFor(msgs: seq<Message>): Cursor { Pinned(|msgs|, Etags(msgs)) }

  method MakeCursor(msgs: seq<Message>, n: nat) returns (cur: Cursor)
    ensures cur == CursorFor(msgs[..if n > |msgs| then |msgs| else n])
  {
    var m := if n > |msgs| then |msgs| else n;
    var hash: seq<Digest> := [];
    for i := 0 to m
      invariant hash == Etags(msgs[..i])
    {
      assert Etags(msgs[..i + 1]) == Etags(msgs[..i]) + [Etag(msgs[i])];
      hash := hash + [Etag(msgs[i])];
    }
    cur := Pinned(m, hash);
  }

  datatype Outcome = Synced(cursor: Cursor) | Expired | Failed

  /** The cursor still describes the beginning of the export. */
  predicate Resumable(cur: Cursor, msgs: seq<Message>)
  {
    match cur
    case Start => true
    case Malformed => false
    case Pinned(n, prefix) => n <= |msgs| && (n > 0 ==> Etags(msgs[..n]) == prefix)
  }

  /** `k` is where emitting the messages from `from` on stops: at the first whose emission fails, or at the end. */
  predicate StopsAt(fails: nat -> bool, from: nat, n: nat, k: nat)
  {
    from <= k <= n && (forall i :: from <= i < k ==> !fails(i)) && (k < n ==> fails(k))
  }

  /** emitRange. */
  method EmitRange(chat: string, msgs: seq<Message>, from: nat, fails: nat -> bool) returns (ok: bool, docs: seq<Document>)
    requires from <= |msgs|
    ensures forall k: nat :: StopsAt(fails, from, |msgs|, k) ==> docs == Docs(chat, msgs[from..k]) && (ok <==> k == |msgs|)
  {
    docs := [];
    for i := from to |msgs|
      invariant docs == Docs(chat, msgs[from..i])
      invariant forall j :: from <= j < i ==> !fails(j)
    {
      if fails(i) { return false, docs; }
      assert msgs[from..i + 1] == msgs[from..i] + [msgs[i]];
      assert Docs(chat, msgs[from..i + 1]) == Docs(chat, msgs[from..i]) + [ToDocument(chat, msgs[i])];
      docs := docs + [ToDocument(chat, msgs[i])];
    }
    ok := true;
  }

  /** Emission always stops somewhere. */
  lemma {:induction false} Stops(fails: nat -> bool, from: nat, n: nat) returns (k: nat)
    requires from <= n
    ensures StopsAt(fails, from, n, k)
    decreases n - from
  {
    k := from;
    if from < n && !fails(from) { k := Stops(fails, from + 1, n); }
  }

  /** What a sync from message `from` on gives: all the rest and the new cursor, or what came before the failing call. */
  predicate IsSync(chat: string, msgs: seq<Message>, from: nat, fails: nat -> bool, saveFails: bool, out: Outcome, docs: seq<Document>, k: nat)
    requires from <= |msgs|
  {
    && StopsAt(fails, from, |msgs|, k) && docs == Docs(chat, msgs[from..k])
    && out == if k == |msgs| && !saveFails then Synced(CursorFor(msgs)) else Failed
  }

  method FullSync(chat: string, body: string, clock: Clock, fails: nat -> bool, saveFails: bool) returns (out: Outcome, docs: seq<Document>)
    ensures exists k: nat :: IsSync(chat, Parsed(body, clock), 0, fails, saveFails, out, docs, k)
  {
    var msgs := ParseExport(body, clock);
    hide Parsed;
    ghost var k := Stops(fails, 0, |msgs|);
    assert msgs[..|msgs|] == msgs;
    var ok;
    ok, docs := EmitRange(chat, msgs, 0, fails);
    if !ok {
      out := Failed;
    } else {
      var cur := MakeCursor(msgs, |msgs|);
      out := if saveFails then Failed else Synced(cur);
    }
    assert IsSync(chat, msgs, 0, fails, saveFails, out, docs, k);
  }

  method IncrementalSync(chat: string, cur: Cursor, body: string, clock: Clock, fails: nat -> bool) returns (out: Outcome, docs: seq<Document>)
    ensures var msgs, count := Parsed(body, clock), if cur.Pinned? then cur.count else 0;
            if !Resumable(cur, msgs) then out.Expired? && docs == []
            else if |msgs| == count then out == Synced(cur) && docs == []
            else exists k: nat :: IsSync(chat, msgs, count, fails, false, out, docs, k)
  {
    if cur.Malformed? { return Expired, []; }
    var msgs := ParseExport(body, clock);
    hide Parsed;
    var count := if cur.Pinned? then cur.count else 0;
    if |msgs| < count { return Expired, []; }
    if count > 0 {
      var now := MakeCursor(msgs, count);
      if now.prefix != cur.prefix { return Expired, []; }
    }
    if |msgs| == count { return Synced(cur), []; }
    ghost var k := Stops(fails, count, |msgs|);
    var ok;
    ok, docs := EmitRange(chat, msgs, count, fails);
    assert msgs[..|msgs|] == msgs;
    var next := MakeCursor(msgs, |msgs|);
    out := if ok then Synced(next) else Failed;
    assert IsSync(chat, msgs, count, fails, false, out, docs, k);
  }

  // ---------------------------------------------------------------- what the cursor notices

  /** Sender, timestamp and text. */
  predicate SameContent(a: Message, b: Message) { a.sender == b.sender && a.raw == b.raw && a.text == b.text }

  predicate Free(c: char, m: Message) { c !in m.sender && c !in m.raw }

  /** Two strings cut at the first `c` agree as soon as the whole does. */
  lemma {:induction false} CutUnique(a: string, x: string, b: string, y: string, c: char)
    requires c !in a && c !in b && a + [c] + x == b + [c] + y
    ensures a == b && x == y
  {
    Strings.CutAfterCleanHead(a, [c], x);
    Strings.CutAfterCleanHead(b, [c], y);
    var s, t := a + [c] + x, b + [c] + y;
    assert a == s[..|a|] && b == t[..|b|];
    assert x == s[|a| + 1..] && y == t[|b| + 1..];
  }

  /** An etag determines what the message says. */
  lemma {:induction false} EtagTells(a: Message, b: Message)
    requires Free('\0', a) && Free('\0', b)
    ensures Etag(a) == Etag(b) <==> SameContent(a, b)
  {
    if Etag(a) == Etag(b) {
      CutUnique(a.sender, a.raw + "\0" + a.text, b.sender, b.raw + "\0" + b.text, '\0');
      CutUnique(a.raw, a.text, b.raw, b.text, '\0');
    }
  }

  predicate AllFree(c: char, msgs: seq<Message>) { forall i :: 0 <= i < |msgs| ==> Free(c, msgs[i]) }

  predicate ContentPrefix(was: seq<Message>, msgs: seq<Message>)
  {
    |was| <= |msgs| && forall i :: 0 <= i < |was| ==> SameContent(was[i], msgs[i])
  }

  /** The cursor of an import is reported expired exactly when a message of it was changed, removed or moved. */
  lemma {:induction false} ExpiredExactly(was: seq<Message>, msgs: seq<Message>)
    requires AllFree('\0', was) && AllFree('\0', msgs)
    ensures Resumable(CursorFor(was), msgs) <==> ContentPrefix(was, msgs)
    ensures Resumable(Start, msgs) && !Resumable(Malformed, msgs)
  {
    hide Etag, SameContent, Free;
    if |was| <= |msgs| {
      var e := Etags(msgs[..|was|]);
      forall i | 0 <= i < |was| ensures e[i] == Etags(was)[i] <==> SameContent(was[i], msgs[i]) { EtagTells(was[i], msgs[i]); }
      if ContentPrefix(was, msgs) { assert e == Etags(was); }
    }
  }

  // ---------------------------------------------------------------- incremental equals full

  function Ids(ds: seq<Document>): (ids: seq<NativeId>)
    ensures |ids| == |ds| && forall i :: 0 <= i < |ds| ==> ids[i] == ds[i].native
  {
    seq(|ds|, i requires 0 <= i < |ds| => ds[i].native)
  }

  /** A list as parseExport returns it: every message numbered by its earlier duplicates. */
  predicate IsNumbered(msgs: seq<Message>) { Numbered(msgs) == msgs }

  lemma {:induction false} CountSame(a: seq<Message>, b: seq<Message>, key: string)
    requires |a| == |b| && forall i :: 0 <= i < |a| ==> SameContent(a[i], b[i])
    ensures Count(a, key) == Count(b, key)
  {
    if a != [] { CountSame(a[..|a| - 1], b[..|b| - 1], key); }
  }

  lemma {:induction false} NumberedAgain(msgs: seq<Message>)
    ensures IsNumbered(Numbered(msgs))
  {
    var r := Numbered(msgs);
    hide Numbered, Count;
    assert |Numbered(r)| == |r|;
    forall i | 0 <= i < |r| ensures Numbered(r)[i] == r[i] { CountSame(msgs[..i], r[..i], IdentityKey(msgs[i])); }
  }

  /** Equal content gives equal ids: the numbering only looks at what came before. */
  lemma {:induction false} SameIds(chat: string, was: seq<Message>, msgs: seq<Message>, i: nat)
    requires IsNumbered(was) && IsNumbered(msgs) && ContentPrefix(was, msgs) && i < |was|
    ensures Native(chat, was[i]) == Native(chat, msgs[i]) && Etag(was[i]) == Etag(msgs[i])
  {
    hide Count;
    assert was[i].occurrence == Count(was[..i], IdentityKey(was[i])) by { assert Numbered(was)[i] == was[i]; }
    assert msgs[i].occurrence == Count(msgs[..i], IdentityKey(msgs[i])) by { assert Numbered(msgs)[i] == msgs[i]; }
    assert SameContent(was[i], msgs[i]);
    CountSame(was[..i], msgs[..i], IdentityKey(was[i]));
  }

  /**
   * Whenever an incremental pass does not report expiry, importing the old
   * export and then the difference yields the ids, in order, and the cursor of
   * one full import of the new export.
   */
  lemma {:induction false} ResumedEqualsFull(chat: string, was: seq<Message>, msgs: seq<Message>)
    requires IsNumbered(was) && IsNumbered(msgs) && AllFree('\0', was) && AllFree('\0', msgs)
    requires Resumable(CursorFor(was), msgs)
    ensures Ids(Docs(chat, was) + Docs(chat, msgs[|was|..])) == Ids(Docs(chat, msgs))
    ensures |msgs| == |was| ==> CursorFor(was) == CursorFor(msgs)
  {
    ExpiredExactly(was, msgs);
    hide Etag, Native, IsNumbered, AllFree, Resumable;
    var both := Docs(chat, was) + Docs(chat, msgs[|was|..]);
    forall i | 0 <= i < |msgs| ensures both[i].native == Docs(chat, msgs)[i].native && (i < |was| ==> Etag(was[i]) == Etag(msgs[i])) {
      if i < |was| { SameIds(chat, was, msgs, i); }
    }
    if |msgs| == |was| { assert Etags(was) == Etags(msgs); }
  }

  /** For an export that was only appended to, the documents themselves are the same. */
  lemma {:induction false} AppendEqualsFull(chat: string, body: string, more: string, clock: Clock)
    requires EndsLine(body) && StartsWithHeader(more, clock)
    ensures var was, msgs := Parsed(body, clock), Parsed(body + more, clock);
            && Resumable(CursorFor(was), msgs)
            && |was| < |msgs|
            && Docs(chat, was) + Docs(chat, msgs[|was|..]) == Docs(chat, msgs)
  {
    hide *;
    AppendKeepsMessages(body, more, clock);
    PrefixResumes(chat, Parsed(body, clock), Parsed(body + more, clock));
  }

  lemma {:induction false} PrefixResumes(chat: string, was: seq<Message>, msgs: seq<Message>)
    requires was <= msgs
    ensures Resumable(CursorFor(was), msgs) && Docs(chat, was) + Docs(chat, msgs[|was|..]) == Docs(chat, msgs)
  {
    hide ToDocument, Etag;
    assert msgs[..|was|] == was;
    forall i | |was| <= i < |msgs| ensures Docs(chat, msgs[|was|..])[i - |was|] == Docs(chat, msgs)[i] { }
  }

  // ---------------------------------------------------------------- ids

  lemma {:induction false} CountGrows(msgs: seq<Message>, i: nat, j: nat)
    requires i < j <= |msgs|
    ensures Count(msgs[..i], IdentityKey(msgs[i])) < Count(msgs[..j], IdentityKey(msgs[i]))
    decreases j
  {
    hide IdentityKey;
    CountOne(msgs, j - 1);
    if i < j - 1 { CountGrows(msgs, i, j - 1); }
  }

  predicate BarFreeStamps(msgs: seq<Message>) { forall i :: 0 <= i < |msgs| ==> '|' !in msgs[i].raw }

  /** The sender of `a` goes on where the sender of `b` ends and its text begins. */
  predicate Shifted(a: Message, b: Message)
  {
    && a.raw == b.raw && a.occurrence == b.occurrence
    && b.sender + "|" <= a.sender && b.text == a.sender[|b.sender| + 1..] + "|" + a.text
  }

  /** Two ways to cut one string at a bar: the same, or one cut lies inside the other's head. */
  lemma {:induction false} TwoCuts(a: string, x: string, b: string, y: string)
    requires a + "|" + x == b + "|" + y && |a| >= |b|
    ensures (a == b && x == y) || (b + "|" <= a && y == a[|b| + 1..] + "|" + x)
  {
    var s := a + "|" + x;
    assert s[..|a|] == a && s[..|b|] == b && s[|b|] == '|';
    assert s[|a| + 1..] == x && s[|b| + 1..] == y;
    if |a| > |b| {
      assert a[..|b| + 1] == s[..|b| + 1] == b + "|";
      assert y == s[|b| + 1..|a|] + s[|a|..];
      assert s[|b| + 1..|a|] == a[|b| + 1..] && s[|a|..] == "|" + x;
    }
  }

  lemma {:induction false} HashIsTail(chat: string, a: Message, b: Message)
    requires '|' !in a.raw && '|' !in b.raw
    ensures Hashed(chat, a) == Hashed(chat, b) <==> a.raw == b.raw && a.sender + "|" + a.text == b.sender + "|" + b.text
  {
    if Hashed(chat, a) == Hashed(chat, b) {
      var x, y := a.raw + "|" + (a.sender + "|" + a.text), b.raw + "|" + (b.sender + "|" + b.text);
      var s, t := chat + "|" + x, chat + "|" + y;
      assert x == s[|chat| + 1..] && y == t[|chat| + 1..];
      CutUnique(a.raw, a.sender + "|" + a.text, b.raw, b.sender + "|" + b.text, '|');
    }
  }

  lemma {:induction false} ShiftedHashes(chat: string, a: Message, b: Message)
    requires Shifted(a, b)
    ensures Native(chat, a) == Native(chat, b)
  {
    var mid := a.sender[|b.sender| + 1..];
    assert a.sender == b.sender + "|" + mid;
    assert a.sender + "|" + a.text == b.sender + "|" + (mid + "|" + a.text);
  }

  lemma {:induction false} DuplicatesAreNumbered(msgs: seq<Message>, i: nat, j: nat)
    requires IsNumbered(msgs) && i < j < |msgs| && SameContent(msgs[i], msgs[j])
    ensures msgs[i].occurrence != msgs[j].occurrence
  {
    hide Count;
    assert msgs[i].occurrence == Count(msgs[..i], IdentityKey(msgs[i])) by { assert Numbered(msgs)[i] == msgs[i]; }
    assert msgs[j].occurrence == Count(msgs[..j], IdentityKey(msgs[j])) by { assert Numbered(msgs)[j] == msgs[j]; }
    CountGrows(msgs, i, j);
  }

  /** Exactly which two messages of an export share an id: never exact duplicates, only a sender cut at a bar. */
  lemma {:induction false} IdsCollideExactly(chat: string, msgs: seq<Message>, i: nat, j: nat)
    requires IsNumbered(msgs) && BarFreeStamps(msgs) && i < j < |msgs|
    ensures Native(chat, msgs[i]) == Native(chat, msgs[j]) <==> Shifted(msgs[i], msgs[j]) || Shifted(msgs[j], msgs[i])
  {
    var a, b := msgs[i], msgs[j];
    HashIsTail(chat, a, b);
    if Shifted(a, b) { ShiftedHashes(chat, a, b); }
    if Shifted(b, a) { ShiftedHashes(chat, b, a); }
    hide Hashed, IsNumbered;
    if Native(chat, a) == Native(chat, b) {
      if |a.sender| >= |b.sender| {
        TwoCuts(a.sender, a.text, b.sender, b.text);
      } else {
        TwoCuts(b.sender, b.text, a.sender, a.text);
      }
      if SameContent(a, b) { DuplicatesAreNumbered(msgs, i, j); }
    }
  }

  /** All messages of one list have distinct ids when no sender contains the separator. */
  lemma {:induction false} IdsAreUnique(chat: string, msgs: seq<Message>, i: nat, j: nat)
    requires IsNumbered(msgs) && AllFree('|', msgs) && i < j < |msgs|
    ensures Native(chat, msgs[i]) != Native(chat, msgs[j])
  {
    IdsCollideExactly(chat, msgs, i, j);
    hide Native, IsNumbered;
    assert Free('|', msgs[i]) && Free('|', msgs[j]);
    BarInside(msgs[i].sender, msgs[j].sender);
    BarInside(msgs[j].sender, msgs[i].sender);
  }

  lemma {:induction false} BarInside(a: string, b: string)
    ensures b + "|" <= a ==> '|' in a
  {
    if b + "|" <= a { assert a[|b|] == (b + "|")[|b|]; }
  }

  lemma {:induction false} CountConcat(a: seq<Message>, b: seq<Message>, key: string)
    ensures Count(a + b, key) == Count(a, key) + Count(b, key)
    decreases |b|
  {
    hide IdentityKey;
    if b == [] {
      assert a + b == a;
    } else {
      var n := |b| - 1;
      assert (a + b)[..|a| + n] == a + b[..n];
      CountConcat(a, b[..n], key);
    }
  }

  /**
   * Inserting (or, read the other way, deleting) a message anywhere leaves the
   * id of every message with another identity alone.
   */
  lemma {:induction false} IdsAreStable(chat: string, a: seq<Message>, m: Message, b: seq<Message>, i: nat)
    requires i < |a| + |b| && IdentityKey((a + b)[i]) != IdentityKey(m)
    ensures Native(chat, Numbered(a + b)[i]) == Native(chat, Numbered(a + [m] + b)[if i < |a| then i else i + 1])
  {
    var shorter, longer, j := a + b, a + [m] + b, if i < |a| then i else i + 1;
    assert longer[j] == shorter[i];
    var key := IdentityKey(shorter[i]);
    assert Count(longer[..j], key) == Count(shorter[..i], key) by {
      hide IdentityKey;
      if i < |a| {
        assert longer[..j] == shorter[..i];
      } else {
        var rest := b[..i - |a|];
        assert longer[..j] == a + [m] + rest && shorter[..i] == a + rest;
        CountConcat(a, rest, key);
        CountConcat(a + [m], rest, key);
        assert (a + [m])[..|a|] == a;
      }
    }
    hide Count, IdentityKey;
    assert Numbered(longer)[j].occurrence == Numbered(shorter)[i].occurrence;
  }

  // ---------------------------------------------------------------- whole exports

  /** No time layout accepts a stamp containing `c`. */
  ghost predicate NoStampHas(c: char, clock: Clock)
  {
    forall s :: clock.bracket(s).Some? || clock.dash(s).Some? ==> c !in s
  }

  lemma {:induction false} HeaderRawIsStamp(c: char, clock: Clock, raw: string)
    requires NoStampHas(c, clock) && HeaderOf(raw, clock).Some?
    ensures c !in HeaderOf(raw, clock).value.raw
  {
  }

  lemma {:induction false} RawsAreStamps(c: char, clock: Clock, msgs: seq<Message>, lines: seq<string>)
    requires NoStampHas(c, clock) && forall m :: m in msgs ==> c !in m.raw
    ensures forall m :: m in OnLines(msgs, lines, clock) ==> c !in m.raw
    decreases |lines|
  {
    hide HeaderOf, NoStampHas;
    if lines != [] {
      if HeaderOf(lines[0], clock).Some? { HeaderRawIsStamp(c, clock, lines[0]); }
      var next := OnLine(msgs, lines[0], clock);
      forall m | m in next ensures c !in m.raw {
        var i :| 0 <= i < |next| && next[i] == m;
        assert i < |msgs| ==> msgs[i] in msgs && m.raw == msgs[i].raw;
      }
      RawsAreStamps(c, clock, next, lines[1..]);
    }
  }

  predicate SendersLack(c: char, msgs: seq<Message>) { forall i :: 0 <= i < |msgs| ==> c !in msgs[i].sender }

  /** Stamps of an export never contain what no layout accepts; its messages are numbered. */
  lemma {:induction false} ParsedStamps(c: char, body: string, clock: Clock)
    requires NoStampHas(c, clock)
    ensures IsNumbered(Parsed(body, clock)) && forall i :: 0 <= i < |Parsed(body, clock)| ==> c !in Parsed(body, clock)[i].raw
  {
    var msgs := OnLines([], Lines(body), clock);
    RawsAreStamps(c, clock, [], Lines(body));
    NumberedAgain(msgs);
    hide Lines, OnLines, NoStampHas, Count, IdentityKey;
    forall i | 0 <= i < |msgs| ensures c !in Parsed(body, clock)[i].raw { assert msgs[i] in msgs; }
  }

  lemma {:induction false} ParsedIsFree(c: char, body: string, clock: Clock)
    requires NoStampHas(c, clock) && SendersLack(c, Parsed(body, clock))
    ensures AllFree(c, Parsed(body, clock)) && IsNumbered(Parsed(body, clock))
  {
    ParsedStamps(c, body, clock);
    hide Parsed, IsNumbered, NoStampHas;
  }

  /** Exactly which two messages of an export share an id. */
  lemma {:induction false} ExportIdsCollideExactly(chat: string, body: string, clock: Clock, i: nat, j: nat)
    requires NoStampHas('|', clock) && i < j < |Parsed(body, clock)|
    ensures var msgs := Parsed(body, clock);
            Native(chat, msgs[i]) == Native(chat, msgs[j]) <==> Shifted(msgs[i], msgs[j]) || Shifted(msgs[j], msgs[i])
  {
    ParsedStamps('|', body, clock);
    hide Parsed, Native, IsNumbered, Shifted, NoStampHas;
    IdsCollideExactly(chat, Parsed(body, clock), i, j);
  }

  /** Hence all messages of an export get distinct ids when no sender contains '|'. */
  lemma {:induction false} ExportIdsAreUnique(chat: string, body: string, clock: Clock, i: nat, j: nat)
    requires NoStampHas('|', clock) && SendersLack('|', Parsed(body, clock)) && i < j < |Parsed(body, clock)|
    ensures Native(chat, Parsed(body, clock)[i]) != Native(chat, Parsed(body, clock)[j])
  {
    ParsedIsFree('|', body, clock);
    hide Parsed, Native, IsNumbered, AllFree;
    IdsAreUnique(chat, Parsed(body, clock), i, j);
  }

  /**
   * Any later export against the cursor of an earlier one: expired exactly when
   * the earlier messages are no longer its beginning, and otherwise the two
   * passes together emit the ids and end at the cursor of one full import.
   */
  lemma {:induction false} ReimportIsExact(chat: string, body: string, later: string, clock: Clock)
    requires NoStampHas('\0', clock) && SendersLack('\0', Parsed(body, clock)) && SendersLack('\0', Parsed(later, clock))
    ensures var was, msgs := Parsed(body, clock), Parsed(later, clock);
            && (Resumable(CursorFor(was), msgs) <==> ContentPrefix(was, msgs))
            && (Resumable(CursorFor(was), msgs) ==>
                  && Ids(Docs(chat, was) + Docs(chat, msgs[|was|..])) == Ids(Docs(chat, msgs))
                  && (|msgs| == |was| ==> CursorFor(was) == CursorFor(msgs)))
  {
    ParsedIsFree('\0', body, clock);
    ParsedIsFree('\0', later, clock);
    var was, msgs := Parsed(body, clock), Parsed(later, clock);
    hide Parsed, IsNumbered, AllFree, ContentPrefix, CursorFor, Ids, Docs, NoStampHas;
    ExpiredExactly(was, msgs);
    if Resumable(CursorFor(was), msgs) { ResumedEqualsFull(chat, was, msgs); }
  }
}
