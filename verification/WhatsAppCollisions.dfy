/**
Exports on which document ids collide: written out as files, read by the
parser.  Within one chat a bar in a sender is enough; between two chats, a bar
in a chat's name.
*/
module WhatsAppCollisions {
  import opened Common
  import opened WhatsAppParse
  import opened WhatsAppSync
  import opened WhatsAppRoundTrip
  import Strings

  // ---------------------------------------------------------------- exports of one or two lines

  /** A message by `sender` under a stamp in brackets. */
  function Line(stamp: string, sender: string, text: string): string { "[" + stamp + "] " + (sender + ": " + text) }

  function Said1(stamp: string, sender: string, text: string): Item { Said(Bracket, stamp, sender, text, []) }

  ghost predicate Printable(stamp: string, sender: string, text: string, clock: Clock) { Good(Said1(stamp, sender, text), clock) }

  ghost function Read(stamp: string, sender: string, text: string, clock: Clock, n: nat): Message
    requires Printable(stamp, sender, text, clock)
  {
    Message(sender, text, clock.bracket(stamp).value, stamp, n, 0, false, "bracket")
  }

  lemma {:induction false} PlainIsMarked(s: string)
    requires Plain(s)
    ensures Marked(s, s)
  {
    if s != "" { PlainIsMarked(s[1..]); }
  }

  /** The line is a printing of the message. */
  lemma {:induction false} LineIsPrinted(stamp: string, sender: string, text: string, clock: Clock, n: nat)
    requires Printable(stamp, sender, text, clock)
    ensures IsPrinted([Line(stamp, sender, text)], Said1(stamp, sender, text))
    ensures Expected(Said1(stamp, sender, text), n, clock) == Read(stamp, sender, text, clock, n)
  {
    var line := Line(stamp, sender, text);
    assert Plain(line);
    PlainIsMarked(line);
    hide Marked, Lacks;
    assert [text] + [] == [text];
  }

  lemma {:induction false} OneMessageIsRead(stamp: string, sender: string, text: string, clock: Clock)
    requires Printable(stamp, sender, text, clock)
    ensures Parsed(Line(stamp, sender, text) + "\n", clock) == [Read(stamp, sender, text, clock, 0)]
  {
    var it, line := Said1(stamp, sender, text), Line(stamp, sender, text);
    LineIsPrinted(stamp, sender, text, clock, 0);
    hide Printable, Line, Said1, Good, Expected, IsPrinted, Parsed, Read;
    var parts := [[line]];
    assert Concat(parts[..0]) == [] && [] + Concat(parts) == [line];
    assert Body([line], "\n") == line + "\n" + Body([], "\n") == line + "\n";
    assert AllGood([it], clock) && ArePrinted(parts, [it]);
    assert Messages([it], clock) == Messages([it][..0], clock) + [Expected(it, 0, clock)];
    RoundTrip([], [it], parts, "\n", clock);
    NumberedAlone(Expected(it, 0, clock));
  }

  lemma {:induction false} TwoMessagesAreRead(stamp: string, sender: string, text: string, sender': string, text': string, clock: Clock)
    requires Printable(stamp, sender, text, clock) && Printable(stamp, sender', text', clock)
    requires sender != sender' && '\0' !in sender && '\0' !in sender'
    ensures Parsed(Line(stamp, sender, text) + "\n" + Line(stamp, sender', text') + "\n", clock)
         == [Read(stamp, sender, text, clock, 0), Read(stamp, sender', text', clock, 1)]
  {
    var a, b := Said1(stamp, sender, text), Said1(stamp, sender', text');
    var l, l' := Line(stamp, sender, text), Line(stamp, sender', text');
    LineIsPrinted(stamp, sender, text, clock, 0);
    LineIsPrinted(stamp, sender', text', clock, 1);
    KeysDiffer(Read(stamp, sender, text, clock, 0), Read(stamp, sender', text', clock, 1));
    NumberedApart(Read(stamp, sender, text, clock, 0), Read(stamp, sender', text', clock, 1));
    hide Printable, Line, Said1, Good, Expected, IsPrinted, Parsed, Read, IdentityKey;
    TwoItems(a, l, b, l', clock);
  }

  lemma {:induction false} TwoItems(a: Item, l: string, b: Item, l': string, clock: Clock)
    requires Good(a, clock) && Good(b, clock) && IsPrinted([l], a) && IsPrinted([l'], b)
    ensures Parsed(l + "\n" + l' + "\n", clock) == Numbered([Expected(a, 0, clock), Expected(b, 1, clock)])
  {
    TwoLines(l, l');
    MessagesOfTwo(a, b, clock);
    hide GoodStamp, GoodFirst, NoHeader, Expected, IsPrinted, Parsed, Numbered, Messages, Concat, Body;
    RoundTrip([], [a, b], [[l], [l']], "\n", clock);
  }

  lemma {:induction false} MessagesOfTwo(a: Item, b: Item, clock: Clock)
    requires Good(a, clock) && Good(b, clock)
    ensures AllGood([a, b], clock) && Messages([a, b], clock) == [Expected(a, 0, clock), Expected(b, 1, clock)]
  {
    hide GoodStamp, GoodFirst, GoodLines, Expected;
    assert [a, b][..1] == [a] && [a][..0] == [];
    assert AllGood([a], clock) && AllGood([], clock);
    assert Messages([a], clock) == Messages([], clock) + [Expected(a, 0, clock)];
  }

  lemma {:induction false} TwoLines(a: string, b: string)
    ensures Body([a, b], "\n") == a + "\n" + b + "\n" && [] + Concat([[a], [b]]) == [a, b]
  {
    assert [a, b][1..] == [b] && [b][1..] == [];
    assert Body([b], "\n") == b + "\n" + Body([], "\n") == b + "\n";
    assert a + "\n" + (b + "\n") == a + "\n" + b + "\n";
    assert [[a], [b]][..1] == [[a]] && [[a]][..0] == [];
    assert Concat([[a]]) == Concat([]) + [a];
  }

  lemma {:induction false} NumberedAlone(m: Message)
    requires m.occurrence == 0
    ensures Numbered([m]) == [m]
  {
    assert [m][..0] == [];
  }

  lemma {:induction false} NumberedApart(m: Message, n: Message)
    requires m.occurrence == n.occurrence == 0 && IdentityKey(m) != IdentityKey(n)
    ensures Numbered([m, n]) == [m, n]
  {
    assert [m, n][..0] == [] && [m, n][..1] == [m] && [m][..0] == [];
    assert Count([m, n][..1], IdentityKey(n)) == 0;
    hide IdentityKey, Count;
  }

  lemma {:induction false} KeysDiffer(a: Message, b: Message)
    requires a.sender != b.sender && '\0' !in a.sender && '\0' !in b.sender
    ensures IdentityKey(a) != IdentityKey(b)
  {
    if IdentityKey(a) == IdentityKey(b) {
      ConcatAssoc(a.sender + "\0", a.raw + "\0", a.text);
      ConcatAssoc(b.sender + "\0", b.raw + "\0", b.text);
      assert IdentityKey(a) == a.sender + "\0" + (a.raw + "\0" + a.text);
      assert IdentityKey(b) == b.sender + "\0" + (b.raw + "\0" + b.text);
      CutUnique(a.sender, a.raw + "\0" + a.text, b.sender, b.raw + "\0" + b.text, '\0');
    }
  }

  // ---------------------------------------------------------------- collisions

  /** In one export: "a|b" writing "t" and "a" writing "b|t" at the same minute get one id. */
  lemma {:induction false} SeparatorInSenderCollides(chat: string, stamp: string, a: string, b: string, t: string, clock: Clock)
    requires Printable(stamp, a + "|" + b, t, clock) && Printable(stamp, a, b + "|" + t, clock)
    requires '\0' !in a && '\0' !in b
    ensures var msgs := Parsed(Line(stamp, a + "|" + b, t) + "\n" + Line(stamp, a, b + "|" + t) + "\n", clock);
            && |msgs| == 2 && msgs[0].sender == a + "|" + b && msgs[1].sender == a
            && Native(chat, msgs[0]) == Native(chat, msgs[1])
  {
    hide Printable, Line, Parsed;
    TwoMessagesAreRead(stamp, a + "|" + b, t, a, b + "|" + t, clock);
    var m, n := Read(stamp, a + "|" + b, t, clock, 0), Read(stamp, a, b + "|" + t, clock, 1);
    assert (a + "|" + b)[|a| + 1..] == b;
    ShiftedHashes(chat, m, n);
  }

  /** Such an export, with the stamp of any layout. */
  lemma {:induction false} CollidingExport(chat: string, stamp: string, clock: Clock)
    requires GoodStamp(Bracket, stamp, clock)
    ensures var msgs := Parsed(Line(stamp, "a|b", "t") + "\n" + Line(stamp, "a", "b|t") + "\n", clock);
            |msgs| == 2 && msgs[0].sender == "a|b" && msgs[1].sender == "a" && Native(chat, msgs[0]) == Native(chat, msgs[1])
  {
    assert "a" + "|" + "b" == "a|b" && "b" + "|" + "t" == "b|t";
    NoColon("a|b");
    NoColon("a");
    assert Printable(stamp, "a|b", "t", clock) && Printable(stamp, "a", "b|t", clock) by { hide GoodStamp, Lacks; }
    hide Printable, Line, Parsed, Native;
    SeparatorInSenderCollides(chat, stamp, "a", "b", "t", clock);
  }

  /** The hash of one chat's message read as another's: one chat name and more of the message in the longer name. */
  predicate ChatShifted(chat: string, a: Message, longer: string, b: Message)
  {
    && a.occurrence == b.occurrence && chat + "|" <= longer
    && a.raw + "|" + (a.sender + "|" + a.text) == longer[|chat| + 1..] + "|" + (b.raw + "|" + (b.sender + "|" + b.text))
  }

  /** Exactly when messages of two different chats share an id. */
  lemma {:induction false} ChatsCollideExactly(chat: string, a: Message, other: string, b: Message)
    requires chat != other
    ensures Native(chat, a) == Native(other, b) <==> ChatShifted(chat, a, other, b) || ChatShifted(other, b, chat, a)
  {
    var x, y := a.raw + "|" + (a.sender + "|" + a.text), b.raw + "|" + (b.sender + "|" + b.text);
    if chat + "|" + x == other + "|" + y {
      if |chat| >= |other| { TwoCuts(chat, x, other, y); } else { TwoCuts(other, y, chat, x); }
    }
    if ChatShifted(chat, a, other, b) { Rejoin(chat, other, y); }
    if ChatShifted(other, b, chat, a) { Rejoin(other, chat, x); }
  }

  lemma {:induction false} Rejoin(short: string, long: string, rest: string)
    requires short + "|" <= long
    ensures short + "|" + (long[|short| + 1..] + "|" + rest) == long + "|" + rest
  {
    assert long == short + "|" + long[|short| + 1..];
  }

  /** Chats whose names contain no bar never share an id. */
  lemma {:induction false} ChatsAreApart(chat: string, a: Message, other: string, b: Message)
    requires chat != other && '|' !in chat && '|' !in other
    ensures Native(chat, a) != Native(other, b)
  {
    ChatsCollideExactly(chat, a, other, b);
    BarInside(other, chat);
    BarInside(chat, other);
    hide Native;
  }

  /** Others can: a chat named like another one followed by a bar and a stamp. */
  lemma {:induction false} ChatNamesCollide(chat: string, stamp: string, later: string, sender: string, t: string, clock: Clock)
    requires Printable(stamp, later, sender + "|" + t, clock) && Printable(later, sender, t, clock)
    ensures var a := Parsed(Line(stamp, later, sender + "|" + t) + "\n", clock);
            var b := Parsed(Line(later, sender, t) + "\n", clock);
            |a| == |b| == 1 && Native(chat, a[0]) == Native(chat + "|" + stamp, b[0])
  {
    var m, n := Read(stamp, later, sender + "|" + t, clock, 0), Read(later, sender, t, clock, 0);
    OneMessageIsRead(stamp, later, sender + "|" + t, clock);
    OneMessageIsRead(later, sender, t, clock);
    hide Printable, Line, Parsed;
    var longer := chat + "|" + stamp;
    assert longer[|chat| + 1..] == stamp && chat + "|" <= longer;
    assert ChatShifted(chat, m, longer, n);
    assert chat != longer by { assert |longer| > |chat|; }
    ChatsCollideExactly(chat, m, longer, n);
  }

  lemma {:induction false} NoColon(s: string)
    requires ':' !in s
    ensures Lacks(s, ": ")
  {
    forall i: nat ensures !Strings.At(s, ": ", i) {
      if i < |s| { Strings.NoMatchWithoutFirstChar(s, ": ", i); }
    }
  }

  /** Such chats, with any two stamps of which the second could be a sender's name. */
  lemma {:induction false} CollidingChats(chat: string, stamp: string, later: string, clock: Clock)
    requires GoodStamp(Bracket, stamp, clock) && GoodStamp(Bracket, later, clock) && Lacks(later, ": ")
    ensures var a := Parsed(Line(stamp, later, "s|t") + "\n", clock);
            var b := Parsed(Line(later, "s", "t") + "\n", clock);
            |a| == |b| == 1 && Native(chat, a[0]) == Native(chat + "|" + stamp, b[0])
  {
    assert "s" + "|" + "t" == "s|t";
    NoColon("s");
    assert Printable(stamp, later, "s|t", clock) && Printable(later, "s", "t", clock) by { hide Lacks; }
    hide Printable, Line, Parsed, Native;
    ChatNamesCollide(chat, stamp, later, "s", "t", clock);
  }
}
