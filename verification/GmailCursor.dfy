/**
The Gmail cursor text: "history:<id>" in the steady state and
"history:<id>|page:<token>" in the middle of a backfill.
*/
module GmailCursor {
  import opened Common
  import opened Strings

  const PREFIX := "history:"
  const PAGE_SEP := "|page:"

  /** A parsed cursor; `pageToken` is empty unless `backfill`. */
  datatype CursorState = CursorState(historyId: nat, pageToken: string, backfill: bool)

  // ---------------------------------------------------------------- the cursor

  function IncrementalCursor(historyId: nat): string
  {
    PREFIX + FormatUint(historyId)
  }

  function BackfillCursor(historyId: nat, pageToken: string): string
  {
    PREFIX + FormatUint(historyId) + PAGE_SEP + pageToken
  }

  /** parseCursor; None stands for its error results. */
  function ParseCursor(s: string): Option<CursorState>
  {
    if |s| < |PREFIX| || s[..|PREFIX|] != PREFIX then None
    else
      var rest := s[|PREFIX|..];
      var cut := Index(rest, PAGE_SEP);
      if cut < 0 then
        match ParseUint(rest)
        case None => None
        case Some(id) => Some(CursorState(id, "", false))
      else
        var token := rest[cut + |PAGE_SEP|..];
        if token == "" then None
        else
          match ParseUint(rest[..cut])
          case None => None
          case Some(id) => Some(CursorState(id, token, true))
  }

  /** The two documented shapes, as a grammar: digits `d`, and a non-empty token when mid-backfill. */
  predicate Spells(s: string, d: string, st: CursorState)
  {
    && d != "" && (forall i :: 0 <= i < |d| ==> '0' <= d[i] <= '9') && AllDigits(d) && Value(d) == st.historyId < UINT64_LIMIT
    && if st.backfill then st.pageToken != "" && s == "history:" + d + "|page:" + st.pageToken
       else st.pageToken == "" && s == "history:" + d
  }

  lemma {:induction false} SpelledIsParsed(s: string, d: string, st: CursorState)
    requires Spells(s, d, st)
    ensures ParseCursor(s) == Some(st)
  {
    assert s[..|PREFIX|] == PREFIX;
    var rest := s[|PREFIX|..];
    assert '|' !in d;
    if st.backfill {
      assert rest == d + PAGE_SEP + st.pageToken;
      CutAfterCleanHead(d, PAGE_SEP, st.pageToken);
      assert rest[..|d|] == d;
      assert rest[|d| + |PAGE_SEP|..] == st.pageToken;
    } else {
      assert rest == d;
      NothingToCut(rest, PAGE_SEP);
    }
  }

  lemma {:induction false} ParsedIsSpelled(s: string, st: CursorState) returns (d: string)
    requires ParseCursor(s) == Some(st)
    ensures Spells(s, d, st)
  {
    var rest := s[|PREFIX|..];
    assert s == PREFIX + rest;
    var cut := Index(rest, PAGE_SEP);
    if cut < 0 {
      d := rest;
    } else {
      d := rest[..cut];
      assert rest == d + PAGE_SEP + rest[cut + |PAGE_SEP|..];
    }
  }

  /** parseCursor accepts exactly the two documented shapes and returns what they spell. */
  lemma {:induction false} ParseCursorExact(s: string, st: CursorState)
    ensures ParseCursor(s) == Some(st) <==> exists d :: Spells(s, d, st)
  {
    if ParseCursor(s) == Some(st) {
      var d := ParsedIsSpelled(s, st);
    }
    if exists d :: Spells(s, d, st) {
      var d :| Spells(s, d, st);
      SpelledIsParsed(s, d, st);
    }
  }

  /** Every uint64 id and every non-empty token, whatever its characters, survives the round trip. */
  lemma {:induction false} CursorRoundTrip(historyId: nat, pageToken: string)
    requires historyId < UINT64_LIMIT
    ensures ParseCursor(IncrementalCursor(historyId)) == Some(CursorState(historyId, "", false))
    ensures pageToken != "" ==>
              ParseCursor(BackfillCursor(historyId, pageToken)) == Some(CursorState(historyId, pageToken, true))
    ensures pageToken == "" ==> ParseCursor(BackfillCursor(historyId, pageToken)) == None
  {
    FormatDenotes(historyId);
    var d := FormatUint(historyId);
    SpelledIsParsed(IncrementalCursor(historyId), d, CursorState(historyId, "", false));
    if pageToken != "" {
      SpelledIsParsed(BackfillCursor(historyId, pageToken), d, CursorState(historyId, pageToken, true));
    } else {
      var s := BackfillCursor(historyId, pageToken);
      assert s[|PREFIX|..] == d + PAGE_SEP + pageToken;
      CutAfterCleanHead(d, PAGE_SEP, pageToken);
    }
  }

  /** The steady-state and mid-backfill texts are never confused, and each text determines its contents. */
  lemma {:induction false} CursorsAreDistinct(id: nat, token: string, id': nat, token': string)
    requires id < UINT64_LIMIT && id' < UINT64_LIMIT && token != "" && token' != ""
    ensures IncrementalCursor(id) != BackfillCursor(id', token')
    ensures IncrementalCursor(id) == IncrementalCursor(id') ==> id == id'
    ensures BackfillCursor(id, token) == BackfillCursor(id', token') ==> id == id' && token == token'
  {
    CursorRoundTrip(id, token);
    CursorRoundTrip(id', token');
  }
}
