/**
The iMessage agent: rows above a high-water mark are grouped by chat and
uploaded chat by chat; the mark is persisted only after a clean pass.
*/
module IMessage {

  datatype Row = Row(id: int, chat: string, text: string)
  datatype Group = Group(chat: string, rows: seq<Row>)

  /** The query's ORDER BY: ascending ROWIDs. */
  predicate Ascending(rows: seq<Row>) { forall i, j :: 0 <= i < j < |rows| ==> rows[i].id < rows[j].id }

  /** ReadSince. */
  function Since(db: seq<Row>, mark: int): (rows: seq<Row>)
    ensures forall r :: r in rows <==> r in db && r.id > mark
  {
    if db == [] then []
    else if db[0].id > mark then [db[0]] + Since(db[1..], mark)
    else Since(db[1..], mark)
  }

  lemma {:induction false} SinceAscends(db: seq<Row>, mark: int)
    requires Ascending(db)
    ensures Ascending(Since(db, mark))
  {
    if db != [] {
      var tail, rest := db[1..], Since(db[1..], mark);
      assert Ascending(tail);
      SinceAscends(tail, mark);
      forall r | r in rest ensures db[0].id < r.id { TailIsLarger(db, r); }
      hide Ascending;
      AscendingCons(db[0], rest);
    }
  }

  lemma {:induction false} TailIsLarger(db: seq<Row>, r: Row)
    requires db != [] && Ascending(db) && r in db[1..]
    ensures db[0].id < r.id
  {
    var k :| 0 <= k < |db[1..]| && db[1..][k] == r;
    assert db[1..][k] == db[k + 1];
  }

  lemma {:induction false} AscendingCons(r: Row, rows: seq<Row>)
    requires Ascending(rows) && forall q :: q in rows ==> r.id < q.id
    ensures Ascending([r] + rows)
  {
    assert forall j :: 0 <= j < |rows| ==> rows[j] in rows;
  }

  // ---------------------------------------------------------------- groupByChat

  function Position(groups: seq<Group>, chat: string): (i: int)
    ensures -1 <= i < |groups| && (i >= 0 ==> groups[i].chat == chat)
    ensures i < 0 ==> forall k :: 0 <= k < |groups| ==> groups[k].chat != chat
  {
    if groups == [] then -1
    else if groups[|groups| - 1].chat == chat then |groups| - 1
    else Position(groups[..|groups| - 1], chat)
  }

  function Filed(groups: seq<Group>, r: Row): seq<Group>
  {
    var i := Position(groups, r.chat);
    if i < 0 then groups + [Group(r.chat, [r])] else groups[i := Group(r.chat, groups[i].rows + [r])]
  }

  function Grouped(rows: seq<Row>): seq<Group>
  {
    if rows == [] then [] else Filed(Grouped(rows[..|rows| - 1]), rows[|rows| - 1])
  }

  /** The rows of one chat, in order. */
  function Of(rows: seq<Row>, chat: string): seq<Row>
  {
    if rows == [] then []
    else
      var n := |rows| - 1;
      Of(rows[..n], chat) + if rows[n].chat == chat then [rows[n]] else []
  }

  ghost predicate Distinct(groups: seq<Group>) { forall i, j :: 0 <= i < j < |groups| ==> groups[i].chat != groups[j].chat }

  /**
   * groupByChat partitions the rows: one group per chat, each holding exactly
   * the chat's rows in order.
   */
  lemma {:induction false} GroupsPartition(rows: seq<Row>)
    ensures Distinct(Grouped(rows)) && Complete(rows, Grouped(rows))
    ensures forall i :: 0 <= i < |rows| ==> Position(Grouped(rows), rows[i].chat) >= 0
  {
    if rows != [] {
      var n := |rows| - 1;
      var init, r := rows[..n], rows[n];
      assert rows == init + [r];
      GroupsPartition(init);
      if Position(Grouped(init), r.chat) < 0 { NoRows(init, r.chat); }
      hide Distinct, Complete, Filed, Position, Of;
      FiledDistinct(Grouped(init), r);
      FiledComplete(init, Grouped(init), r);
      forall i | 0 <= i < |rows| ensures Position(Grouped(rows), rows[i].chat) >= 0 {
        StillFiled(Grouped(init), r, rows[i].chat);
        assert i < n ==> rows[i] == init[i];
      }
    }
  }

  ghost predicate Complete(rows: seq<Row>, groups: seq<Group>)
  {
    forall g :: 0 <= g < |groups| ==> groups[g].rows == Of(rows, groups[g].chat)
  }

  lemma {:induction false} FiledDistinct(groups: seq<Group>, r: Row)
    requires Distinct(groups)
    ensures Distinct(Filed(groups, r))
  {
  }

  lemma {:induction false} FiledComplete(rows: seq<Row>, groups: seq<Group>, r: Row)
    requires Distinct(groups) && Complete(rows, groups) && (Position(groups, r.chat) < 0 ==> Of(rows, r.chat) == [])
    ensures Complete(rows + [r], Filed(groups, r))
  {
    var gs := Filed(groups, r);
    assert (rows + [r])[..|rows|] == rows;
    forall g | 0 <= g < |gs| ensures gs[g].rows == Of(rows + [r], gs[g].chat) {
      assert g < |groups| ==> groups[g].rows == Of(rows, groups[g].chat);
      hide Complete;
    }
  }

  lemma {:induction false} StillFiled(groups: seq<Group>, r: Row, chat: string)
    ensures Position(Filed(groups, r), chat) >= 0 <==> Position(groups, chat) >= 0 || chat == r.chat
  {
    var gs := Filed(groups, r);
    if Position(groups, chat) >= 0 { assert gs[Position(groups, chat)].chat == chat; }
    if chat == r.chat { assert gs[if Position(groups, chat) < 0 then |groups| else Position(groups, chat)].chat == chat; }
    if Position(gs, chat) >= 0 && chat != r.chat { assert groups[Position(gs, chat)].chat == chat; }
  }

  /** A chat without a group has no rows. */
  lemma {:induction false} NoRows(rows: seq<Row>, chat: string)
    requires Position(Grouped(rows), chat) < 0
    ensures Of(rows, chat) == []
  {
    if rows != [] {
      var n := |rows| - 1;
      StillFiled(Grouped(rows[..n]), rows[n], chat);
      NoRows(rows[..n], chat);
    }
  }

  lemma {:induction false} OfIs(rows: seq<Row>, chat: string)
    ensures forall r :: r in Of(rows, chat) <==> r in rows && r.chat == chat
  {
    if rows != [] {
      var n := |rows| - 1;
      OfIs(rows[..n], chat);
      assert rows == rows[..n] + [rows[n]];
    }
  }

  /** groupByChat, with its index from chat to group. */
  method GroupByChat(rows: seq<Row>) returns (groups: seq<Group>)
    ensures groups == Grouped(rows)
  {
    var index: map<string, nat> := map[];
    groups := [];
    assert rows[..0] == [];
    for k := 0 to |rows|
      invariant groups == Grouped(rows[..k])
      invariant forall chat :: (if chat in index then index[chat] else -1) == Position(groups, chat)
    {
      var r := rows[k];
      assert rows[..k + 1][..k] == rows[..k];
      ghost var filed := Filed(groups, r);
      Located(groups, r);
      hide Position;
      if r.chat !in index {
        index := index[r.chat := |groups|];
        groups := groups + [Group(r.chat, [])];
      }
      var i := index[r.chat];
      groups := groups[i := Group(groups[i].chat, groups[i].rows + [r])];
      assert groups[i].rows == filed[i].rows && groups[i].chat == filed[i].chat;
      assert groups == filed;
    }
    assert rows[..|rows|] == rows;
  }

  /** Filing a row moves no group. */
  lemma {:induction false} Located(groups: seq<Group>, r: Row)
    ensures forall chat :: Position(Filed(groups, r), chat)
                        == if chat == r.chat && Position(groups, chat) < 0 then |groups| else Position(groups, chat)
  {
    forall chat ensures Position(Filed(groups, r), chat)
                     == if chat == r.chat && Position(groups, chat) < 0 then |groups| else Position(groups, chat)
    {
      if Position(groups, r.chat) < 0 {
        assert Filed(groups, r)[..|groups|] == groups;
      } else {
        SameChats(groups, Filed(groups, r), chat);
      }
    }
  }

  lemma {:induction false} SameChats(a: seq<Group>, b: seq<Group>, chat: string)
    requires |a| == |b| && forall i :: 0 <= i < |a| ==> a[i].chat == b[i].chat
    ensures Position(a, chat) == Position(b, chat)
  {
    if a != [] { SameChats(a[..|a| - 1], b[..|b| - 1], chat); }
  }

  // ---------------------------------------------------------------- the high-water mark

  predicate IsMax(rows: seq<Row>, m: int)
  {
    && m >= 0
    && (forall i :: 0 <= i < |rows| ==> rows[i].id <= m)
    && (m == 0 || exists i :: 0 <= i < |rows| && rows[i].id == m)
  }

  method MaxRowId(rows: seq<Row>) returns (max: int)
    ensures IsMax(rows, max)
  {
    max := 0;
    for i := 0 to |rows|
      invariant max >= 0
      invariant forall k :: 0 <= k < i ==> rows[k].id <= max
      invariant max == 0 || exists k :: 0 <= k < i && rows[k].id == max
    {
      if rows[i].id > max { max := rows[i].id; }
    }
  }

  function AdvancedHighWater(since: int, uploaded: int): (int, bool)
  {
    if uploaded > since then (uploaded, true) else (since, false)
  }

  datatype Result = Result(messages: nat, chats: nat, uploaded: nat, newHighWater: int, moved: bool)

  /** All rows of the groups before the k-th. */
  ghost predicate Sent(groups: seq<Group>, k: nat, r: Row)
    requires k <= |groups|
  {
    exists g :: 0 <= g < k && r in groups[g].rows
  }

  /** The mark runSync reports once the first k chats are uploaded. */
  ghost predicate IsMark(since: int, groups: seq<Group>, k: nat, mark: int)
    requires k <= |groups|
  {
    && mark >= since
    && (forall g :: 0 <= g < k ==> forall r <- groups[g].rows :: r.id <= mark)
    && (mark == since || exists r :: Sent(groups, k, r) && r.id == mark)
  }

  // ---------------------------------------------------------------- one run of the agent

  ghost predicate AllSent(db: seq<Row>, mark: int, uploaded: set<Row>)
  {
    forall r :: r in db && r.id <= mark ==> r in uploaded
  }

  /**
   * A run that read above `start`: it uploads only rows it read, nothing uploaded
   * is forgotten, and the saved mark either stays or becomes the largest ROWID
   * read, all rows read having been uploaded.
   */
  ghost predicate Ran(db: seq<Row>, start: int, clean: bool, last: int, last': int, uploaded: set<Row>, uploaded': set<Row>)
  {
    var rows := Since(db, start);
    && uploaded <= uploaded' && (forall r :: r in uploaded' ==> r in uploaded || r in rows)
    && (last' == last || (clean && rows != [] && IsMax(rows, last') && forall r :: r in rows ==> r in uploaded'))
    && (clean && rows != [] ==> IsMax(rows, last') && forall r :: r in rows ==> r in uploaded')
    && (!clean ==> last' == last)
  }

  /** Where a run starts: at --since if given, else at the persisted mark. */
  function StartOf(last: int, since: int): int { if since >= 0 then since else last }

  class Agent {
    /** The state file. */
    var lastRowId: int
    /** Every row of every transcript the gateway has accepted. */
    ghost var uploaded: set<Row>

    /** runSync, up to the first call that fails.  The first `k` chats were uploaded. */
    method RunSync(db: seq<Row>, since: int, dryRun: bool, f: Faults) returns (ok: bool, res: Result, ghost k: nat)
      requires since >= 0
      modifies this`uploaded
      ensures k <= |Grouped(Since(db, since))|
      ensures forall r :: r in uploaded <==> r in old(uploaded) || Sent(Grouped(Since(db, since)), k, r)
      ensures ok || k > 0 ==> IsMark(since, Grouped(Since(db, since)), k, res.newHighWater) && (res.moved <==> res.newHighWater > since)
      ensures ok <==> !f.read && (dryRun || forall i :: 0 <= i < |Grouped(Since(db, since))| ==> !f.upload(i))
      ensures ok && !dryRun ==> k == |Grouped(Since(db, since))|
      ensures !ok && !f.read ==> f.upload(k) && forall i :: 0 <= i < k ==> !f.upload(i)
      ensures dryRun || f.read ==> k == 0
      ensures f.read ==> res == Result(0, 0, 0, 0, false)
      ensures !f.read ==> res.messages == |Since(db, since)| && res.chats == |Grouped(Since(db, since))| && res.uploaded == k
    {
      k := 0;
      if f.read { return false, Result(0, 0, 0, 0, false), 0; }
      var rows := Since(db, since);
      res := Result(|rows|, 0, 0, since, false);
      if rows == [] {
        NothingHigh(Grouped(rows));
        MarkFrom(since, Grouped(rows), 0, 0);
        NoRowsNoGroups(rows);
        return true, res, 0;
      }
      var groups := GroupByChat(rows);
      hide Grouped, Since, HighWater, Sent, IsMark, IsMax;
      NothingHigh(groups);
      res := res.(chats := |groups|);
      ok := true;
      var highWater, n := 0, 0;
      if !dryRun { ok, highWater, n := Upload(groups, f); }
      k := n;
      MarkFrom(since, groups, k, highWater);
      var (mark, moved) := AdvancedHighWater(since, highWater);
      res := res.(uploaded := n, newHighWater := mark, moved := moved);
    }

    /** The loop of runSync: chat by chat until an upload fails. */
    method Upload(groups: seq<Group>, f: Faults) returns (ok: bool, highWater: int, n: nat)
      modifies this`uploaded
      ensures n <= |groups| && highWater >= 0 && HighWater(groups, n, highWater)
      ensures forall r :: r in uploaded <==> r in old(uploaded) || Sent(groups, n, r)
      ensures ok <==> n == |groups|
      ensures (!ok ==> f.upload(n)) && forall i :: 0 <= i < n ==> !f.upload(i)
    {
      hide HighWater, Sent, IsMax;
      NothingHigh(groups);
      highWater := 0;
      for i := 0 to |groups|
        invariant highWater >= 0 && HighWater(groups, i, highWater)
        invariant forall j :: 0 <= j < i ==> !f.upload(j)
        invariant forall r :: r in uploaded <==> r in old(uploaded) || Sent(groups, i, r)
      {
        if f.upload(i) { return false, highWater, i; }
        var g := groups[i];
        OneSent(groups, i);
        uploaded := uploaded + set r | r in g.rows;
        var hw := MaxRowId(g.rows);
        Higher(groups, i, highWater, hw);
        if hw > highWater { highWater := hw; }
      }
      ok, n := true, |groups|;
    }

    /** realMain; `since` is the flag, negative when absent. */
    method RealMain(db: seq<Row>, since: int, dryRun: bool, f: Faults) returns (ok: bool)
      requires lastRowId >= 0
      modifies this
      ensures lastRowId >= 0
      ensures Ran(db, StartOf(old(lastRowId), since), ok && !dryRun, old(lastRowId), lastRowId, old(uploaded), uploaded)
      ensures dryRun ==> uploaded == old(uploaded)
      ensures ok <==> Unhindered(db, StartOf(old(lastRowId), since), dryRun, f)
      ensures since == 0 && ok && !dryRun ==> forall r <- db :: r.id > 0 ==> r in uploaded
    {
      hide Since, Grouped, IsMax, IsMark, Sent, HighWater;
      var start := lastRowId;
      if since >= 0 { start := since; }
      NoRowsNoGroups(Since(db, start));
      if f.setup { return false; }
      var res;
      ghost var k;
      ok, res, k := RunSync(db, start, dryRun, f);
      NothingHigh(Grouped(Since(db, start)));
      SentWasRead(Since(db, start), k);
      if !ok { return; }
      WholeRun(db, start, k, res.newHighWater);
      NoMove(start, Grouped(Since(db, start)), k, res.newHighWater);
      if !dryRun && res.moved {
        if f.save { return false; }
        lastRowId := res.newHighWater;
      }
    }
  }

  /** Which calls fail: loading configuration and state, reading the database, uploading the i-th chat, saving the mark. */
  datatype Faults = Faults(setup: bool, read: bool, upload: nat -> bool, save: bool)

  /** No call the run makes fails; the mark is saved when there was something to upload. */
  predicate Unhindered(db: seq<Row>, start: int, dryRun: bool, f: Faults)
  {
    && !f.setup && !f.read
    && (dryRun || forall i :: 0 <= i < |Grouped(Since(db, start))| ==> !f.upload(i))
    && (!dryRun && Since(db, start) != [] ==> !f.save)
  }

  lemma {:induction false} NoRowsNoGroups(rows: seq<Row>)
    ensures rows == [] <==> Grouped(rows) == []
  {
    hide Position;
  }

  /** Nothing uploaded, nothing moved. */
  lemma {:induction false} NoMove(since: int, groups: seq<Group>, k: nat, mark: int)
    requires k <= |groups| && IsMark(since, groups, k, mark)
    ensures k == 0 ==> mark == since
  {
  }

  ghost predicate HighWater(groups: seq<Group>, k: nat, high: int)
    requires k <= |groups|
  {
    && (forall g :: 0 <= g < k ==> forall r <- groups[g].rows :: r.id <= high)
    && (high == 0 || exists r :: Sent(groups, k, r) && r.id == high)
  }

  lemma {:induction false} NothingHigh(groups: seq<Group>)
    ensures HighWater(groups, 0, 0) && forall r :: !Sent(groups, 0, r)
  {
  }

  lemma {:induction false} MarkFrom(since: int, groups: seq<Group>, k: nat, high: int)
    requires since >= 0 && k <= |groups| && HighWater(groups, k, high)
    ensures IsMark(since, groups, k, AdvancedHighWater(since, high).0)
    ensures AdvancedHighWater(since, high).1 <==> AdvancedHighWater(since, high).0 > since
  {
    hide Sent;
  }

  lemma {:induction false} OneSent(groups: seq<Group>, i: nat)
    requires i < |groups|
    ensures forall r :: Sent(groups, i + 1, r) <==> Sent(groups, i, r) || r in groups[i].rows
  {
  }

  lemma {:induction false} Higher(groups: seq<Group>, i: nat, high: int, hw: int)
    requires i < |groups| && HighWater(groups, i, high) && IsMax(groups[i].rows, hw) && high >= 0
    ensures HighWater(groups, i + 1, if hw > high then hw else high)
  {
    var rows := groups[i].rows;
    forall r | r in rows ensures r.id <= hw { }
    if hw > high {
      var j :| 0 <= j < |rows| && rows[j].id == hw;
      assert Sent(groups, i + 1, rows[j]);
    } else if high != 0 {
      var r :| Sent(groups, i, r) && r.id == high;
      assert Sent(groups, i + 1, r);
    }
  }

  /** Every row read is in some group. */
  lemma {:induction false} AllGrouped(rows: seq<Row>, r: Row)
    ensures Sent(Grouped(rows), |Grouped(rows)|, r) <==> r in rows
  {
    GroupsPartition(rows);
    var gs := Grouped(rows);
    if r in rows {
      var i :| 0 <= i < |rows| && rows[i] == r;
      var g := Position(gs, r.chat);
      OfIs(rows, r.chat);
      assert r in gs[g].rows;
    }
    if Sent(gs, |gs|, r) {
      var g :| 0 <= g < |gs| && r in gs[g].rows;
      OfIs(rows, gs[g].chat);
    }
  }

  lemma {:induction false} SentWasRead(rows: seq<Row>, k: nat)
    requires k <= |Grouped(rows)|
    ensures forall r :: Sent(Grouped(rows), k, r) ==> r in rows
  {
    forall r | Sent(Grouped(rows), k, r) ensures r in rows { AllGrouped(rows, r); }
  }

  /** After a pass over every chat the mark is the largest ROWID read. */
  lemma {:induction false} WholeRun(db: seq<Row>, start: int, k: nat, mark: int)
    requires start >= 0 && k <= |Grouped(Since(db, start))| && IsMark(start, Grouped(Since(db, start)), k, mark)
    ensures k == |Grouped(Since(db, start))| ==>
              var rows := Since(db, start);
              && (forall r :: r in rows <==> Sent(Grouped(rows), k, r))
              && (rows != [] ==> IsMax(rows, mark) && mark > start)
              && (rows == [] ==> mark == start)
    ensures mark >= start
  {
    var rows := Since(db, start);
    var gs := Grouped(rows);
    if k == |gs| {
      forall r ensures r in rows <==> Sent(gs, k, r) { AllGrouped(rows, r); }
      hide Grouped, Since;
      forall i | 0 <= i < |rows| ensures start < rows[i].id <= mark {
        assert rows[i] in rows;
        assert Sent(gs, k, rows[i]);
      }
      if rows != [] {
        assert rows[0].id > start;
        var r :| Sent(gs, k, r) && r.id == mark;
        assert r in rows;
      } else {
        assert forall r :: !Sent(gs, k, r);
      }
    }
  }

  // ---------------------------------------------------------------- every sequence of runs

  /** The database, the highest ROWID it ever had, the saved mark and what was uploaded. */
  datatype World = World(db: seq<Row>, high: int, last: int, uploaded: set<Row>)

  /** Between runs rows may vanish, and new ones get larger ROWIDs. */
  ghost predicate Evolves(w: World, w': World)
  {
    && w'.last == w.last && w'.uploaded == w.uploaded && w'.high >= w.high
    && (forall r :: r in w'.db ==> (r in w.db || r.id > w.high) && r.id <= w'.high)
  }

  /** The world changes, or the agent runs; `since` is the flag, negative when absent, and `clean` whether the run ended well. */
  datatype Action = Change | Pass(since: int, clean: bool)

  ghost predicate Next(w: World, a: Action, w': World)
  {
    match a
    case Change => Evolves(w, w')
    case Pass(since, clean) =>
      w'.db == w.db && w'.high == w.high && Ran(w.db, StartOf(w.last, since), clean, w.last, w'.last, w.uploaded, w'.uploaded)
  }

  ghost predicate Bounded(w: World) { 0 <= w.last <= w.high && forall r :: r in w.db ==> r.id <= w.high }

  ghost predicate Inv(w: World) { Bounded(w) && AllSent(w.db, w.last, w.uploaded) }

  /** If the run moves the mark, every row it starts above was sent before. */
  ghost predicate Careful(w: World, a: Action)
  {
    a.Pass? && a.clean && Since(w.db, StartOf(w.last, a.since)) != [] ==>
      forall r :: r in w.db && w.last < r.id <= StartOf(w.last, a.since) ==> r in w.uploaded
  }

  lemma {:induction false} StaysBounded(w: World, a: Action, w': World)
    requires Bounded(w) && Next(w, a, w')
    ensures Bounded(w')
  {
    if a.Pass? && w'.last != w.last {
      var rows := Since(w.db, StartOf(w.last, a.since));
      assert rows[0] in rows;
      if w'.last != 0 {
        var i :| 0 <= i < |rows| && rows[i].id == w'.last;
        assert rows[i] in rows;
      }
    }
  }

  /** A step keeps the invariant if and only if it is careful. */
  lemma {:induction false} StepKeepsInv(w: World, a: Action, w': World)
    requires Inv(w) && Next(w, a, w')
    ensures Inv(w') <==> Careful(w, a)
  {
    StaysBounded(w, a, w');
    if a.Pass? && a.clean && Since(w.db, StartOf(w.last, a.since)) != [] { MovedMark(w, a, w'); }
  }

  lemma {:induction false} MovedMark(w: World, a: Action, w': World)
    requires Inv(w) && Next(w, a, w') && a.Pass? && a.clean && Since(w.db, StartOf(w.last, a.since)) != []
    ensures AllSent(w'.db, w'.last, w'.uploaded) <==> Careful(w, a)
  {
    var start := StartOf(w.last, a.since);
    var rows := Since(w.db, start);
    assert rows[0] in rows;
    assert w'.last > start;
    assert forall r :: r in w.db && r.id <= w'.last ==> r.id <= start || r in rows;
    hide Since, IsMax;
    if Careful(w, a) {
      forall r | r in w.db && r.id <= w'.last ensures r in w'.uploaded { }
    } else {
      var r :| r in w.db && w.last < r.id <= start && r !in w.uploaded;
      assert r !in rows;
      assert r in w'.db && r.id <= w'.last && r !in w'.uploaded;
    }
  }

  ghost predicate Goes(worlds: seq<World>, actions: seq<Action>)
  {
    |worlds| == |actions| + 1 && forall i :: 0 <= i < |actions| ==> Next(worlds[i], actions[i], worlds[i + 1])
  }

  lemma {:induction false} InvUpTo(worlds: seq<World>, actions: seq<Action>, n: nat)
    requires Goes(worlds, actions) && n < |worlds| && Inv(worlds[0])
    ensures (forall i :: 0 <= i <= n ==> Inv(worlds[i])) <==> forall i :: 0 <= i < n ==> Careful(worlds[i], actions[i])
    decreases n
  {
    hide Inv, Careful, Next;
    if n > 0 {
      InvUpTo(worlds, actions, n - 1);
      if Inv(worlds[n - 1]) { StepKeepsInv(worlds[n - 1], actions[n - 1], worlds[n]); }
    }
  }

  lemma {:induction false} BoundedUpTo(worlds: seq<World>, actions: seq<Action>, n: nat)
    requires Goes(worlds, actions) && n < |worlds| && Bounded(worlds[0])
    ensures Bounded(worlds[n])
    decreases n
  {
    hide Bounded, Next;
    if n > 0 {
      BoundedUpTo(worlds, actions, n - 1);
      StaysBounded(worlds[n - 1], actions[n - 1], worlds[n]);
    }
  }

  /**
   * Over any runs, with any --since flags, every message at or below the
   * persisted mark has been uploaded at all times if and only if every run that
   * moved the mark started above messages already sent.
   */
  lemma {:induction false} SkipsExactly(worlds: seq<World>, actions: seq<Action>)
    requires Goes(worlds, actions) && Inv(worlds[0])
    ensures (forall n :: 0 <= n < |worlds| ==> AllSent(worlds[n].db, worlds[n].last, worlds[n].uploaded))
       <==> forall i :: 0 <= i < |actions| ==> Careful(worlds[i], actions[i])
  {
    InvUpTo(worlds, actions, |actions|);
    forall n | 0 <= n < |worlds| ensures Inv(worlds[n]) <==> AllSent(worlds[n].db, worlds[n].last, worlds[n].uploaded) {
      BoundedUpTo(worlds, actions, n);
      hide Bounded, AllSent, Goes;
    }
    hide Inv, Careful, Next, AllSent;
  }

  /** Without --since nothing is ever skipped. */
  lemma {:induction false} NothingIsSkipped(worlds: seq<World>, actions: seq<Action>, n: nat)
    requires Goes(worlds, actions) && Inv(worlds[0]) && n < |worlds|
    requires forall a :: a in actions && a.Pass? ==> a.since < 0
    ensures AllSent(worlds[n].db, worlds[n].last, worlds[n].uploaded)
  {
    forall i | 0 <= i < |actions| ensures Careful(worlds[i], actions[i]) { assert actions[i] in actions; }
    hide Goes, Inv, Careful, AllSent;
    SkipsExactly(worlds, actions);
  }

  /** With it a message can be: a run from above it leaves it unsent below the mark. */
  lemma {:induction false} SinceSkips(a: Row, b: Row)
    requires 0 < a.id < b.id
    ensures var w, w' := World([a, b], b.id, 0, {}), World([a, b], b.id, b.id, {b});
            Inv(w) && Next(w, Pass(a.id, true), w') && !AllSent(w'.db, w'.last, w'.uploaded)
  {
    var w' := World([a, b], b.id, b.id, {b});
    assert Since([b], a.id) == [b];
    assert [a, b][1..] == [b];
    var rows := Since([a, b], a.id);
    assert rows == [b];
    assert rows[0].id == b.id;
    assert a in w'.db && a !in w'.uploaded;
  }

  // ---------------------------------------------------------------- the mark of a failed run

  /** Some row of chat `a` precedes every row of chat `b`. */
  ghost predicate Before(rows: seq<Row>, a: string, b: string)
  {
    exists i :: 0 <= i < |rows| && rows[i].chat == a && Precedes(rows, i, b)
  }

  ghost predicate Precedes(rows: seq<Row>, i: int, b: string) { forall j :: 0 <= j < |rows| && rows[j].chat == b ==> i < j }

  lemma {:induction false} BeforeGrows(rows: seq<Row>, r: Row, a: string, b: string)
    requires Before(rows, a, b)
    ensures Before(rows + [r], a, b)
  {
    var i :| 0 <= i < |rows| && rows[i].chat == a && Precedes(rows, i, b);
    assert (rows + [r])[i] == rows[i] && Precedes(rows + [r], i, b);
  }

  lemma {:induction false} BeforeNew(rows: seq<Row>, r: Row, a: string, i: nat)
    requires i < |rows| && rows[i].chat == a && forall j :: 0 <= j < |rows| ==> rows[j].chat != r.chat
    ensures Before(rows + [r], a, r.chat)
  {
    assert (rows + [r])[i] == rows[i] && Precedes(rows + [r], i, r.chat);
  }

  lemma {:induction false} GroupHasRow(rows: seq<Row>, g: nat) returns (i: nat)
    requires g < |Grouped(rows)|
    ensures i < |rows| && rows[i].chat == Grouped(rows)[g].chat
  {
    var n := |rows| - 1;
    if g < |Grouped(rows[..n])| { i := GroupHasRow(rows[..n], g); } else { i := n; }
  }

  /** Groups come in the order their chats were first seen. */
  lemma {:induction false} FirstSeenOrder(rows: seq<Row>, a: nat, b: nat)
    requires a < b < |Grouped(rows)|
    ensures Before(rows, Grouped(rows)[a].chat, Grouped(rows)[b].chat)
  {
    var n := |rows| - 1;
    var init, r := rows[..n], rows[n];
    var gs := Grouped(init);
    assert rows == init + [r];
    if b < |gs| {
      FirstSeenOrder(init, a, b);
      BeforeGrows(init, r, gs[a].chat, gs[b].chat);
    } else {
      var i := GroupHasRow(init, a);
      GroupsPartition(init);
      BeforeNew(init, r, gs[a].chat, i);
    }
  }

  /** No chat is interrupted by another one. */
  predicate Contiguous(rows: seq<Row>)
  {
    forall i, j, l :: 0 <= i < j < l < |rows| && rows[i].chat == rows[l].chat ==> rows[j].chat == rows[i].chat
  }

  /** The mark lies below every row of the chats from the k-th on. */
  ghost predicate BelowUnsent(groups: seq<Group>, k: nat, mark: int)
  {
    forall b :: k <= b < |groups| ==> forall q <- groups[b].rows :: mark < q.id
  }

  ghost predicate AlwaysBelowUnsent(since: int, groups: seq<Group>)
  {
    forall k: nat, mark :: k <= |groups| && IsMark(since, groups, k, mark) ==> BelowUnsent(groups, k, mark)
  }

  lemma {:induction false} InGroup(rows: seq<Row>, g: nat, r: Row)
    requires g < |Grouped(rows)|
    ensures r in Grouped(rows)[g].rows <==> r in rows && r.chat == Grouped(rows)[g].chat
  {
    GroupsPartition(rows);
    OfIs(rows, Grouped(rows)[g].chat);
  }

  lemma {:induction false} MarkExists(since: int, groups: seq<Group>, k: nat) returns (mark: int)
    requires k <= |groups|
    ensures IsMark(since, groups, k, mark)
  {
    mark := since;
    if k > 0 {
      var before := MarkExists(since, groups, k - 1);
      OneSent(groups, k - 1);
      mark := LargerMark(since, groups, k, before, groups[k - 1].rows);
    }
  }

  lemma {:induction false} LargerMark(since: int, groups: seq<Group>, k: nat, before: int, rows: seq<Row>) returns (mark: int)
    requires k <= |groups| && before >= since
    requires before == since || exists r :: Sent(groups, k, r) && r.id == before
    requires forall r :: r in rows ==> Sent(groups, k, r)
    ensures mark >= before && (forall r :: r in rows ==> r.id <= mark)
    ensures mark == since || exists r :: Sent(groups, k, r) && r.id == mark
    decreases |rows|
  {
    hide Sent;
    mark := before;
    if rows != [] {
      var n := |rows| - 1;
      assert rows == rows[..n] + [rows[n]];
      mark := LargerMark(since, groups, k, before, rows[..n]);
      if rows[n].id > mark { mark := rows[n].id; assert Sent(groups, k, rows[n]); }
    }
  }

  /** Contiguous chats: whatever chat the run fails at, its mark is below everything unsent. */
  lemma {:induction false} ContiguousIsSafe(since: int, rows: seq<Row>, k: nat, mark: int)
    requires Ascending(rows) && Contiguous(rows) && (forall i :: 0 <= i < |rows| ==> rows[i].id > since)
    requires k <= |Grouped(rows)| && IsMark(since, Grouped(rows), k, mark)
    ensures BelowUnsent(Grouped(rows), k, mark)
  {
    var gs := Grouped(rows);
    forall b, q | k <= b < |gs| && q in gs[b].rows ensures mark < q.id {
      InGroup(rows, b, q);
      if mark != since {
        var r :| Sent(gs, k, r) && r.id == mark;
        var a :| 0 <= a < k && r in gs[a].rows;
        EarlierGroup(rows, a, b, r, q);
      }
      hide Grouped, IsMark, Contiguous, Sent;
    }
  }

  lemma {:induction false} EarlierGroup(rows: seq<Row>, a: nat, b: nat, r: Row, q: Row)
    requires Ascending(rows) && Contiguous(rows) && a < b < |Grouped(rows)|
    requires r in Grouped(rows)[a].rows && q in Grouped(rows)[b].rows
    ensures r.id < q.id
  {
    var gs := Grouped(rows);
    GroupsPartition(rows);
    InGroup(rows, a, r);
    InGroup(rows, b, q);
    FirstSeenOrder(rows, a, b);
    hide Grouped, Contiguous, Before, Complete;
    var p :| 0 <= p < |rows| && rows[p] == r;
    var s :| 0 <= s < |rows| && rows[s] == q;
    NotAfter(rows, gs[a].chat, gs[b].chat, p, s);
  }

  lemma {:induction false} NotAfter(rows: seq<Row>, a: string, b: string, p: nat, s: nat)
    requires Contiguous(rows) && Before(rows, a, b) && a != b
    requires p < |rows| && s < |rows| && rows[p].chat == a && rows[s].chat == b
    ensures p < s
  {
    var i :| 0 <= i < |rows| && rows[i].chat == a && Precedes(rows, i, b);
    assert i < s;
  }

  /** An interrupted chat: failing at the wrong moment, the mark passes an unsent row. */
  lemma {:induction false} InterleavedIsUnsafe(since: int, rows: seq<Row>, i: nat, j: nat, l: nat) returns (k: nat, mark: int)
    requires Ascending(rows) && i < j < l < |rows| && rows[i].chat == rows[l].chat != rows[j].chat
    ensures k <= |Grouped(rows)| && IsMark(since, Grouped(rows), k, mark) && !BelowUnsent(Grouped(rows), k, mark)
  {
    var gs := Grouped(rows);
    GroupsPartition(rows);
    var a, b := Position(gs, rows[i].chat), Position(gs, rows[j].chat);
    InGroup(rows, a, rows[i]);
    InGroup(rows, a, rows[l]);
    InGroup(rows, b, rows[j]);
    k := if a < b then b else a;
    mark := MarkExists(since, gs, k);
    hide Grouped, Position, Contiguous;
    if a < b {
      assert rows[l].id <= mark && rows[j].id < rows[l].id && rows[j] in gs[b].rows;
    } else {
      assert rows[j].id <= mark && rows[i].id < rows[j].id && rows[i] in gs[a].rows;
    }
  }

  /**
   * The mark a failed runSync reports stays below every unsent row, whichever
   * chat the upload fails at, if and only if no chat is interrupted by another.
   */
  lemma {:induction false} FailureMarkExact(since: int, rows: seq<Row>)
    requires Ascending(rows) && forall i :: 0 <= i < |rows| ==> rows[i].id > since
    ensures AlwaysBelowUnsent(since, Grouped(rows)) <==> Contiguous(rows)
  {
    hide Grouped, IsMark, BelowUnsent, Ascending;
    if Contiguous(rows) {
      forall k: nat, mark | k <= |Grouped(rows)| && IsMark(since, Grouped(rows), k, mark) ensures BelowUnsent(Grouped(rows), k, mark) {
        ContiguousIsSafe(since, rows, k, mark);
      }
    } else {
      var i, j, l :| 0 <= i < j < l < |rows| && rows[i].chat == rows[l].chat && rows[j].chat != rows[i].chat;
      var k, mark := InterleavedIsUnsafe(since, rows, i, j, l);
    }
  }

  /** Two chats taking turns are enough. */
  lemma {:induction false} InterleavedChats(a: string, b: string)
    requires a != b
    ensures !AlwaysBelowUnsent(0, Grouped([Row(1, a, ""), Row(2, b, ""), Row(3, a, "")]))
  {
    var rows := [Row(1, a, ""), Row(2, b, ""), Row(3, a, "")];
    assert rows[0].chat == rows[2].chat != rows[1].chat;
    FailureMarkExact(0, rows);
  }
}
