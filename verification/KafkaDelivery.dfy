/**
Runs of the at-least-once consumer: any number of group members, partitions
and restarts, with failing handlers, dead-letter produces and commits.
*/
module KafkaDelivery {
  import opened Common
  import opened KafkaConsumer

  type Partition = nat
  type Member = nat

  /** One delivery that happened: where, how it went, and the partition a dead-letter copy goes to. */
  datatype Entry = Entry(tp: Partition, offset: nat, delivery: Delivery, dead: Partition)

  /** Partition logs, committed offsets, and each member's next offsets. */
  datatype State = State(logs: map<Partition, seq<Record>>, committed: map<Partition, nat>,
                         members: map<Member, map<Partition, nat>>, history: seq<Entry>)

  datatype Step =
    | Produce(tp: Partition, rec: Record)
    | Assign(m: Member, tp: Partition)                    // (re)join: start at the committed offset
    | Deliver(m: Member, tp: Partition, d: Delivery, dead: Partition)
    | Stop(m: Member)                                     // cancellation, crash or rebalance

  function Log(s: State, tp: Partition): seq<Record> { if tp in s.logs then s.logs[tp] else [] }

  function Committed(s: State, tp: Partition): nat { if tp in s.committed then s.committed[tp] else 0 }

  function Positions(s: State, m: Member): map<Partition, nat> { if m in s.members then s.members[m] else map[] }

  /** What processRecord may do with a record (its contract). */
  predicate CanDeliver(rec: Record, valid: string -> bool, d: Delivery)
  {
    && |d.calls| <= 3
    && (forall c <- d.calls :: Accepted(rec, valid) == Some(c.1) && c.0 == c.1.tenant)
    && (d.outcome.AlreadyDead? ==> rec.topic == "docs.deadletter")
    && (d.outcome.Quarantined? ==> IsDeadLetterOf(d.outcome.copy, rec))
    && (d.outcome.Handled? ==> d.calls != [])
    && (d.committed ==> Settles(d.outcome))
  }

  predicate Enabled(s: State, valid: string -> bool, step: Step)
  {
    match step
    case Produce(_, _) => true
    case Assign(_, _) => true
    case Deliver(m, tp, d, _) =>
      && tp in Positions(s, m) && Positions(s, m)[tp] < |Log(s, tp)|
      && CanDeliver(Log(s, tp)[Positions(s, m)[tp]], valid, d)
    case Stop(_) => true
  }

  function Do(s: State, valid: string -> bool, step: Step): State
    requires Enabled(s, valid, step)
  {
    match step
    case Produce(tp, rec) => s.(logs := s.logs[tp := Log(s, tp) + [rec]])
    case Assign(m, tp) => s.(members := s.members[m := Positions(s, m)[tp := Committed(s, tp)]])
    case Deliver(m, tp, d, dead) =>
      var o := Positions(s, m)[tp];
      s.(logs := if d.outcome.Quarantined? then s.logs[dead := Log(s, dead) + [d.outcome.copy]] else s.logs,
         history := s.history + [Entry(tp, o, d, dead)],
         committed := if d.committed then s.committed[tp := o + 1] else s.committed,
         members := if Settles(d.outcome) then s.members[m := Positions(s, m)[tp := o + 1]] else s.members - {m})
    case Stop(m) => s.(members := s.members - {m})
  }

  predicate Ok(s: State, valid: string -> bool, steps: seq<Step>)
    decreases |steps|
  {
    steps == [] || (Enabled(s, valid, steps[0]) && Ok(Do(s, valid, steps[0]), valid, steps[1..]))
  }

  function Final(s: State, valid: string -> bool, steps: seq<Step>): State
    requires Ok(s, valid, steps)
    decreases |steps|
  {
    if steps == [] then s else Final(Do(s, valid, steps[0]), valid, steps[1..])
  }

  function Initial(): State { State(map[], map[], map[], []) }

  /** The record at this offset was handled, quarantined, or was itself read from the dead-letter topic. */
  ghost predicate Settled(s: State, tp: Partition, o: nat)
  {
    exists i :: 0 <= i < |s.history| && s.history[i].tp == tp && s.history[i].offset == o && Settles(s.history[i].delivery.outcome)
  }

  /** What a delivery did is possible for the record it is about, and a dead-letter copy is found where it was produced. */
  ghost predicate Recorded(s: State, valid: string -> bool, e: Entry)
  {
    && e.offset < |Log(s, e.tp)|
    && CanDeliver(Log(s, e.tp)[e.offset], valid, e.delivery)
    && (e.delivery.outcome.Quarantined? ==> e.delivery.outcome.copy in Log(s, e.dead))
  }

  ghost predicate AllSettled(s: State, tp: Partition, n: nat)
  {
    n <= |Log(s, tp)| && forall o: nat :: o < n ==> Settled(s, tp, o)
  }

  ghost predicate Inv(s: State, valid: string -> bool)
  {
    && (forall tp :: AllSettled(s, tp, Committed(s, tp)))
    && (forall m, tp :: tp in Positions(s, m) ==> AllSettled(s, tp, Positions(s, m)[tp]))
    && (forall i :: 0 <= i < |s.history| ==> Recorded(s, valid, s.history[i]))
  }

  /** A member that restarts holds only what it is assigned, from the committed offset on. */
  lemma {:induction false} RestartsAtCommitted(s: State, valid: string -> bool, m: Member, tp: Partition)
    ensures var s' := Do(Do(s, valid, Stop(m)), valid, Assign(m, tp));
            Positions(s', m) == map[tp := Committed(s, tp)] && s'.committed == s.committed && s'.logs == s.logs && s'.history == s.history
  {
  }

  /** Logs only grow. */
  lemma {:induction false} LogsGrow(s: State, valid: string -> bool, step: Step, tp: Partition)
    requires Enabled(s, valid, step)
    ensures Log(s, tp) <= Log(Do(s, valid, step), tp)
  {
    hide CanDeliver;
  }

  lemma {:induction false} SettledStays(s: State, valid: string -> bool, step: Step, tp: Partition, n: nat)
    requires Enabled(s, valid, step) && AllSettled(s, tp, n)
    ensures AllSettled(Do(s, valid, step), tp, n)
  {
    var s' := Do(s, valid, step);
    LogsGrow(s, valid, step, tp);
    hide CanDeliver;
    forall o: nat | o < n ensures Settled(s', tp, o) {
      assert Settled(s, tp, o);
      var i :| 0 <= i < |s.history| && s.history[i].tp == tp && s.history[i].offset == o && Settles(s.history[i].delivery.outcome);
      assert s'.history[i] == s.history[i];
    }
  }

  lemma {:induction false} DeliverSettles(s: State, valid: string -> bool, m: Member, tp: Partition, d: Delivery, dead: Partition)
    requires Enabled(s, valid, Deliver(m, tp, d, dead)) && Settles(d.outcome)
    requires AllSettled(s, tp, Positions(s, m)[tp])
    ensures AllSettled(Do(s, valid, Deliver(m, tp, d, dead)), tp, Positions(s, m)[tp] + 1)
  {
    var o := Positions(s, m)[tp];
    var s' := Do(s, valid, Deliver(m, tp, d, dead));
    SettledStays(s, valid, Deliver(m, tp, d, dead), tp, o);
    assert s'.history[|s.history|] == Entry(tp, o, d, dead);
    assert Settled(s', tp, o);
  }

  lemma {:induction false} HistoryStays(s: State, valid: string -> bool, step: Step, i: nat)
    requires Inv(s, valid) && Enabled(s, valid, step) && i < |Do(s, valid, step).history|
    ensures Recorded(Do(s, valid, step), valid, Do(s, valid, step).history[i])
  {
    var s' := Do(s, valid, step);
    hide CanDeliver, AllSettled, Settled;
    if i < |s.history| {
      assert Recorded(s, valid, s.history[i]);
      assert s'.history[i] == s.history[i];
    }
    LogsGrow(s, valid, step, s'.history[i].tp);
    LogsGrow(s, valid, step, s'.history[i].dead);
  }

  lemma {:induction false} StepKeepsInv(s: State, valid: string -> bool, step: Step)
    requires Inv(s, valid) && Enabled(s, valid, step)
    ensures Inv(Do(s, valid, step), valid)
  {
    var s' := Do(s, valid, step);
    forall i | 0 <= i < |s'.history| ensures Recorded(s', valid, s'.history[i]) { HistoryStays(s, valid, step, i); }
    hide CanDeliver, Settled, AllSettled, Recorded;
    if step.Deliver? && Settles(step.d.outcome) { DeliverSettles(s, valid, step.m, step.tp, step.d, step.dead); }
    CommittedStays(s, valid, step);
    PositionsStay(s, valid, step);
  }

  lemma {:induction false} CommittedStays(s: State, valid: string -> bool, step: Step)
    requires Inv(s, valid) && Enabled(s, valid, step)
    ensures forall tp :: AllSettled(Do(s, valid, step), tp, Committed(Do(s, valid, step), tp))
  {
    var s' := Do(s, valid, step);
    assert step.Deliver? ==> (step.d.committed ==> Settles(step.d.outcome));
    hide CanDeliver, Settled, AllSettled, Recorded;
    if step.Deliver? && Settles(step.d.outcome) { DeliverSettles(s, valid, step.m, step.tp, step.d, step.dead); }
    forall tp ensures AllSettled(s', tp, Committed(s', tp)) {
      if Committed(s', tp) == Committed(s, tp) { SettledStays(s, valid, step, tp, Committed(s, tp)); }
    }
  }

  lemma {:induction false} PositionsStay(s: State, valid: string -> bool, step: Step)
    requires Inv(s, valid) && Enabled(s, valid, step)
    ensures var s' := Do(s, valid, step);
            forall m, tp :: tp in Positions(s', m) ==> AllSettled(s', tp, Positions(s', m)[tp])
  {
    var s' := Do(s, valid, step);
    hide CanDeliver, Settled, AllSettled, Recorded;
    if step.Deliver? && Settles(step.d.outcome) { DeliverSettles(s, valid, step.m, step.tp, step.d, step.dead); }
    forall m, tp | tp in Positions(s', m) ensures AllSettled(s', tp, Positions(s', m)[tp]) {
      if tp in Positions(s, m) && Positions(s, m)[tp] == Positions(s', m)[tp] {
        SettledStays(s, valid, step, tp, Positions(s, m)[tp]);
      } else if step.Assign? {
        SettledStays(s, valid, step, tp, Committed(s, tp));
      }
    }
  }

  lemma {:induction false} RunKeepsInv(s: State, valid: string -> bool, steps: seq<Step>)
    requires Inv(s, valid) && Ok(s, valid, steps)
    ensures Inv(Final(s, valid, steps), valid)
    decreases |steps|
  {
    if steps != [] {
      StepKeepsInv(s, valid, steps[0]);
      RunKeepsInv(Do(s, valid, steps[0]), valid, steps[1..]);
    }
  }

  /**
   * Commit safety.  Over every run, a committed offset means every earlier
   * record of the partition was handled, quarantined, or was itself a dead
   * letter; a quarantined record's intact copy is in a dead-letter log; and the
   * handler saw only documents of the header's tenant, at most three times per
   * delivery.
   */
  lemma {:induction false} CommitSafety(valid: string -> bool, steps: seq<Step>)
    requires Ok(Initial(), valid, steps)
    ensures var s := Final(Initial(), valid, steps);
            && (forall tp :: Committed(s, tp) <= |Log(s, tp)|)
            && (forall tp, o: nat :: o < Committed(s, tp) ==> Settled(s, tp, o))
            && (forall i :: 0 <= i < |s.history| ==> Recorded(s, valid, s.history[i]))
  {
    assert Inv(Initial(), valid);
    RunKeepsInv(Initial(), valid, steps);
    hide CanDeliver, Settled, Recorded;
    var s := Final(Initial(), valid, steps);
    assert forall tp :: AllSettled(s, tp, Committed(s, tp));
  }

  // ---------------------------------------------------------------- Consumer.Run

  /** A fetched record, by its partition: what happens when it is delivered, and where its dead letter would go. */
  datatype Item = Item(tp: Partition, script: Script, dead: Partition)

  function Flat(fetches: seq<seq<Item>>): seq<Item>
    decreases |fetches|
  {
    if fetches == [] then [] else fetches[0] + Flat(fetches[1..])
  }

  /** The broker returns records that exist, each partition's in order from the member's position. */
  ghost predicate Available(s: State, pos: map<Partition, nat>, items: seq<Item>)
    decreases |items|
  {
    items == [] || (
      && items[0].tp in pos && pos[items[0].tp] < |Log(s, items[0].tp)| && Scripted(items[0].script)
      && Available(s, pos[items[0].tp := pos[items[0].tp] + 1], items[1..]))
  }

  lemma {:induction false} AvailableStays(s: State, s': State, pos: map<Partition, nat>, items: seq<Item>)
    requires Available(s, pos, items) && forall tp :: Log(s, tp) <= Log(s', tp)
    ensures Available(s', pos, items)
    decreases |items|
  {
    if items != [] { AvailableStays(s, s', pos[items[0].tp := pos[items[0].tp] + 1], items[1..]); }
  }

  /** `d` is how the member's next record of the item's partition goes. */
  ghost predicate Delivers(s: State, valid: string -> bool, m: Member, x: Item, d: Delivery)
  {
    && Enabled(s, valid, Deliver(m, x.tp, d, x.dead)) && Scripted(x.script)
    && GoesAs(Log(s, x.tp)[Positions(s, m)[x.tp]], valid, x.script, d)
  }

  /** The items are delivered one after the other, each as its script says; only the last may be left unsettled. */
  ghost predicate Follows(s: State, valid: string -> bool, m: Member, items: seq<Item>, ds: seq<Delivery>)
    requires |items| == |ds|
    decreases |items|
  {
    items == [] || (
      && Delivers(s, valid, m, items[0], ds[0]) && (Settles(ds[0].outcome) || |ds| == 1)
      && Follows(Do(s, valid, Deliver(m, items[0].tp, ds[0], items[0].dead)), valid, m, items[1..], ds[1..]))
  }

  ghost function End(s: State, valid: string -> bool, m: Member, items: seq<Item>, ds: seq<Delivery>): State
    requires |items| == |ds| && Follows(s, valid, m, items, ds)
    decreases |items|
  {
    if items == [] then s else End(Do(s, valid, Deliver(m, items[0].tp, ds[0], items[0].dead)), valid, m, items[1..], ds[1..])
  }

  ghost predicate AllSettle(ds: seq<Delivery>) { forall d <- ds :: Settles(d.outcome) }

  lemma {:induction false} OneMore(s: State, valid: string -> bool, m: Member, items: seq<Item>, ds: seq<Delivery>, x: Item, d: Delivery)
    requires |items| == |ds| && Follows(s, valid, m, items, ds) && AllSettle(ds)
    requires Delivers(End(s, valid, m, items, ds), valid, m, x, d)
    ensures Follows(s, valid, m, items + [x], ds + [d])
    ensures End(s, valid, m, items + [x], ds + [d]) == Do(End(s, valid, m, items, ds), valid, Deliver(m, x.tp, d, x.dead))
    decreases |items|
  {
    hide Delivers, Settles, Enabled, Do;
    var all, each := items + [x], ds + [d];
    if items == [] {
      assert all[0] == x && each[0] == d && all[1..] == [] && each[1..] == [];
      assert Delivers(s, valid, m, x, d);
      DeliversIsEnabled(s, valid, m, x, d);
      assert Follows(Do(s, valid, Deliver(m, x.tp, d, x.dead)), valid, m, [], []);
    } else {
      assert all[0] == items[0] && each[0] == ds[0] && all[1..] == items[1..] + [x] && each[1..] == ds[1..] + [d];
      DeliversIsEnabled(s, valid, m, items[0], ds[0]);
      OneMore(Do(s, valid, Deliver(m, items[0].tp, ds[0], items[0].dead)), valid, m, items[1..], ds[1..], x, d);
    }
  }

  lemma {:induction false} DeliversIsEnabled(s: State, valid: string -> bool, m: Member, x: Item, d: Delivery)
    requires Delivers(s, valid, m, x, d)
    ensures Enabled(s, valid, Deliver(m, x.tp, d, x.dead))
  {
  }

  function Count(items: seq<Item>, tp: Partition): nat
  {
    if items == [] then 0 else (if items[0].tp == tp then 1 else 0) + Count(items[1..], tp)
  }

  /** One delivery: its entry, the member's positions, and the other members'. */
  lemma {:induction false} DeliveryMoves(s: State, valid: string -> bool, m: Member, x: Item, d: Delivery)
    requires Delivers(s, valid, m, x, d)
    ensures var s' := Do(s, valid, Deliver(m, x.tp, d, x.dead));
            && x.tp in Positions(s, m)
            && s'.history == s.history + [Entry(x.tp, Positions(s, m)[x.tp], d, x.dead)]
            && Positions(s', m) == (if Settles(d.outcome) then Positions(s, m)[x.tp := Positions(s, m)[x.tp] + 1] else map[])
            && forall m' :: m' != m ==> Positions(s', m') == Positions(s, m')
  {
    hide CanDeliver, GoesAs;
  }

  /** A run of deliveries adds one history entry per item, in order; no other member moves. */
  lemma {:induction false} FollowsInOrder(s: State, valid: string -> bool, m: Member, items: seq<Item>, ds: seq<Delivery>)
    requires |items| == |ds| && Follows(s, valid, m, items, ds)
    ensures var e := End(s, valid, m, items, ds);
            && s.history <= e.history && |e.history| == |s.history| + |items|
            && (forall k :: 0 <= k < |items| ==> EntryIs(s, m, items, ds[k], k, e.history[|s.history| + k]))
            && forall m' :: m' != m ==> Positions(e, m') == Positions(s, m')
    decreases |items|
  {
    if items != [] {
      var s1 := Do(s, valid, Deliver(m, items[0].tp, ds[0], items[0].dead));
      DeliveryMoves(s, valid, m, items[0], ds[0]);
      var e := End(s, valid, m, items, ds);
      FollowsInOrder(s1, valid, m, items[1..], ds[1..]);
      hide Delivers, Do, Enabled, Follows, End, Positions, Settles;
      forall k | 0 <= k < |items| ensures EntryIs(s, m, items, ds[k], k, e.history[|s.history| + k]) {
        if k == 0 {
          assert e.history[|s.history|] == s1.history[|s.history|];
        } else {
          assert EntryIs(s1, m, items[1..], ds[1..][k - 1], k - 1, e.history[|s1.history| + (k - 1)]);
          assert Settles(ds[0].outcome);
          assert items[..k][1..] == items[1..][..k - 1];
        }
      }
    }
  }

  /** The k-th delivery is of the item's partition, at the member's position after the earlier items of that partition. */
  ghost predicate EntryIs(s: State, m: Member, items: seq<Item>, d: Delivery, k: nat, e: Entry)
    requires k < |items|
  {
    var tp := items[k].tp;
    tp in Positions(s, m) && e == Entry(tp, Positions(s, m)[tp] + Count(items[..k], tp), d, items[k].dead)
  }

  /** After settled deliveries the member's positions are behind all of them. */
  lemma {:induction false} FollowsAdvances(s: State, valid: string -> bool, m: Member, items: seq<Item>, ds: seq<Delivery>)
    requires |items| == |ds| && Follows(s, valid, m, items, ds) && AllSettle(ds)
    ensures var e := End(s, valid, m, items, ds);
            && Positions(e, m).Keys == Positions(s, m).Keys
            && forall tp <- Positions(s, m) :: Positions(e, m)[tp] == Positions(s, m)[tp] + Count(items, tp)
    decreases |items|
  {
    if items != [] {
      var s1 := Do(s, valid, Deliver(m, items[0].tp, ds[0], items[0].dead));
      DeliveryMoves(s, valid, m, items[0], ds[0]);
      FollowsAdvances(s1, valid, m, items[1..], ds[1..]);
      hide Delivers, Do, Enabled, Positions;
    }
  }

  /** The items done so far were all settled, and the others are still to be fetched. */
  ghost predicate Ready(s0: State, s: State, valid: string -> bool, m: Member, done: seq<Item>, ds: seq<Delivery>, rest: seq<Item>)
  {
    && |done| == |ds| && AllSettle(ds) && Follows(s0, valid, m, done, ds) && s == End(s0, valid, m, done, ds)
    && Available(s, Positions(s, m), rest)
  }

  lemma {:induction false} ReadyNext(s0: State, s: State, valid: string -> bool, m: Member, done: seq<Item>, ds: seq<Delivery>, rest: seq<Item>, d: Delivery)
    requires Ready(s0, s, valid, m, done, ds, rest) && rest != [] && Delivers(s, valid, m, rest[0], d)
    ensures var s' := Do(s, valid, Deliver(m, rest[0].tp, d, rest[0].dead));
            && Follows(s0, valid, m, done + [rest[0]], ds + [d]) && s' == End(s0, valid, m, done + [rest[0]], ds + [d])
            && (Settles(d.outcome) ==> Ready(s0, s', valid, m, done + [rest[0]], ds + [d], rest[1..]))
  {
    OneMore(s0, valid, m, done, ds, rest[0], d);
    if Settles(d.outcome) { StillAvailable(s, valid, m, rest[0], d, rest); }
    hide Delivers, Do, Enabled, Follows, End, Available, Positions;
  }

  lemma {:induction false} StillAvailable(s: State, valid: string -> bool, m: Member, x: Item, d: Delivery, rest: seq<Item>)
    requires Delivers(s, valid, m, x, d) && Settles(d.outcome) && rest != [] && rest[0] == x && Available(s, Positions(s, m), rest)
    ensures var s' := Do(s, valid, Deliver(m, x.tp, d, x.dead)); Available(s', Positions(s', m), rest[1..])
  {
    var s' := Do(s, valid, Deliver(m, x.tp, d, x.dead));
    forall tp ensures Log(s, tp) <= Log(s', tp) { LogsGrow(s, valid, Deliver(m, x.tp, d, x.dead), tp); }
    AvailableStays(s, s', Positions(s', m), rest[1..]);
  }

  lemma {:induction false} NothingDone(s: State, valid: string -> bool, m: Member, rest: seq<Item>)
    requires Available(s, Positions(s, m), rest)
    ensures Ready(s, s, valid, m, [], [], rest)
  {
  }

  lemma {:induction false} ReadyIs(s0: State, s: State, valid: string -> bool, m: Member, done: seq<Item>, ds: seq<Delivery>, rest: seq<Item>)
    requires Ready(s0, s, valid, m, done, ds, rest)
    ensures |done| == |ds| && AllSettle(ds) && Follows(s0, valid, m, done, ds) && s == End(s0, valid, m, done, ds)
    ensures rest != [] ==> Available(s, Positions(s, m), [rest[0]])
  {
    if rest != [] {
      var x := rest[0];
      assert [x][0] == x && [x][1..] == [];
      assert Available(s, Positions(s, m)[x.tp := Positions(s, m)[x.tp] + 1], []);
    }
  }

  /** The broker and the consumers attached to it. */
  class Broker {
    const valid: string -> bool
    var st: State

    constructor (valid: string -> bool)
      ensures this.valid == valid && st == Initial() && Inv(st, valid)
    {
      this.valid, st := valid, State(map[], map[], map[], []);
    }

    method Take(step: Step)
      requires Inv(st, valid) && Enabled(st, valid, step)
      modifies this
      ensures Inv(st, valid) && st == Do(old(st), valid, step)
    {
      StepKeepsInv(st, valid, step);
      hide Inv, CanDeliver;
      st := Do(st, valid, step);
    }

    /** processRecord on member `m`'s next record of a partition. */
    method ProcessNext(m: Member, x: Item) returns (d: Delivery)
      requires Inv(st, valid) && Available(st, Positions(st, m), [x])
      modifies this
      ensures Inv(st, valid) && Delivers(old(st), valid, m, x, d) && st == Do(old(st), valid, Deliver(m, x.tp, d, x.dead))
    {
      d := ProcessRecord(Log(st, x.tp)[Positions(st, m)[x.tp]], valid, x.script);
      hide Inv;
      Take(Deliver(m, x.tp, d, x.dead));
    }

    /**
     * Run over the given fetches, with the deliveries it makes: of the fetched
     * records in order, each as its script says, up to and including the first
     * that is not settled.
     */
    method Run(m: Member, fetches: seq<seq<Item>>) returns (stopped: bool, ds: seq<Delivery>)
      requires Inv(st, valid) && Available(st, Positions(st, m), Flat(fetches))
      modifies this
      ensures Inv(st, valid) && |ds| <= |Flat(fetches)|
      ensures Follows(old(st), valid, m, Flat(fetches)[..|ds|], ds) && st == End(old(st), valid, m, Flat(fetches)[..|ds|], ds)
      ensures if stopped then ds != [] && !Settles(ds[|ds| - 1].outcome) else |ds| == |Flat(fetches)| && AllSettle(ds)
    {
      ds := [];
      ghost var done, rest: seq<Item> := [], Flat(fetches);
      hide Inv, Delivers, Enabled, Do, Settles, Ready, Follows, End, Available, Positions, AllSettle;
      assert Ready(st, st, valid, m, [], [], rest) by { NothingDone(st, valid, m, rest); }
      for i := 0 to |fetches|
        invariant Inv(st, valid) && Ready(old(st), st, valid, m, done, ds, rest)
        invariant done + rest == Flat(fetches) && rest == Flat(fetches[i..])
      {
        for j := 0 to |fetches[i]|
          invariant Inv(st, valid) && Ready(old(st), st, valid, m, done, ds, rest)
          invariant done + rest == Flat(fetches) && rest == fetches[i][j..] + Flat(fetches[i + 1..])
        {
          var x := fetches[i][j];
          assert rest[0] == x && rest[1..] == fetches[i][j + 1..] + Flat(fetches[i + 1..]);
          ghost var s := st;
          ReadyIs(old(st), s, valid, m, done, ds, rest);
          var d := ProcessNext(m, x);
          ReadyNext(old(st), s, valid, m, done, ds, rest, d);
          ds, done := ds + [d], done + [x];
          if !Settles(d.outcome) {
            assert Flat(fetches)[..|ds|] == done;
            return true, ds;
          }
          rest := rest[1..];
        }
      }
      ReadyIs(old(st), st, valid, m, done, ds, rest);
      assert rest == [] && done == Flat(fetches) == Flat(fetches)[..|ds|];
      stopped := false;
    }
  }
}
