/**
At-least-once delivery into a last-writer-wins index.  Records are handled
again after every restart and rebalance, possibly several times and out of step
with the commits; once a member has reached the end of a partition, the index is
nevertheless what applying the partition once, in order, would have made it.
*/
module KafkaRedelivery {
  import opened Common
  import opened KafkaConsumer
  import opened KafkaDelivery

  type Key = (string, string)

  function KeyOf(d: Document): Key { (d.tenant, d.id) }

  type Index = map<Key, string>

  /** An upsert replaces the whole document, a tombstone removes it. */
  function Write(ix: Index, d: Document): Index
  {
    match d.body
    case Some(text) => ix[KeyOf(d) := text]
    case None => ix - {KeyOf(d)}
  }

  /** Apply the accepted records of a log once, in order. */
  function Replay(log: seq<Record>, valid: string -> bool): Index
  {
    if log == [] then map[]
    else
      var n := |log| - 1;
      match Accepted(log[n], valid)
      case Some(d) => Write(Replay(log[..n], valid), d)
      case None => Replay(log[..n], valid)
  }

  // ---------------------------------------------------------------- consumers that write

  /** The consumers and the index; `high` bounds the offsets of the watched partition that have been delivered. */
  datatype World = World(st: State, index: Index, high: nat)

  /** A step of the consumers; `wrote` says whether some handler call of a delivery got as far as its write. */
  datatype Move = Move(step: Step, wrote: bool)

  /** A successful call has written; only a call can write. */
  predicate Fits(mv: Move)
  {
    && (mv.wrote ==> mv.step.Deliver? && mv.step.d.calls != [])
    && (mv.step.Deliver? && mv.step.d.outcome.Handled? ==> mv.wrote)
  }

  predicate Can(w: World, valid: string -> bool, mv: Move) { Enabled(w.st, valid, mv.step) && Fits(mv) }

  function Apply(w: World, valid: string -> bool, tp: Partition, mv: Move): World
    requires Can(w, valid, mv)
  {
    var index := if mv.wrote then Write(w.index, mv.step.d.calls[0].1) else w.index;
    var offset := if mv.step.Deliver? && mv.step.tp == tp then Positions(w.st, mv.step.m)[tp] + 1 else 0;
    World(Do(w.st, valid, mv.step), index, if offset > w.high then offset else w.high)
  }

  predicate Oks(w: World, valid: string -> bool, tp: Partition, moves: seq<Move>)
    decreases |moves|
  {
    moves == [] || (Can(w, valid, moves[0]) && Oks(Apply(w, valid, tp, moves[0]), valid, tp, moves[1..]))
  }

  function End(w: World, valid: string -> bool, tp: Partition, moves: seq<Move>): World
    requires Oks(w, valid, tp, moves)
    decreases |moves|
  {
    if moves == [] then w else End(Apply(w, valid, tp, moves[0]), valid, tp, moves[1..])
  }

  function Start(): World { World(Initial(), map[], 0) }

  /** Some member holds the partition. */
  predicate Holds(s: State, m: Member, tp: Partition) { tp in Positions(s, m) }

  /** The group gives a partition to one member at a time, and no acceptable record of it is settled unhandled. */
  ghost predicate Fair(w: World, valid: string -> bool, tp: Partition, mv: Move)
    requires Can(w, valid, mv)
  {
    && (mv.step.Assign? && mv.step.tp == tp ==> forall m :: Holds(w.st, m, tp) ==> m == mv.step.m)
    && (Here(mv, tp) && Accepted(Log(w.st, tp)[Positions(w.st, mv.step.m)[tp]], valid).Some? ==> mv.step.d.outcome.Handled?)
  }

  /** The move settles a record of the partition. */
  predicate Here(mv: Move, tp: Partition) { mv.step.Deliver? && mv.step.tp == tp && Settles(mv.step.d.outcome) }

  ghost predicate FairRun(w: World, valid: string -> bool, tp: Partition, moves: seq<Move>)
    requires Oks(w, valid, tp, moves)
    decreases |moves|
  {
    moves == [] || (Fair(w, valid, tp, moves[0]) && FairRun(Apply(w, valid, tp, moves[0]), valid, tp, moves[1..]))
  }

  /** No other partition has a record with one of these keys (records are keyed by tenant and document). */
  ghost predicate Owned(s: State, valid: string -> bool, tp: Partition, K: set<Key>)
  {
    forall x, i :: x != tp && 0 <= i < |Log(s, x)| && Accepted(Log(s, x)[i], valid).Some? ==> KeyOf(Accepted(Log(s, x)[i], valid).value) !in K
  }

  // ---------------------------------------------------------------- the invariant

  predicate WritesAt(rec: Record, valid: string -> bool, k: Key)
  {
    Accepted(rec, valid).Some? && KeyOf(Accepted(rec, valid).value) == k
  }

  /** Some record in the given range writes `k`. */
  predicate Writes(log: seq<Record>, valid: string -> bool, from: nat, to: nat, k: Key)
  {
    exists i :: from <= i < to && i < |log| && WritesAt(log[i], valid, k)
  }

  /** What no record between `p` and `high` writes is as replaying up to `p` makes it. */
  ghost predicate Agrees(log: seq<Record>, valid: string -> bool, index: Index, high: nat, p: nat, k: Key)
  {
    p <= high <= |log| && (!Writes(log, valid, p, high, k) ==> Lookup(index, k) == Lookup(Replay(log[..p], valid), k))
  }

  ghost predicate Converging(w: World, valid: string -> bool, tp: Partition, K: set<Key>)
  {
    && (forall m, m' :: Holds(w.st, m, tp) && Holds(w.st, m', tp) ==> m == m')
    && (forall m :: Holds(w.st, m, tp) ==> Committed(w.st, tp) <= Positions(w.st, m)[tp])
    && Committed(w.st, tp) <= w.high <= |Log(w.st, tp)|
    && (forall k <- K :: Agrees(Log(w.st, tp), valid, w.index, w.high, Committed(w.st, tp), k))
    && (forall m, k :: Holds(w.st, m, tp) && k in K ==> Agrees(Log(w.st, tp), valid, w.index, w.high, Positions(w.st, m)[tp], k))
  }

  lemma {:induction false} ReplayNext(log: seq<Record>, valid: string -> bool, n: nat, k: Key)
    requires n < |log|
    ensures Lookup(Replay(log[..n + 1], valid), k)
         == if WritesAt(log[n], valid, k) then Accepted(log[n], valid).value.body else Lookup(Replay(log[..n], valid), k)
  {
    assert log[..n + 1][..n] == log[..n];
    hide Accepted;
  }

  /** Replaying a stretch that never writes `k` leaves `k` alone. */
  lemma {:induction false} ReplaySkips(log: seq<Record>, valid: string -> bool, from: nat, to: nat, k: Key)
    requires from <= to <= |log| && !Writes(log, valid, from, to, k)
    ensures Lookup(Replay(log[..to], valid), k) == Lookup(Replay(log[..from], valid), k)
  {
    if from < to {
      hide WritesAt, Replay;
      assert !WritesAt(log[to - 1], valid, k);
      assert !Writes(log, valid, from, to - 1, k);
      ReplaySkips(log, valid, from, to - 1, k);
      ReplayNext(log, valid, to - 1, k);
    }
  }

  /** More records do not matter. */
  lemma {:induction false} AgreesGrown(log: seq<Record>, log': seq<Record>, valid: string -> bool, index: Index, high: nat, p: nat, k: Key)
    requires Agrees(log, valid, index, high, p, k) && log <= log'
    ensures Agrees(log', valid, index, high, p, k)
  {
    hide Replay, WritesAt;
    assert log'[..p] == log[..p];
    assert forall i :: 0 <= i < |log| ==> log'[i] == log[i];
    if !Writes(log', valid, p, high, k) { assert !Writes(log, valid, p, high, k); }
  }

  /** A write of some other key does not matter. */
  lemma {:induction false} AgreesElsewhere(log: seq<Record>, valid: string -> bool, index: Index, d: Document, high: nat, p: nat, k: Key)
    requires Agrees(log, valid, index, high, p, k) && KeyOf(d) != k
    ensures Agrees(log, valid, Write(index, d), high, p, k)
  {
    hide Replay, Writes;
    assert Lookup(Write(index, d), k) == Lookup(index, k);
  }

  /** Writing the record at `o`: agreement stays at every position up to `o`. */
  lemma {:induction false} AgreesRewritten(log: seq<Record>, valid: string -> bool, index: Index, high: nat, high': nat, o: nat, p: nat, k: Key)
    requires Agrees(log, valid, index, high, p, k) && p <= o < |log| && Accepted(log[o], valid).Some?
    requires high' == if o + 1 > high then o + 1 else high
    ensures Agrees(log, valid, Write(index, Accepted(log[o], valid).value), high', p, k)
  {
    var d := Accepted(log[o], valid).value;
    hide Replay;
    if !Writes(log, valid, p, high', k) {
      assert !WritesAt(log[o], valid, k);
      assert !Writes(log, valid, p, high, k) by { hide WritesAt; }
      assert Lookup(Write(index, d), k) == Lookup(index, k);
    }
  }

  /** ... and is reached just after it. */
  lemma {:induction false} AgreesAfter(log: seq<Record>, valid: string -> bool, index: Index, high: nat, high': nat, o: nat, k: Key)
    requires Agrees(log, valid, index, high, o, k) && o < |log| && Accepted(log[o], valid).Some?
    requires high' == if o + 1 > high then o + 1 else high
    ensures Agrees(log, valid, Write(index, Accepted(log[o], valid).value), high', o + 1, k)
  {
    var d := Accepted(log[o], valid).value;
    ReplayNext(log, valid, o, k);
    hide Replay;
    if !Writes(log, valid, o + 1, high', k) && KeyOf(d) != k {
      assert !Writes(log, valid, o, high, k) by {
        assert !WritesAt(log[o], valid, k);
        hide WritesAt;
      }
    }
  }

  /** A record nobody accepts can be passed over. */
  lemma {:induction false} AgreesPast(log: seq<Record>, valid: string -> bool, index: Index, high: nat, high': nat, o: nat, k: Key)
    requires Agrees(log, valid, index, high, o, k) && o < |log| && Accepted(log[o], valid).None?
    requires high' == if o + 1 > high then o + 1 else high
    ensures Agrees(log, valid, index, high', o + 1, k)
  {
    assert !WritesAt(log[o], valid, k);
    hide Replay, WritesAt, Accepted;
    ReplayNext(log, valid, o, k);
    if !Writes(log, valid, o + 1, high', k) { assert !Writes(log, valid, o, high, k); }
  }

  /** Neither does a higher bound matter. */
  lemma {:induction false} AgreesRaised(log: seq<Record>, valid: string -> bool, index: Index, high: nat, high': nat, p: nat, k: Key)
    requires Agrees(log, valid, index, high, p, k) && high <= high' <= |log|
    ensures Agrees(log, valid, index, high', p, k)
  {
    hide Replay, WritesAt;
    if !Writes(log, valid, p, high', k) { assert !Writes(log, valid, p, high, k); }
  }

  // ---------------------------------------------------------------- steps

  /** What a delivery's handler calls saw is the record it is about. */
  lemma {:induction false} CallSees(s: State, valid: string -> bool, step: Step)
    requires Enabled(s, valid, step) && step.Deliver? && step.d.calls != []
    ensures Accepted(Log(s, step.tp)[Positions(s, step.m)[step.tp]], valid) == Some(step.d.calls[0].1)
  {
    assert step.d.calls[0] in step.d.calls;
  }

  lemma {:induction false} OtherKey(w: World, valid: string -> bool, tp: Partition, mv: Move, K: set<Key>)
    requires Can(w, valid, mv) && mv.wrote && mv.step.tp != tp && Owned(w.st, valid, tp, K)
    ensures KeyOf(mv.step.d.calls[0].1) !in K
  {
    CallSees(w.st, valid, mv.step);
    hide Accepted, CanDeliver;
  }

  /** Agreement survives a move at every position the move does not step back over. */
  lemma {:induction false} MoveAgrees(w: World, valid: string -> bool, tp: Partition, mv: Move, K: set<Key>, p: nat, k: Key)
    requires Can(w, valid, mv) && Owned(w.st, valid, tp, K) && k in K
    requires Agrees(Log(w.st, tp), valid, w.index, w.high, p, k)
    requires mv.wrote && mv.step.tp == tp ==> p <= Positions(w.st, mv.step.m)[tp]
    ensures var w' := Apply(w, valid, tp, mv); Agrees(Log(w'.st, tp), valid, w'.index, w'.high, p, k)
  {
    var w' := Apply(w, valid, tp, mv);
    LogsGrow(w.st, valid, mv.step, tp);
    assert w'.high <= |Log(w.st, tp)|;
    if !mv.wrote {
      AgreesRaised(Log(w.st, tp), valid, w.index, w.high, w'.high, p, k);
    } else {
      CallSees(w.st, valid, mv.step);
      if mv.step.tp == tp {
        AgreesRewritten(Log(w.st, tp), valid, w.index, w.high, w'.high, Positions(w.st, mv.step.m)[tp], p, k);
      } else {
        OtherKey(w, valid, tp, mv, K);
        AgreesElsewhere(Log(w.st, tp), valid, w.index, mv.step.d.calls[0].1, w.high, p, k);
      }
    }
    hide Agrees, Do, Write, Accepted, CanDeliver;
    AgreesGrown(Log(w.st, tp), Log(w'.st, tp), valid, w'.index, w'.high, p, k);
  }

  /** A settled record of the partition is agreed on from then on. */
  lemma {:induction false} SettledAgrees(w: World, valid: string -> bool, tp: Partition, mv: Move, k: Key)
    requires Can(w, valid, mv) && Here(mv, tp) && Fair(w, valid, tp, mv)
    requires Agrees(Log(w.st, tp), valid, w.index, w.high, Positions(w.st, mv.step.m)[tp], k)
    ensures var w' := Apply(w, valid, tp, mv); Agrees(Log(w'.st, tp), valid, w'.index, w'.high, Positions(w.st, mv.step.m)[tp] + 1, k)
  {
    var w' := Apply(w, valid, tp, mv);
    var o := Positions(w.st, mv.step.m)[tp];
    LogsGrow(w.st, valid, mv.step, tp);
    if mv.step.d.calls != [] { CallSees(w.st, valid, mv.step); }
    hide Agrees, Accepted, Write, CanDeliver;
    if mv.step.d.outcome.Handled? {
      AgreesAfter(Log(w.st, tp), valid, w.index, w.high, w'.high, o, k);
    } else {
      AgreesPast(Log(w.st, tp), valid, w.index, w.high, w'.high, o, k);
    }
    AgreesGrown(Log(w.st, tp), Log(w'.st, tp), valid, w'.index, w'.high, o + 1, k);
  }

  /** Where the holder of the partition stands after a move, and what is committed. */
  lemma {:induction false} Standing(w: World, valid: string -> bool, tp: Partition, mv: Move, m: Member)
    requires Can(w, valid, mv) && Fair(w, valid, tp, mv)
    ensures var s, s' := w.st, Apply(w, valid, tp, mv).st;
            var here := Here(mv, tp);
            && (Holds(s', m, tp) ==>
                  || (Holds(s, m, tp) && Positions(s', m)[tp] == Positions(s, m)[tp] && !(here && m == mv.step.m))
                  || (here && m == mv.step.m && Holds(s, m, tp) && Positions(s', m)[tp] == Positions(s, m)[tp] + 1)
                  || (mv.step.Assign? && mv.step.m == m && mv.step.tp == tp && Positions(s', m)[tp] == Committed(s, tp)))
            && (Committed(s', tp) == Committed(s, tp) || (here && Committed(s', tp) == Positions(s, mv.step.m)[tp] + 1))
  {
    assert mv.step.Deliver? && mv.step.d.committed ==> Settles(mv.step.d.outcome);
    hide CanDeliver;
  }

  lemma {:induction false} MoveConverges(w: World, valid: string -> bool, tp: Partition, mv: Move, K: set<Key>)
    requires Converging(w, valid, tp, K) && Can(w, valid, mv) && Fair(w, valid, tp, mv) && Owned(w.st, valid, tp, K)
    ensures Converging(Apply(w, valid, tp, mv), valid, tp, K)
  {
    var w' := Apply(w, valid, tp, mv);
    var s, s' := w.st, w'.st;
    LogsGrow(s, valid, mv.step, tp);
    assert mv.step.Deliver? ==> Holds(s, mv.step.m, mv.step.tp);
    assert w'.high <= |Log(s', tp)| by { hide CanDeliver; }
    forall m ensures Holds(s', m, tp) ==> Committed(s', tp) <= Positions(s', m)[tp] {
      Standing(w, valid, tp, mv, m);
      hide Apply, Do, Agrees, CanDeliver;
    }
    Standing(w, valid, tp, mv, if mv.step.Deliver? then mv.step.m else 0);
    assert Committed(s', tp) <= w'.high;
    forall k | k in K ensures Agrees(Log(s', tp), valid, w'.index, w'.high, Committed(s', tp), k) { CommittedAgrees(w, valid, tp, mv, K, k); }
    forall m, k | Holds(s', m, tp) && k in K ensures Agrees(Log(s', tp), valid, w'.index, w'.high, Positions(s', m)[tp], k) {
      HolderAgrees(w, valid, tp, mv, K, m, k);
    }
    forall m, m' | Holds(s', m, tp) && Holds(s', m', tp) ensures m == m' {
      Standing(w, valid, tp, mv, m);
      Standing(w, valid, tp, mv, m');
      hide Apply, Do, Agrees, CanDeliver;
    }
    hide Apply, Do, Agrees, CanDeliver;
  }

  lemma {:induction false} CommittedAgrees(w: World, valid: string -> bool, tp: Partition, mv: Move, K: set<Key>, k: Key)
    requires Converging(w, valid, tp, K) && Can(w, valid, mv) && Fair(w, valid, tp, mv) && Owned(w.st, valid, tp, K) && k in K
    ensures var w' := Apply(w, valid, tp, mv); Agrees(Log(w'.st, tp), valid, w'.index, w'.high, Committed(w'.st, tp), k)
  {
    var w' := Apply(w, valid, tp, mv);
    var m := if mv.step.Deliver? then mv.step.m else 0;
    Standing(w, valid, tp, mv, m);
    assert mv.wrote ==> Holds(w.st, m, mv.step.tp);
    hide Apply, Do, Agrees, CanDeliver, Owned;
    if Committed(w'.st, tp) == Committed(w.st, tp) {
      MoveAgrees(w, valid, tp, mv, K, Committed(w.st, tp), k);
    } else {
      SettledAgrees(w, valid, tp, mv, k);
    }
  }

  lemma {:induction false} HolderAgrees(w: World, valid: string -> bool, tp: Partition, mv: Move, K: set<Key>, m: Member, k: Key)
    requires Converging(w, valid, tp, K) && Can(w, valid, mv) && Fair(w, valid, tp, mv) && Owned(w.st, valid, tp, K) && k in K
    requires Holds(Apply(w, valid, tp, mv).st, m, tp)
    ensures var w' := Apply(w, valid, tp, mv); Agrees(Log(w'.st, tp), valid, w'.index, w'.high, Positions(w'.st, m)[tp], k)
  {
    var w' := Apply(w, valid, tp, mv);
    Standing(w, valid, tp, mv, m);
    assert mv.wrote ==> mv.step.Deliver? && Holds(w.st, mv.step.m, mv.step.tp);
    hide Apply, Do, Agrees, CanDeliver, Owned;
    if Here(mv, tp) && m == mv.step.m {
      SettledAgrees(w, valid, tp, mv, k);
    } else if mv.step.Assign? && mv.step.m == m && mv.step.tp == tp {
      MoveAgrees(w, valid, tp, mv, K, Committed(w.st, tp), k);
    } else {
      MoveAgrees(w, valid, tp, mv, K, Positions(w.st, m)[tp], k);
    }
  }

  // ---------------------------------------------------------------- runs

  /** The consumers' steps, without the writes. */
  function Steps(moves: seq<Move>): (steps: seq<Step>)
    ensures |steps| == |moves|
  {
    if moves == [] then [] else [moves[0].step] + Steps(moves[1..])
  }

  /** The runs with writes are the consumers' runs, with any choice of writes that fits. */
  lemma {:induction false} SameRuns(w: World, valid: string -> bool, tp: Partition, moves: seq<Move>)
    ensures Oks(w, valid, tp, moves) <==> Ok(w.st, valid, Steps(moves)) && forall mv <- moves :: Fits(mv)
    ensures Oks(w, valid, tp, moves) ==> End(w, valid, tp, moves).st == Final(w.st, valid, Steps(moves))
    decreases |moves|
  {
    if moves != [] {
      assert Steps(moves)[0] == moves[0].step && Steps(moves)[1..] == Steps(moves[1..]);
      assert moves == [moves[0]] + moves[1..];
      if Can(w, valid, moves[0]) {
        SameRuns(Apply(w, valid, tp, moves[0]), valid, tp, moves[1..]);
      }
      hide Enabled, Do;
    }
  }

  /** Keys owned at the end were owned all along: logs only grow. */
  lemma {:induction false} OwnedBefore(w: World, valid: string -> bool, tp: Partition, mv: Move, K: set<Key>)
    requires Can(w, valid, mv) && Owned(Apply(w, valid, tp, mv).st, valid, tp, K)
    ensures Owned(w.st, valid, tp, K)
  {
    var s' := Apply(w, valid, tp, mv).st;
    forall x, i | x != tp && 0 <= i < |Log(w.st, x)| && Accepted(Log(w.st, x)[i], valid).Some?
      ensures KeyOf(Accepted(Log(w.st, x)[i], valid).value) !in K
    {
      LogsGrow(w.st, valid, mv.step, x);
      assert Log(s', x)[i] == Log(w.st, x)[i];
      hide Accepted, Do, CanDeliver;
    }
  }

  lemma {:induction false} OwnedThroughout(w: World, valid: string -> bool, tp: Partition, moves: seq<Move>, K: set<Key>)
    requires Oks(w, valid, tp, moves) && Owned(End(w, valid, tp, moves).st, valid, tp, K)
    ensures Owned(w.st, valid, tp, K)
    decreases |moves|
  {
    if moves != [] {
      hide Owned, Enabled, Do, Fits;
      OwnedThroughout(Apply(w, valid, tp, moves[0]), valid, tp, moves[1..], K);
      OwnedBefore(w, valid, tp, moves[0], K);
    }
  }

  lemma {:induction false} RunConverges(w: World, valid: string -> bool, tp: Partition, moves: seq<Move>, K: set<Key>)
    requires Converging(w, valid, tp, K) && Oks(w, valid, tp, moves) && FairRun(w, valid, tp, moves)
    requires Owned(End(w, valid, tp, moves).st, valid, tp, K)
    ensures Converging(End(w, valid, tp, moves), valid, tp, K)
    decreases |moves|
  {
    if moves != [] {
      OwnedThroughout(w, valid, tp, moves, K);
      hide Owned, Enabled, Do, Fits, Converging, Fair;
      MoveConverges(w, valid, tp, moves[0], K);
      RunConverges(Apply(w, valid, tp, moves[0]), valid, tp, moves[1..], K);
    }
  }

  /**
   * Redelivery converges.  Over every run of any members, with crashes, failed
   * commits and rebalances, once the holder of a partition has reached its end
   * the index has, for every key of that partition, exactly what applying the
   * partition once in order gives.
   */
  lemma {:induction false} RedeliveryConverges(valid: string -> bool, tp: Partition, moves: seq<Move>, K: set<Key>, m: Member)
    requires Oks(Start(), valid, tp, moves) && FairRun(Start(), valid, tp, moves)
    requires Owned(End(Start(), valid, tp, moves).st, valid, tp, K)
    requires var s := End(Start(), valid, tp, moves).st; Holds(s, m, tp) && Positions(s, m)[tp] == |Log(s, tp)|
    ensures var w := End(Start(), valid, tp, moves);
            forall k <- K :: Lookup(w.index, k) == Lookup(Replay(Log(w.st, tp), valid), k)
  {
    assert Converging(Start(), valid, tp, K);
    RunConverges(Start(), valid, tp, moves, K);
    var w := End(Start(), valid, tp, moves);
    var n := |Log(w.st, tp)|;
    hide Replay, Oks, FairRun, Owned, End, WritesAt;
    forall k | k in K ensures Lookup(w.index, k) == Lookup(Replay(Log(w.st, tp), valid), k) {
      assert Agrees(Log(w.st, tp), valid, w.index, w.high, n, k);
      assert !Writes(Log(w.st, tp), valid, n, w.high, k);
      assert Log(w.st, tp)[..n] == Log(w.st, tp);
    }
  }

  // ---------------------------------------------------------------- what the conditions are for

  /** A run of one move and then the rest. */
  lemma {:induction false} OksCons(w: World, valid: string -> bool, tp: Partition, mv: Move, rest: seq<Move>)
    requires Can(w, valid, mv) && Oks(Apply(w, valid, tp, mv), valid, tp, rest)
    ensures Oks(w, valid, tp, [mv] + rest)
    ensures End(w, valid, tp, [mv] + rest) == End(Apply(w, valid, tp, mv), valid, tp, rest)
  {
    assert ([mv] + rest)[1..] == rest;
  }

  /** Produce one record to a fresh partition and give the partition to `m`. */
  function Fed(tp: Partition, rec: Record, m: Member): World
  {
    World(Initial().(logs := map[tp := [rec]], members := map[m := map[tp := 0]]), map[], 0)
  }

  lemma {:induction false} FedIsReached(valid: string -> bool, tp: Partition, rec: Record, m: Member, rest: seq<Move>)
    requires Oks(Fed(tp, rec, m), valid, tp, rest)
    ensures var moves := [Move(Produce(tp, rec), false)] + ([Move(Assign(m, tp), false)] + rest);
            Oks(Start(), valid, tp, moves) && End(Start(), valid, tp, moves) == End(Fed(tp, rec, m), valid, tp, rest)
  {
    var p, a := Move(Produce(tp, rec), false), Move(Assign(m, tp), false);
    var w := Apply(Start(), valid, tp, p);
    assert w.st.logs == map[tp := [rec]] by { assert [] + [rec] == [rec]; }
    assert map[][tp := 0] == map[tp := 0];
    assert Apply(w, valid, tp, a).st.members == map[m := map[tp := 0]];
    OksCons(w, valid, tp, a, rest);
    OksCons(Start(), valid, tp, p, [a] + rest);
  }

  /**
   * Handling every acceptable record is needed: after three failed attempts the
   * record is quarantined and committed, the member is at the end, and the
   * index lacks the document.
   */
  lemma {:induction false} QuarantineLosesTheWrite(valid: string -> bool, tp: Partition, rec: Record, m: Member, dead: Partition, cause: string)
    requires Accepted(rec, valid).Some? && Accepted(rec, valid).value.body.Some? && dead != tp
    ensures var d := Accepted(rec, valid).value;
            var call := (d.tenant, d);
            var deliver := Deliver(m, tp, Delivery(Quarantined(DeadLetterCopy(rec, cause)), [call, call, call], true), dead);
            var moves := [Move(Produce(tp, rec), false)] + ([Move(Assign(m, tp), false)] + [Move(deliver, false)]);
            && Oks(Start(), valid, tp, moves)
            && var w := End(Start(), valid, tp, moves);
               && Log(w.st, tp) == [rec] && Committed(w.st, tp) == 1
               && Holds(w.st, m, tp) && Positions(w.st, m)[tp] == 1
               && KeyOf(d) !in w.index && Lookup(Replay(Log(w.st, tp), valid), KeyOf(d)) == d.body
  {
    var d := Accepted(rec, valid).value;
    var call := (d.tenant, d);
    var mv := Move(Deliver(m, tp, Delivery(Quarantined(DeadLetterCopy(rec, cause)), [call, call, call], true), dead), false);
    var w := Fed(tp, rec, m);
    assert Can(w, valid, mv);
    OksCons(w, valid, tp, mv, []);
    assert [mv] + [] == [mv];
    FedIsReached(valid, tp, rec, m, [mv]);
    ReplayNext([rec], valid, 0, KeyOf(d));
    assert [rec][..1] == [rec];
  }

  /** A delivery whose one handler call wrote and whose commit failed. */
  function Handling(m: Member, tp: Partition, d: Document): Move { Move(Deliver(m, tp, Delivery(Handled, [(d.tenant, d)], false), tp), true) }

  /** Both records handled by `m`, then the first again by `m'`. */
  function Overtaken(tp: Partition, d: Document, d': Document, m: Member, m': Member): seq<Move>
  {
    [Handling(m, tp, d)] + ([Handling(m, tp, d')] + [Handling(m', tp, d)])
  }

  /** Two records of one key in the partition, held by two members. */
  function Shared(tp: Partition, rec: Record, rec': Record, m: Member, m': Member): World
  {
    World(Initial().(logs := map[tp := [rec, rec']], members := map[m := map[tp := 0], m' := map[tp := 0]]), map[], 0)
  }

  lemma {:induction false} SharedIsReached(valid: string -> bool, tp: Partition, rec: Record, rec': Record, m: Member, m': Member, rest: seq<Move>)
    requires Oks(Shared(tp, rec, rec', m, m'), valid, tp, rest) && m != m'
    ensures var moves := [Move(Produce(tp, rec), false)] + ([Move(Assign(m, tp), false)]
                       + ([Move(Produce(tp, rec'), false)] + ([Move(Assign(m', tp), false)] + rest)));
            Oks(Start(), valid, tp, moves) && End(Start(), valid, tp, moves) == End(Shared(tp, rec, rec', m, m'), valid, tp, rest)
  {
    var p, a := Move(Produce(tp, rec'), false), Move(Assign(m', tp), false);
    var w := Fed(tp, rec, m);
    var w1 := Apply(w, valid, tp, p);
    assert w1.st.logs == map[tp := [rec, rec']] by { assert [rec] + [rec'] == [rec, rec']; }
    assert Apply(w1, valid, tp, a).st.members == map[m := map[tp := 0], m' := map[tp := 0]];
    OksCons(w1, valid, tp, a, rest);
    OksCons(w, valid, tp, p, [a] + rest);
    FedIsReached(valid, tp, rec, m, [p] + ([a] + rest));
  }

  lemma {:induction false} HandlingIs(w: World, valid: string -> bool, tp: Partition, m: Member, d: Document, o: nat)
    requires Positions(w.st, m) == map[tp := o] && o < |Log(w.st, tp)| && Accepted(Log(w.st, tp)[o], valid) == Some(d)
    ensures Can(w, valid, Handling(m, tp, d))
    ensures var w' := Apply(w, valid, tp, Handling(m, tp, d));
            && w'.st.logs == w.st.logs && w'.st.members == w.st.members[m := map[tp := o + 1]]
            && Lookup(w'.index, KeyOf(d)) == d.body
  {
    assert Positions(w.st, m)[tp := o + 1] == map[tp := o + 1];
  }

  lemma {:induction false} OvertakenRun(valid: string -> bool, tp: Partition, rec: Record, rec': Record, m: Member, m': Member)
    requires Accepted(rec, valid).Some? && Accepted(rec', valid).Some? && m != m'
    ensures var d, d' := Accepted(rec, valid).value, Accepted(rec', valid).value;
            var w := Shared(tp, rec, rec', m, m');
            && Oks(w, valid, tp, Overtaken(tp, d, d', m, m'))
            && var w' := End(w, valid, tp, Overtaken(tp, d, d', m, m'));
               && Log(w'.st, tp) == [rec, rec'] && Positions(w'.st, m) == map[tp := 2]
               && Lookup(w'.index, KeyOf(d)) == d.body
  {
    var d, d' := Accepted(rec, valid).value, Accepted(rec', valid).value;
    var w := Shared(tp, rec, rec', m, m');
    hide Can, Apply, Accepted;
    HandlingIs(w, valid, tp, m, d, 0);
    var w1 := Apply(w, valid, tp, Handling(m, tp, d));
    HandlingIs(w1, valid, tp, m, d', 1);
    var w2 := Apply(w1, valid, tp, Handling(m, tp, d'));
    HandlingIs(w2, valid, tp, m', d, 0);
    hide Handling;
    OksCons(w2, valid, tp, Handling(m', tp, d), []);
    assert [Handling(m', tp, d)] + [] == [Handling(m', tp, d)];
    OksCons(w1, valid, tp, Handling(m, tp, d'), [Handling(m', tp, d)]);
    OksCons(w, valid, tp, Handling(m, tp, d), [Handling(m, tp, d')] + [Handling(m', tp, d)]);
  }

  /**
   * One holder at a time is needed: with two, the slower one writes an older
   * version over a newer one while the faster one is already at the end.
   */
  lemma {:induction false} TwoHoldersDiverge(valid: string -> bool, tp: Partition, rec: Record, rec': Record, m: Member, m': Member)
    requires Accepted(rec, valid).Some? && Accepted(rec', valid).Some? && m != m'
    requires KeyOf(Accepted(rec, valid).value) == KeyOf(Accepted(rec', valid).value)
    requires Accepted(rec, valid).value.body != Accepted(rec', valid).value.body
    ensures exists moves :: Oks(Start(), valid, tp, moves) &&
              var w := End(Start(), valid, tp, moves);
              && Log(w.st, tp) == [rec, rec'] && Positions(w.st, m) == map[tp := 2]
              && Lookup(w.index, KeyOf(Accepted(rec, valid).value))
                 != Lookup(Replay(Log(w.st, tp), valid), KeyOf(Accepted(rec, valid).value))
  {
    var d, d' := Accepted(rec, valid).value, Accepted(rec', valid).value;
    OvertakenRun(valid, tp, rec, rec', m, m');
    SharedIsReached(valid, tp, rec, rec', m, m', Overtaken(tp, d, d', m, m'));
    hide Oks, End, Replay, Accepted, Overtaken, Shared;
    ReplayNext([rec, rec'], valid, 1, KeyOf(d));
    assert [rec, rec'][..2] == [rec, rec'];
  }
}
