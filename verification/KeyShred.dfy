/**
Crypto-shredding: Delete destroys the wrapped key and Forget drops the cached
one.  Exactly when do the processes that have forgotten it never open an earlier
ciphertext again?
*/
module KeyShred {
  import opened Common
  import opened KeyProtocol

  /** The key is in the store, in a cache, in a call's hands or under a ciphertext. */
  ghost predicate Exposed(s: State, d: Dek)
  {
    || (exists t :: t in s.store && s.store[t].dek == d)
    || (exists p, t :: t in Cache(s, p) && Cache(s, p)[t] == d)
    || (exists w :: w in s.calls && Held(s.calls[w].pc) == Some(d))
    || (exists b :: b in s.sealed && b.dek == d)
  }

  /** Keys waiting for their Put are new: nobody else has seen them. */
  ghost predicate KeysFresh(s: State)
  {
    && (forall d :: Exposed(s, d) ==> d.serial < s.minted)
    && (forall w <- s.calls :: s.calls[w].pc.Put? ==> s.calls[w].pc.dek.serial < s.minted && !Exposed(s, s.calls[w].pc.dek))
    && (forall w, w' :: w in s.calls && w' in s.calls && w != w' && s.calls[w].pc.Put? && s.calls[w'].pc.Put? ==>
          s.calls[w].pc.dek != s.calls[w'].pc.dek)
  }

  /** Only a Put exposes a key. */
  lemma {:induction false} OnlyPutExposes(s: State, step: Step, d: Dek)
    requires Enabled(s, step) && Exposed(Do(s, step), d)
    ensures Exposed(s, d) || (step.PutKey? && s.calls[step.w].pc == Put(d))
  {
    var s' := Do(s, step);
    if t :| t in s'.store && s'.store[t].dek == d {
      assert (t in s.store && s'.store[t] == s.store[t]) || step.PutKey?;
    } else if p, t :| t in Cache(s', p) && Cache(s', p)[t] == d {
      if !(t in Cache(s, p) && Cache(s, p)[t] == d) {
        assert step.Publish?;
        assert Held(s.calls[step.w].pc) == Some(d);
      }
    } else if w :| w in s'.calls && Held(s'.calls[w].pc) == Some(d) {
      HeldCameFromSomewhere(s, step, w, d);
    } else {
      var b :| b in s'.sealed && b.dek == d;
      if b !in s.sealed {
        assert step.Finish?;
        assert Held(s.calls[step.w].pc) == Some(d);
      }
    }
  }

  lemma {:induction false} HeldCameFromSomewhere(s: State, step: Step, w: Worker, d: Dek)
    requires Enabled(s, step) && w in Do(s, step).calls && Held(Do(s, step).calls[w].pc) == Some(d)
    ensures Exposed(s, d)
  {
    var s' := Do(s, step);
    if w in s.calls && s.calls[w] == s'.calls[w] {
      assert Held(s.calls[w].pc) == Some(d);
    } else {
      assert !step.Begin?;
      var t, cache := s.calls[w].tenant, Cache(s, s.calls[w].proc);
      match step
      case LookUp(_) => assert t in cache && cache[t] == d;
      case Get(_) => assert t in s.store && s.store[t].dek == d;
      case Reread(_) => assert t in s.store && s.store[t].dek == d;
      case Publish(_) =>
        if t in cache { assert cache[t] == d; } else { assert Held(s.calls[w].pc) == Some(d); }
      case _ =>
    }
  }

  lemma {:induction false} PutsStayDistinct(s: State, step: Step)
    requires KeysFresh(s) && Enabled(s, step)
    ensures var s' := Do(s, step);
            forall w, w' :: w in s'.calls && w' in s'.calls && w != w' && s'.calls[w].pc.Put? && s'.calls[w'].pc.Put? ==>
              s'.calls[w].pc.dek != s'.calls[w'].pc.dek
  {
    hide Exposed;
  }

  lemma {:induction false} StepKeepsFresh(s: State, step: Step)
    requires KeysFresh(s) && Enabled(s, step)
    ensures KeysFresh(Do(s, step))
  {
    hide Exposed;
    var s' := Do(s, step);
    PutsStayDistinct(s, step);
    forall d | Exposed(s', d) ensures d.serial < s'.minted { OnlyPutExposes(s, step, d); }
    forall w | w in s'.calls && s'.calls[w].pc.Put?
      ensures s'.calls[w].pc.dek.serial < s'.minted && !Exposed(s', s'.calls[w].pc.dek)
    {
      var d := s'.calls[w].pc.dek;
      if step == Mint(w) { assert !Exposed(s, d); } else { assert s.calls[w] == s'.calls[w]; }
      if Exposed(s', d) { OnlyPutExposes(s, step, d); }
    }
  }

  lemma {:induction false} RunKeepsFresh(s: State, steps: seq<Step>)
    requires KeysFresh(s) && Ok(s, steps)
    ensures KeysFresh(Final(s, steps))
    decreases |steps|
  {
    if steps != [] {
      StepKeepsFresh(s, steps[0]);
      RunKeepsFresh(Do(s, steps[0]), steps[1..]);
    }
  }

  // ---------------------------------------------------------------- the shred

  /** A call of one of the shredding processes for the tenant. */
  predicate Concerns(c: Call, P: set<Proc>, t: Tenant)
  {
    c.proc in P && c.tenant == t
  }

  /** None of the keys under the old ciphertexts `B` can reach a call of `P` for tenant `t`. */
  ghost predicate Severed(s: State, P: set<Proc>, t: Tenant, B: set<Blob>)
  {
    && (forall b <- B :: b.dek.serial < s.minted)
    && (t in s.store ==> !Under(B, s.store[t].dek))
    && (forall p <- P :: t in Cache(s, p) ==> !Under(B, Cache(s, p)[t]))
    && (forall w <- s.calls :: s.calls[w].pc.Put? ==> !Under(B, s.calls[w].pc.dek))
    && (forall w <- s.calls :: Concerns(s.calls[w], P, t) ==> !Threatens(s.calls[w], B))
  }

  /** One of the ciphertexts is under this key. */
  predicate Under(B: set<Blob>, d: Dek) { exists b <- B :: b.dek == d }

  /** The call is about to put such a key back into the cache, or to open such a ciphertext with its key. */
  predicate Threatens(c: Call, B: set<Blob>)
  {
    || (c.pc.Unwrapped? && Under(B, c.pc.dek))
    || (c.pc.Use? && c.op.Decrypt? && c.op.blob in B && c.op.blob.dek == c.pc.dek)
  }

  lemma {:induction false} CacheStaysSevered(s: State, step: Step, P: set<Proc>, t: Tenant, B: set<Blob>, p: Proc)
    requires Severed(s, P, t, B) && Enabled(s, step) && p in P && t in Cache(Do(s, step), p)
    ensures !Under(B, Cache(Do(s, step), p)[t])
  {
    var s' := Do(s, step);
    hide Under;
    if !(t in Cache(s, p) && Cache(s, p)[t] == Cache(s', p)[t]) {
      assert step.Publish? && Concerns(s.calls[step.w], P, t);
    }
  }

  lemma {:induction false} HandsStaySevered(s: State, step: Step, P: set<Proc>, t: Tenant, B: set<Blob>, w: Worker)
    requires Severed(s, P, t, B) && Enabled(s, step)
    requires w in Do(s, step).calls && Concerns(Do(s, step).calls[w], P, t)
    ensures !Threatens(Do(s, step).calls[w], B)
  {
    var c' := Do(s, step).calls[w];
    if !(w in s.calls && s.calls[w] == c') {
      if w in s.calls { assert Concerns(s.calls[w], P, t) && s.calls[w].proc in P; }
      assert c'.op.Decrypt? && c'.op.blob in B ==> Under(B, c'.op.blob.dek);
      hide Under;
    }
  }

  lemma {:induction false} StepKeepsSevered(s: State, step: Step, P: set<Proc>, t: Tenant, B: set<Blob>)
    requires Severed(s, P, t, B) && Enabled(s, step)
    ensures Severed(Do(s, step), P, t, B)
  {
    var s' := Do(s, step);
    assert forall w <- s'.calls :: s'.calls[w].pc.Put? ==> !Under(B, s'.calls[w].pc.dek);
    hide Under, Threatens;
    assert t in s'.store ==> !Under(B, s'.store[t].dek);
    assert s.minted <= s'.minted;
    forall p | p in P && t in Cache(s', p) ensures !Under(B, Cache(s', p)[t]) { CacheStaysSevered(s, step, P, t, B, p); }
    forall w | w in s'.calls && Concerns(s'.calls[w], P, t) ensures !Threatens(s'.calls[w], B) {
      HandsStaySevered(s, step, P, t, B, w);
    }
  }

  /** Whoever has opened an old ciphertext had done so in `s0` already, by the very same call. */
  predicate NoneNewlyOpen(s0: State, s: State, P: set<Proc>, t: Tenant, B: set<Blob>)
  {
    forall w <- s.calls :: Concerns(s.calls[w], P, t) && s.calls[w].op.Decrypt? && s.calls[w].op.blob in B && s.calls[w].pc.Opened? ==>
      w in s0.calls && s0.calls[w] == s.calls[w]
  }

  /** Only Finish opens, and only with the key the call holds. */
  lemma {:induction false} OpenedBefore(s: State, step: Step, w: Worker)
    requires Enabled(s, step) && w in Do(s, step).calls && Do(s, step).calls[w].op.Decrypt? && Do(s, step).calls[w].pc.Opened?
    ensures w in s.calls && s.calls[w].op == Do(s, step).calls[w].op
    ensures s.calls[w].proc == Do(s, step).calls[w].proc && s.calls[w].tenant == Do(s, step).calls[w].tenant
    ensures s.calls[w] == Do(s, step).calls[w] || s.calls[w].pc == Use(s.calls[w].op.blob.dek)
  {
  }

  lemma {:induction false} StepOpensNone(s0: State, s: State, step: Step, P: set<Proc>, t: Tenant, B: set<Blob>)
    requires Severed(s, P, t, B) && NoneNewlyOpen(s0, s, P, t, B) && Enabled(s, step)
    ensures NoneNewlyOpen(s0, Do(s, step), P, t, B)
  {
    var s' := Do(s, step);
    hide Do, Enabled, Under;
    forall w | w in s'.calls && Concerns(s'.calls[w], P, t) && s'.calls[w].op.Decrypt? && s'.calls[w].op.blob in B && s'.calls[w].pc.Opened?
      ensures w in s0.calls && s0.calls[w] == s'.calls[w]
    {
      OpenedBefore(s, step, w);
    }
  }

  lemma {:induction false} SeveredRun(s0: State, s: State, steps: seq<Step>, P: set<Proc>, t: Tenant, B: set<Blob>)
    requires Severed(s, P, t, B) && NoneNewlyOpen(s0, s, P, t, B) && Ok(s, steps)
    ensures Severed(Final(s, steps), P, t, B) && NoneNewlyOpen(s0, Final(s, steps), P, t, B)
    decreases |steps|
  {
    hide Severed, NoneNewlyOpen;
    if steps != [] {
      StepKeepsSevered(s, steps[0], P, t, B);
      StepOpensNone(s0, s, steps[0], P, t, B);
      SeveredRun(s0, Do(s, steps[0]), steps[1..], P, t, B);
    }
  }

  /** Call `w` of `P` has opened ciphertext `b` for tenant `t`. */
  predicate Opens(s: State, w: Worker, b: Blob, P: set<Proc>, t: Tenant)
  {
    w in s.calls && Concerns(s.calls[w], P, t) && s.calls[w].op == Decrypt(b) && s.calls[w].pc.Opened?
  }

  /** The tenant's ciphertexts so far. */
  function Old(s: State, t: Tenant): set<Blob> { set b | b in s.sealed && b.tenant == t }

  /** From `s` to `s'` no call of `P` came to open one of them. */
  ghost predicate OpensNoMore(s: State, s': State, P: set<Proc>, t: Tenant)
  {
    forall w, b :: Opens(s', w, b, P, t) && b in Old(s, t) ==> Opens(s, w, b, P, t)
  }

  /** Whatever happens from `s` on, new Encrypts included, no call of `P` opens one of the ciphertexts sealed so far. */
  ghost predicate StaysShut(s: State, P: set<Proc>, t: Tenant)
  {
    forall after :: Ok(s, after) ==> OpensNoMore(s, Final(s, after), P, t)
  }

  /** The tenant's wrapped key is deleted and every process of `P` has forgotten it. */
  predicate Shredded(s: State, P: set<Proc>, t: Tenant) { t !in s.store && forall p <- P :: t !in Cache(s, p) }

  /** No call under way still threatens an old ciphertext. */
  predicate NoneThreatens(s: State, P: set<Proc>, t: Tenant)
  {
    forall w <- s.calls :: Concerns(s.calls[w], P, t) ==> !Threatens(s.calls[w], Old(s, t))
  }

  lemma {:induction false} ShredSevers(s: State, after: seq<Step>, P: set<Proc>, t: Tenant)
    requires KeysFresh(s) && Shredded(s, P, t) && NoneThreatens(s, P, t) && Ok(s, after)
    ensures OpensNoMore(s, Final(s, after), P, t)
  {
    var B := Old(s, t);
    forall b | b in B ensures Exposed(s, b.dek) {}
    assert Severed(s, P, t, B) by { hide Exposed, Threatens; }
    hide KeysFresh, Severed, Exposed;
    SeveredRun(s, s, after, P, t, B);
    var s' := Final(s, after);
    forall w, b | Opens(s', w, b, P, t) && b in B ensures Opens(s, w, b, P, t) { assert s'.calls[w].op.blob in B; }
  }

  /** A worker that has no call. */
  lemma {:induction false} IdleWorker(workers: set<Worker>) returns (w: Worker)
    ensures forall x :: x in workers ==> x < w
    decreases |workers|
  {
    w := 0;
    if workers != {} {
      var x :| x in workers;
      w := IdleWorker(workers - {x});
      assert forall y :: y in workers ==> y == x || y in workers - {x};
      if w <= x { w := x + 1; }
    }
  }

  /** A call that had already unwrapped the old key puts it back into the cache, and the old ciphertext opens. */
  lemma {:induction false} InFlightCallRevives(s: State, w: Worker, w2: Worker, b: Blob)
    requires w in s.calls && w2 !in s.calls && b.tenant != ""
    requires s.calls[w].pc == Unwrapped(b.dek) && s.calls[w].tenant == b.tenant && b.tenant !in Cache(s, s.calls[w].proc)
    ensures var call := Call(s.calls[w].proc, b.tenant, Decrypt(b), ReadCache);
            var steps := [Publish(w)] + ([Begin(w2, call)] + ([LookUp(w2)] + [Finish(w2)]));
            Ok(s, steps) && AtPc(Final(s, steps), w2, Opened(b.plain)) && Final(s, steps).calls[w2] == call.(pc := Opened(b.plain))
  {
    var call := Call(s.calls[w].proc, b.tenant, Decrypt(b), ReadCache);
    var s1 := Do(s, Publish(w));
    var s2 := Do(s1, Begin(w2, call));
    var s3 := Do(s2, LookUp(w2));
    OpenHeld(s3, w2, b);
    RunPrefix(s2, LookUp(w2), [Finish(w2)]);
    RunPrefix(s1, Begin(w2, call), [LookUp(w2)] + [Finish(w2)]);
    RunPrefix(s, Publish(w), [Begin(w2, call)] + ([LookUp(w2)] + [Finish(w2)]));
  }

  lemma {:induction false} ThreatIsReal(s: State, P: set<Proc>, t: Tenant, w: Worker) returns (after: seq<Step>)
    requires Shredded(s, P, t) && t != "" && w in s.calls && Concerns(s.calls[w], P, t) && Threatens(s.calls[w], Old(s, t))
    ensures Ok(s, after) && !OpensNoMore(s, Final(s, after), P, t)
  {
    if s.calls[w].pc.Use? {
      var b := s.calls[w].op.blob;
      after := [Finish(w)];
      OpenHeld(s, w, b);
      hide Ok, Final;
      assert Opens(Final(s, after), w, b, P, t) && !Opens(s, w, b, P, t);
    } else {
      var b :| b in Old(s, t) && b.dek == s.calls[w].pc.dek;
      var w2 := IdleWorker(s.calls.Keys);
      var call := Call(s.calls[w].proc, t, Decrypt(b), ReadCache);
      after := [Publish(w)] + ([Begin(w2, call)] + ([LookUp(w2)] + [Finish(w2)]));
      InFlightCallRevives(s, w, w2, b);
      hide Ok, Final;
      assert Opens(Final(s, after), w2, b, P, t) && !Opens(s, w2, b, P, t);
    }
  }

  /**
   * Exactly when a shred is final.  In every reachable state in which the
   * tenant's wrapped key is deleted and every process of `P` has forgotten it:
   * no call of `P` ever opens a ciphertext sealed before, unless it had it open
   * already, if and only if no call under way has unwrapped an old key without
   * having cached it yet, or holds one and is about to open with it.
   */
  lemma {:induction false} ShredIsFinal(before: seq<Step>, P: set<Proc>, t: Tenant)
    requires t != "" && Ok(Initial(), before) && Shredded(Final(Initial(), before), P, t)
    ensures var s := Final(Initial(), before); StaysShut(s, P, t) <==> NoneThreatens(s, P, t)
  {
    var s := Final(Initial(), before);
    assert KeysFresh(Initial());
    RunKeepsFresh(Initial(), before);
    hide KeysFresh, OpensNoMore, Threatens, Shredded, Ok, Final, Old;
    if NoneThreatens(s, P, t) {
      forall after | Ok(s, after) ensures OpensNoMore(s, Final(s, after), P, t) { ShredSevers(s, after, P, t); }
    } else {
      var w :| w in s.calls && Concerns(s.calls[w], P, t) && Threatens(s.calls[w], Old(s, t));
      var after := ThreatIsReal(s, P, t, w);
    }
  }

  // ---------------------------------------------------------------- a shred that is not final

  /** Process `p` encrypts `x` with worker 0, forgets the key, and loads it again with worker 1; then the key is deleted. */
  function Sealing(p: Proc, t: Tenant, x: string): seq<Step>
  {
    [Begin(0, Call(p, t, Encrypt(x), ReadCache))] + ([LookUp(0)] + ([Get(0)] + ([Mint(0)] + ([PutKey(0, Stored)] + ([Reread(0)]
    + ([Publish(0)] + ([Finish(0)] + Reloading(p, t, x))))))))
  }

  function Reloading(p: Proc, t: Tenant, x: string): seq<Step>
  {
    [Forget(p, t)] + ([Begin(1, Call(p, t, Decrypt(Blob(t, Dek(0), x)), ReadCache))] + ([LookUp(1)] + ([Get(1)] + [Delete(t)])))
  }

  /** The state once worker 0 has sealed `x`. */
  function AfterSealing(p: Proc, t: Tenant, x: string): State
  {
    var b := Blob(t, Dek(0), x);
    State(map[t := Wrapped(t, Dek(0))], map[p := map[t := Dek(0)]], map[0 := Call(p, t, Encrypt(x), Sealed(b))], {b}, 1)
  }

  /** The state at the end. */
  function Reloaded(p: Proc, t: Tenant, x: string): State
  {
    var b := Blob(t, Dek(0), x);
    State(map[], map[p := map[]], map[0 := Call(p, t, Encrypt(x), Sealed(b)), 1 := Call(p, t, Decrypt(b), Unwrapped(Dek(0)))], {b}, 1)
  }

  lemma {:induction false} JustOne(s: State, a: Step)
    requires Enabled(s, a)
    ensures Ok(s, [a]) && Final(s, [a]) == Do(s, a)
  {
    RunPrefix(s, a, []);
    assert [a] + [] == [a];
  }

  lemma {:induction false} DeletedAtLast(p: Proc, t: Tenant, x: string, s: State)
    requires s == Reloaded(p, t, x).(store := map[t := Wrapped(t, Dek(0))])
    ensures Enabled(s, Delete(t)) && Do(s, Delete(t)) == Reloaded(p, t, x)
  {
  }

  lemma {:induction false} ReloadingRuns(p: Proc, t: Tenant, x: string)
    requires t != ""
    ensures Ok(AfterSealing(p, t, x), Reloading(p, t, x)) && Final(AfterSealing(p, t, x), Reloading(p, t, x)) == Reloaded(p, t, x)
  {
    hide Ok, Final;
    var s := AfterSealing(p, t, x);
    var call := Call(p, t, Decrypt(Blob(t, Dek(0), x)), ReadCache);
    var s1 := s.(caches := map[p := map[]]);
    assert Do(s, Forget(p, t)) == s1;
    var s2 := s1.(calls := s1.calls[1 := call]);
    assert Do(s1, Begin(1, call)) == s2;
    var s3 := s1.(calls := s1.calls[1 := call.(pc := Load)]);
    assert Do(s2, LookUp(1)) == s3;
    var s4 := s1.(calls := s1.calls[1 := call.(pc := Unwrapped(Dek(0)))]);
    assert Do(s3, Get(1)) == s4;
    DeletedAtLast(p, t, x, s4);
    hide Do;
    JustOne(s4, Delete(t));
    RunPrefix(s3, Get(1), [Delete(t)]);
    RunPrefix(s2, LookUp(1), [Get(1)] + [Delete(t)]);
    RunPrefix(s1, Begin(1, call), [LookUp(1)] + ([Get(1)] + [Delete(t)]));
    RunPrefix(s, Forget(p, t), [Begin(1, call)] + ([LookUp(1)] + ([Get(1)] + [Delete(t)])));
  }

  /** Worker 0 with a miss: it makes a key, stores it and reads it back. */
  lemma {:induction false} SealingRuns(p: Proc, t: Tenant, x: string)
    requires t != ""
    ensures Ok(Initial(), Sealing(p, t, x)) && Final(Initial(), Sealing(p, t, x)) == Reloaded(p, t, x)
  {
    var c := Call(p, t, Encrypt(x), ReadCache);
    var d := Dek(0);
    var s1 := State(map[], map[], map[0 := c], {}, 0);
    assert Do(Initial(), Begin(0, c)) == s1;
    var s2 := s1.(calls := map[0 := c.(pc := Load)]);
    assert Do(s1, LookUp(0)) == s2;
    var s3 := s1.(calls := map[0 := c.(pc := Generate)]);
    assert Do(s2, Get(0)) == s3;
    var s4 := State(map[], map[], map[0 := c.(pc := Put(d))], {}, 1);
    assert Do(s3, Mint(0)) == s4;
    ReloadingRuns(p, t, x);
    PublishingRuns(p, t, x);
    var rest := [PutKey(0, Stored)] + ([Reread(0)] + ([Publish(0)] + ([Finish(0)] + Reloading(p, t, x))));
    hide Do, Reloading, Ok, Final;
    RunPrefix(s3, Mint(0), rest);
    RunPrefix(s2, Get(0), [Mint(0)] + rest);
    RunPrefix(s1, LookUp(0), [Get(0)] + ([Mint(0)] + rest));
    RunPrefix(Initial(), Begin(0, c), [LookUp(0)] + ([Get(0)] + ([Mint(0)] + rest)));
  }

  lemma {:induction false} PublishingRuns(p: Proc, t: Tenant, x: string)
    requires t != ""
    ensures var s := State(map[], map[], map[0 := Call(p, t, Encrypt(x), Put(Dek(0)))], {}, 1);
            var steps := [PutKey(0, Stored)] + ([Reread(0)] + ([Publish(0)] + ([Finish(0)] + Reloading(p, t, x))));
            Ok(s, steps) && Final(s, steps) == Reloaded(p, t, x)
  {
    hide Ok, Final, Reloading;
    var c, d := Call(p, t, Encrypt(x), ReadCache), Dek(0);
    var s4 := State(map[], map[], map[0 := c.(pc := Put(d))], {}, 1);
    var s5 := State(map[t := Wrapped(t, d)], map[], map[0 := c.(pc := ReadBack)], {}, 1);
    assert Enabled(s4, PutKey(0, Stored)) && Do(s4, PutKey(0, Stored)) == s5;
    var s6 := s5.(calls := map[0 := c.(pc := Unwrapped(d))]);
    assert Enabled(s5, Reread(0)) && Do(s5, Reread(0)) == s6;
    hide Do, Enabled;
    FinishingRuns(p, t, x);
    var rest := [Publish(0)] + ([Finish(0)] + Reloading(p, t, x));
    RunPrefix(s5, Reread(0), rest);
    RunPrefix(s4, PutKey(0, Stored), [Reread(0)] + rest);
  }

  lemma {:induction false} FinishingRuns(p: Proc, t: Tenant, x: string)
    requires t != ""
    ensures var s := State(map[t := Wrapped(t, Dek(0))], map[], map[0 := Call(p, t, Encrypt(x), Unwrapped(Dek(0)))], {}, 1);
            var steps := [Publish(0)] + ([Finish(0)] + Reloading(p, t, x));
            Ok(s, steps) && Final(s, steps) == Reloaded(p, t, x)
  {
    hide Ok, Final, Reloading;
    var c, d := Call(p, t, Encrypt(x), ReadCache), Dek(0);
    var s6 := State(map[t := Wrapped(t, d)], map[], map[0 := c.(pc := Unwrapped(d))], {}, 1);
    var s7 := s6.(caches := map[p := map[t := d]], calls := map[0 := c.(pc := Use(d))]);
    assert map[][t := d] == map[t := d];
    assert Enabled(s6, Publish(0)) && Do(s6, Publish(0)) == s7;
    assert Enabled(s7, Finish(0)) && Do(s7, Finish(0)) == AfterSealing(p, t, x);
    hide Do, Enabled;
    ReloadingRuns(p, t, x);
    RunPrefix(s7, Finish(0), Reloading(p, t, x));
    RunPrefix(s6, Publish(0), [Finish(0)] + Reloading(p, t, x));
  }

  /** Delete and Forget are not enough: for any tenant there is a run after which an old ciphertext can still be opened. */
  lemma {:induction false} ForgetIsNotEnough(p: Proc, t: Tenant, x: string)
    requires t != ""
    ensures Ok(Initial(), Sealing(p, t, x))
    ensures var s := Final(Initial(), Sealing(p, t, x)); Shredded(s, {p}, t) && !StaysShut(s, {p}, t)
  {
    SealingRuns(p, t, x);
    var s := Reloaded(p, t, x);
    var b := Blob(t, Dek(0), x);
    assert b in Old(s, t) && Under(Old(s, t), Dek(0));
    assert Threatens(s.calls[1], Old(s, t)) && Concerns(s.calls[1], {p}, t);
    assert Shredded(s, {p}, t) && !NoneThreatens(s, {p}, t);
    hide Sealing, Ok, Final, StaysShut, NoneThreatens;
    ShredIsFinal(Sealing(p, t, x), {p}, t);
  }
}
