/**
Tenant key provisioning: any number of cipher calls in any number of processes
share one wrapped-key store.  A tenant's data key (DEK) is made lazily by the
first Encrypt; the store is first-writer-wins; every process caches what it
unwrapped.  AES-GCM is an ideal AEAD bound to key and tenant, wrapping is
invertible for the same tenant only, and fresh keys are distinct.
*/
module KeyProtocol {
  import opened Common

  type Tenant = string
  type Proc = nat
  type Worker = nat

  /** The `serial`-th key ever drawn. */
  datatype Dek = Dek(serial: nat)

  /** A DEK sealed under the KEK with the tenant as associated data. */
  datatype Wrapped = Wrapped(tenant: Tenant, dek: Dek)

  /** A data ciphertext: the key and tenant it was sealed under, and what it hides. */
  datatype Blob = Blob(tenant: Tenant, dek: Dek, plain: string)

  datatype Op = Encrypt(plain: string) | Decrypt(blob: Blob)

  /** Where a cipher call stands. */
  datatype Pc =
    | ReadCache
    | Load                  // cache miss: GetWrappedDEK
    | Generate              // nothing stored and the call may create
    | Put(dek: Dek)         // PutWrappedDEK of the fresh key
    | ReadBack              // re-read after the Put, whatever it returned
    | Unwrapped(dek: Dek)   // about to publish to the cache
    | Use(dek: Dek)         // holds the AEAD
    | Sealed(blob: Blob)
    | Opened(plain: string)
    | Failed

  datatype Call = Call(proc: Proc, tenant: Tenant, op: Op, pc: Pc)

  /** Outcomes of PutWrappedDEK when the slot is free: an error may or may not have stored the value. */
  datatype PutOutcome = Stored | ErrorAfterStore | ErrorBeforeStore

  datatype State = State(store: map<Tenant, Wrapped>, caches: map<Proc, map<Tenant, Dek>>,
                         calls: map<Worker, Call>, sealed: set<Blob>, minted: nat)

  datatype Step =
    | Begin(w: Worker, call: Call)
    | LookUp(w: Worker)
    | Get(w: Worker)
    | Mint(w: Worker)
    | PutKey(w: Worker, outcome: PutOutcome)
    | Reread(w: Worker)
    | Publish(w: Worker)
    | Finish(w: Worker)
    | Fault(w: Worker)                        // a store, KEK or cancellation error
    | Restart(p: Proc)                        // a process dies: its cache and calls are gone
    | Delete(t: Tenant)                       // DEKStore.Delete
    | Forget(p: Proc, t: Tenant)              // TenantCipher.Forget

  function Initial(): State { State(map[], map[], map[], {}, 0) }

  function Unwrap(t: Tenant, w: Wrapped): Option<Dek>
  {
    if w.tenant == t then Some(w.dek) else None
  }

  /** PutWrappedDEK keeps an existing value. */
  function FirstWriterWins<V>(current: Option<V>, v: V): Option<V>
  {
    if current.Some? then current else Some(v)
  }

  function Cache(s: State, p: Proc): map<Tenant, Dek>
  {
    if p in s.caches then s.caches[p] else map[]
  }

  predicate AtPc(s: State, w: Worker, pc: Pc)
  {
    w in s.calls && s.calls[w].pc == pc
  }

  predicate Enabled(s: State, step: Step)
  {
    match step
    case Begin(w, call) => w !in s.calls && call.pc == ReadCache && call.tenant != ""
    case LookUp(w) => AtPc(s, w, ReadCache)
    case Get(w) => AtPc(s, w, Load)
    case Mint(w) => AtPc(s, w, Generate)
    case PutKey(w, _) => w in s.calls && s.calls[w].pc.Put?
    case Reread(w) => AtPc(s, w, ReadBack)
    case Publish(w) => w in s.calls && s.calls[w].pc.Unwrapped?
    case Finish(w) => w in s.calls && s.calls[w].pc.Use?
    case Fault(w) => w in s.calls && !s.calls[w].pc.Sealed? && !s.calls[w].pc.Opened?
    case Restart(_) => true
    case Delete(_) => true
    case Forget(_, _) => true
  }

  function Move(s: State, w: Worker, pc: Pc): State
    requires w in s.calls
  {
    s.(calls := s.calls[w := s.calls[w].(pc := pc)])
  }

  /** The DEK the store yields for a tenant; None also when it does not unwrap. */
  function StoredDek(s: State, t: Tenant): Option<Dek>
  {
    if t in s.store then Unwrap(t, s.store[t]) else None
  }

  /** Seal, or authenticate and open. */
  function UseKey(s: State, w: Worker): State
    requires w in s.calls && s.calls[w].pc.Use?
  {
    var c := s.calls[w];
    match c.op
    case Encrypt(plain) =>
      var b := Blob(c.tenant, c.pc.dek, plain);
      Move(s, w, Sealed(b)).(sealed := s.sealed + {b})
    case Decrypt(b) =>
      Move(s, w, if b.tenant == c.tenant && b.dek == c.pc.dek then Opened(b.plain) else Failed)
  }

  function Do(s: State, step: Step): State
    requires Enabled(s, step)
  {
    match step
    case Begin(w, call) => s.(calls := s.calls[w := call])
    case LookUp(w) =>
      var c := s.calls[w];
      Move(s, w, if c.tenant in Cache(s, c.proc) then Use(Cache(s, c.proc)[c.tenant]) else Load)
    case Get(w) =>
      var c := s.calls[w];
      if c.tenant in s.store then
        var dek := StoredDek(s, c.tenant);
        Move(s, w, if dek.Some? then Unwrapped(dek.value) else Failed)
      else Move(s, w, if c.op.Encrypt? then Generate else Failed)
    case Mint(w) => Move(s, w, Put(Dek(s.minted))).(minted := s.minted + 1)
    case PutKey(w, outcome) =>
      var c := s.calls[w];
      var slot := if outcome == ErrorBeforeStore then Lookup(s.store, c.tenant)
                  else FirstWriterWins(Lookup(s.store, c.tenant), Wrapped(c.tenant, c.pc.dek));
      Move(s, w, ReadBack).(store := if slot.Some? then s.store[c.tenant := slot.value] else s.store)
    case Reread(w) =>
      var dek := StoredDek(s, s.calls[w].tenant);
      Move(s, w, if dek.Some? then Unwrapped(dek.value) else Failed)
    case Publish(w) =>
      var c := s.calls[w];
      var cache := Cache(s, c.proc);
      if c.tenant in cache then Move(s, w, Use(cache[c.tenant]))
      else Move(s, w, Use(c.pc.dek)).(caches := s.caches[c.proc := cache[c.tenant := c.pc.dek]])
    case Finish(w) => UseKey(s, w)
    case Fault(w) => Move(s, w, Failed)
    case Restart(p) =>
      s.(caches := s.caches - {p}, calls := map w | w in s.calls && s.calls[w].proc != p :: s.calls[w])
    case Delete(t) => s.(store := s.store - {t})
    case Forget(p, t) => s.(caches := s.caches[p := Cache(s, p) - {t}])
  }

  predicate Ok(s: State, steps: seq<Step>)
    decreases |steps|
  {
    steps == [] || (Enabled(s, steps[0]) && Ok(Do(s, steps[0]), steps[1..]))
  }

  function Final(s: State, steps: seq<Step>): State
    requires Ok(s, steps)
    decreases |steps|
  {
    if steps == [] then s else Final(Do(s, steps[0]), steps[1..])
  }

  /** A wrapped key opens for the tenant it was wrapped for and no other. */
  lemma {:induction false} UnwrapExactly(t: Tenant, w: Wrapped, dek: Dek)
    ensures Unwrap(t, w) == Some(dek) <==> w == Wrapped(t, dek)
  {
  }

  /** A process that restarts has no cached key and no call; the others and the store are untouched. */
  lemma {:induction false} RestartForgets(s: State, p: Proc)
    ensures var s' := Do(s, Restart(p));
            && Cache(s', p) == map[] && (forall q :: q != p ==> Cache(s', q) == Cache(s, q))
            && (forall w <- s'.calls :: w in s.calls && s'.calls[w] == s.calls[w] && s.calls[w].proc != p)
            && (forall w <- s.calls :: s.calls[w].proc != p ==> w in s'.calls)
            && s'.store == s.store && s'.sealed == s.sealed
  {
  }

  /** What a Put leaves, whatever it returns: the key already there, else the new one unless it failed before storing. */
  lemma {:induction false} PutLeaves(s: State, w: Worker, outcome: PutOutcome, u: Tenant)
    requires Enabled(s, PutKey(w, outcome))
    ensures Lookup(Do(s, PutKey(w, outcome)).store, u)
         == if u in s.store then Some(s.store[u])
            else if u == s.calls[w].tenant && outcome != ErrorBeforeStore then Some(Wrapped(u, s.calls[w].pc.dek))
            else None
  {
  }

  // ---------------------------------------------------------------- agreement

  predicate NoDelete(steps: seq<Step>)
  {
    forall i :: 0 <= i < |steps| ==> !steps[i].Delete?
  }

  /** The key a call holds, if any. */
  function Held(pc: Pc): Option<Dek>
  {
    if pc.Unwrapped? || pc.Use? then Some(pc.dek) else None
  }

  predicate Creating(pc: Pc)
  {
    pc.Generate? || pc.Put? || pc.ReadBack?
  }

  /** Every key in a cache, in a call's hands or under a ciphertext is the stored one. */
  ghost predicate Agree(s: State)
  {
    && (forall t <- s.store :: s.store[t].tenant == t)
    && (forall p, t :: t in Cache(s, p) ==> StoredDek(s, t) == Some(Cache(s, p)[t]))
    && (forall w <- s.calls :: Held(s.calls[w].pc).Some? ==> StoredDek(s, s.calls[w].tenant) == Held(s.calls[w].pc))
    && (forall b <- s.sealed :: StoredDek(s, b.tenant) == Some(b.dek))
    && (forall w <- s.calls :: Creating(s.calls[w].pc) ==> s.calls[w].op.Encrypt?)
  }

  /** Without Delete a stored key never changes. */
  lemma {:induction false} StoreIsStable(s: State, step: Step, t: Tenant)
    requires Enabled(s, step) && !step.Delete? && t in s.store
    ensures t in Do(s, step).store && Do(s, step).store[t] == s.store[t]
  {
  }

  lemma {:induction false} StepKeepsAgree(s: State, step: Step)
    requires Agree(s) && Enabled(s, step) && !step.Delete?
    ensures Agree(Do(s, step))
  {
    var s' := Do(s, step);
    forall t | t in s.store ensures t in s'.store && s'.store[t] == s.store[t] { StoreIsStable(s, step, t); }
    assert forall t :: StoredDek(s, t).Some? ==> StoredDek(s', t) == StoredDek(s, t);
    CachesAgree(s, step);
    CallsAgree(s, step);
  }

  lemma {:induction false} CachesAgree(s: State, step: Step)
    requires Agree(s) && Enabled(s, step) && !step.Delete?
    ensures forall p, t :: t in Cache(Do(s, step), p) ==> StoredDek(Do(s, step), t) == Some(Cache(Do(s, step), p)[t])
  {
    var s' := Do(s, step);
    forall p, t | t in Cache(s', p) ensures StoredDek(s', t) == Some(Cache(s', p)[t]) {
      if t in Cache(s, p) && Cache(s, p)[t] == Cache(s', p)[t] {
        assert StoredDek(s, t) == Some(Cache(s, p)[t]);
        StoreIsStable(s, step, t);
      } else {
        assert step.Publish? && t == s.calls[step.w].tenant;
        assert StoredDek(s, t) == Held(s.calls[step.w].pc);
      }
    }
  }

  lemma {:induction false} CallsAgree(s: State, step: Step)
    requires Agree(s) && Enabled(s, step) && !step.Delete?
    ensures var s' := Do(s, step);
            forall w <- s'.calls :: Held(s'.calls[w].pc).Some? ==> StoredDek(s', s'.calls[w].tenant) == Held(s'.calls[w].pc)
  {
    var s' := Do(s, step);
    forall w | w in s'.calls && Held(s'.calls[w].pc).Some?
      ensures StoredDek(s', s'.calls[w].tenant) == Held(s'.calls[w].pc)
    {
      var t := s'.calls[w].tenant;
      if w in s.calls && s.calls[w] == s'.calls[w] {
        assert StoredDek(s, t) == Held(s.calls[w].pc);
        StoreIsStable(s, step, t);
      } else if step.LookUp? || step.Publish? {
        var cache := Cache(s, s.calls[w].proc);
        assert t in cache ==> StoredDek(s, t) == Some(cache[t]);
        assert StoredDek(s, t) == Held(s'.calls[w].pc);
      }
    }
  }

  lemma {:induction false} RunKeepsAgree(s: State, steps: seq<Step>)
    requires Agree(s) && Ok(s, steps) && NoDelete(steps)
    ensures Agree(Final(s, steps))
    decreases |steps|
  {
    if steps != [] {
      StepKeepsAgree(s, steps[0]);
      RunKeepsAgree(Do(s, steps[0]), steps[1..]);
    }
  }

  /**
   * Agreement.  In every interleaving without Delete, whichever outcome each
   * Put has, all ciphertexts of a tenant are under one key, and every cached
   * key is the unwrapped stored one.
   */
  lemma {:induction false} DekAgreement(steps: seq<Step>)
    requires Ok(Initial(), steps) && NoDelete(steps)
    ensures var s := Final(Initial(), steps);
            && (forall a, b :: a in s.sealed && b in s.sealed && a.tenant == b.tenant ==> a.dek == b.dek)
            && (forall p, t :: t in Cache(s, p) ==> StoredDek(s, t) == Some(Cache(s, p)[t]))
            && (forall b <- s.sealed :: StoredDek(s, b.tenant) == Some(b.dek))
  {
    assert Agree(Initial());
    RunKeepsAgree(Initial(), steps);
  }

  /** The call is trying to open a ciphertext some process produced, for the tenant it belongs to. */
  predicate OpensOwn(s: State, w: Worker)
  {
    w in s.calls && s.calls[w].op.Decrypt? && s.calls[w].op.blob in s.sealed && s.calls[w].op.blob.tenant == s.calls[w].tenant
  }

  /** Such a call, in whatever process, is never turned away: only a fault can stop it. */
  lemma {:induction false} DecryptNeverFails(s: State, step: Step, w: Worker)
    requires Agree(s) && Enabled(s, step) && !step.Delete? && OpensOwn(s, w)
    requires s.calls[w].pc != Failed
    requires step != Fault(w) && step != Restart(s.calls[w].proc)
    ensures OpensOwn(Do(s, step), w) && Do(s, step).calls[w].pc != Failed
    ensures step == Finish(w) ==> Do(s, step).calls[w].pc == Opened(s.calls[w].op.blob.plain)
  {
    var b := s.calls[w].op.blob;
    assert StoredDek(s, b.tenant) == Some(b.dek);
  }

  /** The steps one undisturbed Decrypt takes. */
  function DecryptRun(s: State, w: Worker, p: Proc, b: Blob): seq<Step>
  {
    var load := if b.tenant in Cache(s, p) then [Finish(w)] else [Get(w)] + ([Publish(w)] + [Finish(w)]);
    [Begin(w, Call(p, b.tenant, Decrypt(b), ReadCache))] + ([LookUp(w)] + load)
  }

  lemma {:induction false} RunPrefix(s: State, a: Step, rest: seq<Step>)
    requires Enabled(s, a) && Ok(Do(s, a), rest)
    ensures Ok(s, [a] + rest) && Final(s, [a] + rest) == Final(Do(s, a), rest)
  {
    assert ([a] + rest)[0] == a && ([a] + rest)[1..] == rest;
  }

  /** After a miss in the cache: read the store, cache the key, open. */
  lemma {:induction false} LoadsAndOpens(s: State, w: Worker, b: Blob)
    requires w in s.calls && s.calls[w].pc == Load && s.calls[w].op == Decrypt(b) && s.calls[w].tenant == b.tenant
    requires StoredDek(s, b.tenant) == Some(b.dek) && b.tenant !in Cache(s, s.calls[w].proc)
    ensures Ok(s, [Get(w)] + ([Publish(w)] + [Finish(w)]))
    ensures AtPc(Final(s, [Get(w)] + ([Publish(w)] + [Finish(w)])), w, Opened(b.plain))
  {
    hide Ok, Final;
    var s3 := Do(s, Get(w));
    var s4 := Do(s3, Publish(w));
    OpenHeld(s4, w, b);
    RunPrefix(s3, Publish(w), [Finish(w)]);
    RunPrefix(s, Get(w), [Publish(w)] + [Finish(w)]);
  }

  /** Any ciphertext any process produced opens in every process. */
  lemma {:induction false} AnyProcessDecrypts(s: State, w: Worker, p: Proc, b: Blob)
    requires Agree(s) && b in s.sealed && b.tenant != "" && w !in s.calls
    ensures Ok(s, DecryptRun(s, w, p, b))
    ensures AtPc(Final(s, DecryptRun(s, w, p, b)), w, Opened(b.plain))
  {
    hide Ok, Final;
    var call := Call(p, b.tenant, Decrypt(b), ReadCache);
    assert StoredDek(s, b.tenant) == Some(b.dek);
    var s1 := Do(s, Begin(w, call));
    var s2 := Do(s1, LookUp(w));
    var load := if b.tenant in Cache(s, p) then [Finish(w)] else [Get(w)] + ([Publish(w)] + [Finish(w)]);
    if b.tenant in Cache(s, p) { OpenHeld(s2, w, b); } else { LoadsAndOpens(s2, w, b); }
    hide Do, Agree;
    RunPrefix(s1, LookUp(w), load);
    RunPrefix(s, Begin(w, call), [LookUp(w)] + load);
  }

  lemma {:induction false} OpenHeld(s: State, w: Worker, b: Blob)
    requires w in s.calls && s.calls[w].pc == Use(b.dek) && s.calls[w].op == Decrypt(b) && s.calls[w].tenant == b.tenant
    ensures Ok(s, [Finish(w)]) && AtPc(Final(s, [Finish(w)]), w, Opened(b.plain))
    ensures Final(s, [Finish(w)]).calls[w] == s.calls[w].(pc := Opened(b.plain))
  {
    var s' := Do(s, Finish(w));
    assert [Finish(w)][1..] == [];
    assert Ok(s', []) && Final(s', []) == s';
  }
}
