/**
The control flow of TenantCipher and of the in-memory key store.  A cipher call
is a sequence of protocol steps of one worker; between any two of them the other
workers and processes take any steps of their own (without Delete).
*/
module TenantCipher {
  import opened Common
  import opened KeyProtocol

  // ---------------------------------------------------------------- memDEKStore

  type Bytes = seq<bv8>

  datatype StoreError = NoTenant | Empty | NotFound

  datatype Reply<+T> = Value(value: T) | Error(error: StoreError)

  class MemDEKStore {
    var deks: map<Tenant, Bytes>

    constructor ()
      ensures deks == map[]
    {
      deks := map[];
    }

    method GetWrappedDEK(t: Tenant) returns (r: Reply<Bytes>)
      ensures t == "" ==> r == Error(NoTenant)
      ensures t != "" ==> r == if Lookup(deks, t).Some? then Value(Lookup(deks, t).value) else Error(NotFound)
    {
      if t == "" { return Error(NoTenant); }
      if t !in deks { return Error(NotFound); }
      r := Value(deks[t]);
    }

    /** First writer wins, for this tenant only. */
    method PutWrappedDEK(t: Tenant, wrapped: Bytes) returns (r: Reply<()>)
      modifies this
      ensures r.Error? <==> t == "" || wrapped == []
      ensures r.Error? ==> deks == old(deks)
      ensures r.Value? ==> Lookup(deks, t) == FirstWriterWins(old(Lookup(deks, t)), wrapped)
      ensures forall u :: u != t ==> Lookup(deks, u) == old(Lookup(deks, u))
    {
      if t == "" { return Error(NoTenant); }
      if wrapped == [] { return Error(Empty); }
      if t !in deks { deks := deks[t := wrapped]; }
      r := Value(());
    }

    /** Idempotent: deleting an absent key succeeds. */
    method Delete(t: Tenant) returns (r: Reply<()>)
      modifies this
      ensures r.Error? <==> t == ""
      ensures r.Error? ==> deks == old(deks)
      ensures r.Value? ==> Lookup(deks, t).None?
      ensures forall u :: u != t ==> Lookup(deks, u) == old(Lookup(deks, u))
    {
      if t == "" { return Error(NoTenant); }
      deks := deks - {t};
      r := Value(());
    }
  }

  // ---------------------------------------------------------------- TenantCipher

  /** The step is another worker's, and it neither deletes keys nor restarts process `p`. */
  predicate Foreign(step: Step, w: Worker, p: Proc)
  {
    match step
    case Begin(v, _) => v != w
    case LookUp(v) => v != w
    case Get(v) => v != w
    case Mint(v) => v != w
    case PutKey(v, _) => v != w
    case Reread(v) => v != w
    case Publish(v) => v != w
    case Finish(v) => v != w
    case Fault(v) => v != w
    case Restart(q) => q != p
    case Delete(_) => false
    case Forget(_, _) => true
  }

  /** What goes wrong in one call: reading the store, drawing the key, wrapping it, the Put, reading back, drawing the nonce. */
  datatype Faults = Faults(get: bool, draw: bool, wrap: bool, put: PutOutcome, reread: bool, nonce: bool)

  /** Nothing that provisioning a key needs goes wrong; the Put may report an error as long as it stored. */
  predicate CanProvision(f: Faults) { !f.draw && !f.wrap && f.put != ErrorBeforeStore && !f.reread }

  /** One worker's view of the whole system; `st` is shared and moves under its feet. */
  class Cipher {
    ghost var st: State

    ghost predicate At(w: Worker, p: Proc, t: Tenant, op: Op, pc: Pc)
      reads this
    {
      Agree(st) && w in st.calls && st.calls[w] == Call(p, t, op, pc)
    }

    ghost constructor ()
      ensures st == Initial() && Agree(st)
    {
      st := Initial();
    }

    /** Anything the others do: this worker's own call stays where it is, stored keys stay put. */
    ghost method Interfere(w: Worker)
      requires Agree(st) && w in st.calls
      modifies this
      ensures Agree(st) && w in st.calls && st.calls[w] == old(st.calls[w])
      ensures forall t :: t in old(st).store ==> t in st.store && st.store[t] == old(st).store[t]
      ensures old(st).sealed <= st.sealed
    {
      hide Agree;
      var n: nat := *;
      while n > 0
        invariant Agree(st) && w in st.calls && st.calls[w] == old(st.calls[w])
        invariant forall t :: t in old(st).store ==> t in st.store && st.store[t] == old(st).store[t]
        invariant old(st).sealed <= st.sealed
      {
        var step: Step := *;
        if Enabled(st, step) && Foreign(step, w, st.calls[w].proc) {
          Take(step);
        }
        n := n - 1;
      }
    }

    ghost method Take(step: Step)
      requires Agree(st) && Enabled(st, step) && !step.Delete?
      modifies this
      ensures Agree(st) && st == Do(old(st), step)
      ensures forall t :: t in old(st).store ==> t in st.store && st.store[t] == old(st).store[t]
      ensures old(st).sealed <= st.sealed
    {
      StepKeepsAgree(st, step);
      forall t | t in st.store ensures t in Do(st, step).store && Do(st, step).store[t] == st.store[t] {
        StoreIsStable(st, step, t);
      }
      hide Agree;
      st := Do(st, step);
    }

    /** A store or KEK call: interference, then a fault or the step. */
    ghost method Attempt(w: Worker, step: Step, fails: bool)
      requires Agree(st) && w in st.calls && Enabled(st, step) && Own(step, w) && !st.calls[w].pc.Sealed? && !st.calls[w].pc.Opened?
      modifies this
      ensures Agree(st) && w in st.calls && old(st).sealed <= st.sealed
      ensures forall t :: t in old(st).store ==> t in st.store && st.store[t] == old(st).store[t]
      ensures fails ==> st.calls[w] == old(st.calls[w]).(pc := Failed)
      ensures !fails ==> exists s :: Agree(s) && w in s.calls && s.calls[w] == old(st.calls[w]) && Enabled(s, step) && st == Do(s, step)
                           && forall t :: t in old(st).store ==> t in s.store && s.store[t] == old(st).store[t]
    {
      Interfere(w);
      if fails { Take(Fault(w)); } else { Take(step); }
    }

    /** provisionDEK: draw a key, Put it whatever happens, and use what the store then holds. */
    ghost method ProvisionDEK(w: Worker, p: Proc, t: Tenant, op: Op, f: Faults) returns (dek: Option<Dek>)
      requires At(w, p, t, op, Generate)
      modifies this
      ensures old(st).sealed <= st.sealed
      ensures forall u :: u in old(st).store ==> u in st.store && st.store[u] == old(st).store[u]
      ensures dek.Some? ==> At(w, p, t, op, Unwrapped(dek.value))
      ensures dek.None? ==> At(w, p, t, op, Failed)
      ensures CanProvision(f) ==> dek.Some?
      ensures f.draw || f.wrap || f.reread ==> dek.None?
    {
      hide Agree;
      Attempt(w, Mint(w), f.draw);
      if f.draw { return None; }
      Interfere(w);
      if f.wrap { Take(Fault(w)); return None; }
      Take(PutKey(w, f.put));
      assert f.put != ErrorBeforeStore ==> t in st.store;
      Attempt(w, Reread(w), f.reread);
      assert At(w, p, t, op, st.calls[w].pc);
      dek := if st.calls[w].pc.Unwrapped? then Some(st.calls[w].pc.dek) else None;
      if CanProvision(f) { StoredUnwraps(st, t); }
    }

    /** loadDEK: the stored key, or a new one when the call may create. */
    ghost method LoadDEK(w: Worker, p: Proc, t: Tenant, op: Op, f: Faults) returns (dek: Option<Dek>)
      requires At(w, p, t, op, Load)
      modifies this
      ensures old(st).sealed <= st.sealed
      ensures forall u :: u in old(st).store ==> u in st.store && st.store[u] == old(st).store[u]
      ensures dek.Some? ==> At(w, p, t, op, Unwrapped(dek.value))
      ensures dek.None? ==> At(w, p, t, op, Failed)
      ensures f.get ==> dek.None?
      ensures !f.get && (t in old(st).store || (op.Encrypt? && CanProvision(f))) ==> dek.Some?
    {
      hide Agree;
      Attempt(w, Get(w), f.get);
      if f.get { return None; }
      match st.calls[w].pc
      case Unwrapped(d) => dek := Some(d);
      case Generate => dek := ProvisionDEK(w, p, t, op, f);
      case _ => dek := None;
    }

    /** aeadFor: the cached key, else load it and cache it unless someone was faster. */
    ghost method AeadFor(w: Worker, p: Proc, t: Tenant, op: Op, f: Faults) returns (dek: Option<Dek>)
      requires At(w, p, t, op, ReadCache)
      modifies this
      ensures old(st).sealed <= st.sealed
      ensures dek.Some? ==> At(w, p, t, op, Use(dek.value)) && StoredDek(st, t) == dek
      ensures dek.None? ==> At(w, p, t, op, Failed)
      ensures !f.get && (t in old(st).store || (op.Encrypt? && CanProvision(f))) ==> dek.Some?
    {
      Interfere(w);
      Take(LookUp(w));
      if st.calls[w].pc.Load? {
        var loaded := LoadDEK(w, p, t, op, f);
        if loaded.None? { return None; }
        Interfere(w);
        Take(Publish(w));
      }
      dek := Some(st.calls[w].pc.dek);
    }

    /** Encrypt: the ciphertext is under the tenant's one stored key, and without a fault there is one. */
    ghost method Encrypt(w: Worker, p: Proc, t: Tenant, plain: string, f: Faults) returns (r: Option<Blob>)
      requires Agree(st) && w !in st.calls
      modifies this
      ensures Agree(st)
      ensures t == "" || f.nonce ==> r.None?
      ensures t != "" && !f.get && CanProvision(f) && !f.nonce ==> r.Some?
      ensures r.Some? ==> r.value in st.sealed && r.value.plain == plain && r.value.tenant == t && StoredDek(st, t) == Some(r.value.dek)
    {
      if t == "" { return None; }
      Take(Begin(w, Call(p, t, Op.Encrypt(plain), ReadCache)));
      var dek := AeadFor(w, p, t, Op.Encrypt(plain), f);
      if dek.None? { return None; }
      Interfere(w);
      if f.nonce { return None; }
      Take(Finish(w));
      r := Some(st.calls[w].pc.blob);
    }

    /** Decrypt: of a ciphertext produced anywhere for this tenant it yields the plaintext, unless reading the store failed. */
    ghost method Decrypt(w: Worker, p: Proc, t: Tenant, b: Blob, f: Faults) returns (r: Option<string>)
      requires Agree(st) && w !in st.calls
      modifies this
      ensures Agree(st)
      ensures t == "" ==> r.None?
      ensures r.Some? ==> r.value == b.plain && b.tenant == t && StoredDek(st, t) == Some(b.dek)
      ensures t != "" && b in old(st).sealed && b.tenant == t && !f.get ==> r == Some(b.plain)
    {
      if t == "" { return None; }
      Take(Begin(w, Call(p, t, Op.Decrypt(b), ReadCache)));
      assert b in st.sealed && b.tenant == t ==> t in st.store by { if b in st.sealed { SealedIsStored(st, b); } }
      var dek := AeadFor(w, p, t, Op.Decrypt(b), f);
      if dek.None? { return None; }
      Interfere(w);
      if b in st.sealed { SealedIsStored(st, b); }
      Take(Finish(w));
      r := if st.calls[w].pc.Opened? then Some(st.calls[w].pc.plain) else None;
    }
  }

  lemma {:induction false} StoredUnwraps(s: State, t: Tenant)
    requires Agree(s)
    ensures t in s.store ==> StoredDek(s, t).Some?
  {
  }

  lemma {:induction false} SealedIsStored(s: State, b: Blob)
    requires Agree(s) && b in s.sealed
    ensures b.tenant in s.store && StoredDek(s, b.tenant) == Some(b.dek)
  {
  }

  predicate Own(step: Step, w: Worker)
  {
    step == Mint(w) || step == Get(w) || step == Reread(w)
  }
}
