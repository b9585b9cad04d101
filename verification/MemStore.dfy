/** The in-memory store: methods over seven mutable maps, each doing exactly one store operation. */
module MemStore {
  import opened Common
  import opened Store

  /** How a call that may miss or be refused ends. */
  datatype Result<T> = Ok(value: T) | NotFound | QuotaExceeded

  class MemStore {
    var tenants: map<Tenant, nat>
    var instances: map<string, Instance>
    var syncs: map<string, SyncState>
    var tokens: map<string, Token>
    var prefs: map<Tenant, Preferences>
    var weights: map<Tenant, Weights>
    var feedback: map<Tenant, seq<string>>

    function Rows(): Rows
      reads this
    {
      Store.Rows.Rows(tenants, instances, syncs, tokens, prefs, weights, feedback)
    }

    constructor ()
      ensures Rows() == EMPTY
    {
      tenants, instances, syncs, tokens := map[], map[], map[], map[];
      prefs, weights, feedback := map[], map[], map[];
    }

    method EnsureTenant(t: Tenant, now: nat) returns (created: nat)
      modifies this
      ensures Rows() == Do(old(Rows()), Ensure(t, now))
      ensures t in tenants && created == tenants[t]
    {
      if t !in tenants { tenants := tenants[t := now]; }
      created := tenants[t];
    }

    /** The loop that counts the tenant's instances. */
    method CountConnectorInstances(t: Tenant) returns (n: nat)
      ensures n == |Owned(Rows(), t)|
    {
      ghost var owned := Owned(Rows(), t);
      n := 0;
      var rest := instances.Keys;
      CountNone(owned, rest);
      while rest != {}
        invariant rest <= instances.Keys && n == |owned - rest|
        decreases |rest|
      {
        var id :| id in rest;
        CountOne(owned, rest, id);
        rest := rest - {id};
        if instances[id].tenant == t { n := n + 1; }
      }
      CountAll(owned);
    }

    method CreateConnectorInstance(inst: Instance, maxInstances: int, id: string, now: nat) returns (r: Result<Instance>)
      requires id !in instances
      modifies this
      ensures Rows() == Do(old(Rows()), Create(inst.tenant, inst, maxInstances, id, now))
      ensures r.QuotaExceeded? <==> old(QuotaReached(Rows(), inst.tenant, maxInstances))
      ensures r.Ok? <==> !r.QuotaExceeded?
      ensures r.Ok? ==> GetInstance(Rows(), inst.tenant, id) == Some(r.value)
    {
      if maxInstances > 0 {
        var n := CountConnectorInstances(inst.tenant);
        if n >= maxInstances { return QuotaExceeded; }
      }
      if inst.tenant !in tenants { tenants := tenants[inst.tenant := now]; }
      var stored := inst.(id := id, created := now, updated := now);
      instances := instances[id := stored];
      r := Ok(stored);
    }

    method DeleteConnectorInstance(t: Tenant, id: string) returns (r: Result<()>)
      modifies this
      ensures Rows() == Do(old(Rows()), DeleteInstance(t, id))
      ensures r == if old(Owns(Rows(), t, id)) then Ok(()) else NotFound
    {
      if !(id in instances && instances[id].tenant == t) { return NotFound; }
      instances := instances - {id};
      syncs := syncs - {id};
      tokens := tokens - {id};
      r := Ok(());
    }

    method GetSyncState(t: Tenant, id: string) returns (r: Result<SyncState>)
      ensures r == match GetSync(Rows(), t, id) case Some(st) => Ok(st) case None => NotFound
    {
      if !(id in instances && instances[id].tenant == t) { return NotFound; }
      if id !in syncs { return Ok(SyncState(id, t, "", "PENDING", "", 0)); }
      r := Ok(syncs[id]);
    }

    method SetSyncState(t: Tenant, st: SyncState) returns (r: Result<SyncState>)
      modifies this
      ensures Rows() == Do(old(Rows()), SetSync(t, st))
      ensures r == if old(Owns(Rows(), t, st.instance)) then Ok(st.(tenant := t)) else NotFound
    {
      if !(st.instance in instances && instances[st.instance].tenant == t) { return NotFound; }
      syncs := syncs[st.instance := st.(tenant := t)];
      r := Ok(st.(tenant := t));
    }

    method PutToken(t: Tenant, id: string, ciphertext: seq<bv8>) returns (r: Result<()>)
      modifies this
      ensures Rows() == Do(old(Rows()), Op.PutToken(t, id, ciphertext))
      ensures r == if old(Owns(Rows(), t, id)) then Ok(()) else NotFound
    {
      if !(id in instances && instances[id].tenant == t) { return NotFound; }
      tokens := tokens[id := Token(t, ciphertext)];
      r := Ok(());
    }

    method DeleteToken(t: Tenant, id: string) returns (r: Result<()>)
      modifies this
      ensures Rows() == Do(old(Rows()), Op.DeleteToken(t, id))
      ensures r == if old(GetToken(Rows(), t, id)).Some? then Ok(()) else NotFound
    {
      if !(id in tokens && tokens[id].tenant == t) { return NotFound; }
      tokens := tokens - {id};
      r := Ok(());
    }

    method PurgeTenant(t: Tenant) returns (instancesDeleted: nat, tokensDeleted: nat)
      modifies this
      ensures Rows() == Do(old(Rows()), Purge(t))
      ensures instancesDeleted == |Owned(old(Rows()), t)| && tokensDeleted == |PurgedTokens(old(Rows()), t)|
    {
      hide Owned, PurgedTokens;
      instancesDeleted, tokensDeleted := PurgeInstances(t);
      tenants := tenants - {t};
      prefs := prefs - {t};
      weights := weights - {t};
      feedback := feedback - {t};
    }

    /** The loop of PurgeTenant deletes from the tables it walks. */
    method PurgeInstances(t: Tenant) returns (instancesDeleted: nat, tokensDeleted: nat)
      modifies this`instances, this`syncs, this`tokens
      ensures instances == old(instances) - Owned(old(Rows()), t) && syncs == old(syncs) - Owned(old(Rows()), t)
      ensures tokens == old(tokens) - PurgedTokens(old(Rows()), t)
      ensures instancesDeleted == |Owned(old(Rows()), t)| && tokensDeleted == |PurgedTokens(old(Rows()), t)|
    {
      ghost var s := Rows();
      hide Walked, PurgedTokens, Owned;
      instancesDeleted, tokensDeleted := 0, 0;
      var rest := instances.Keys;
      ghost var done: set<string>, shed: set<string> := {}, {};
      NothingPurged(s, t);
      while rest != {}
        invariant rest <= s.instances.Keys && Walked(s, t, rest, done, shed)
        invariant instancesDeleted == |done| && tokensDeleted == |shed|
        invariant instances == s.instances - done && syncs == s.syncs - done && tokens == s.tokens - shed
        decreases |rest|
      {
        var id :| id in rest;
        NextPurged(s, t, rest, done, shed, id);
        rest := rest - {id};
        if instances[id].tenant != t { continue; }
        instancesDeleted := instancesDeleted + 1;
        if id in tokens && tokens[id].tenant == t {
          tokensDeleted := tokensDeleted + 1;
          MinusMore(s.tokens, shed, id);
          tokens := tokens - {id};
          shed := shed + {id};
        }
        MinusMore(s.instances, done, id);
        MinusMore(s.syncs, done, id);
        instances := instances - {id};
        syncs := syncs - {id};
        done := done + {id};
      }
      AllWalked(s, t, done, shed);
    }

    /** Whether no row survives, as far as the code looks. */
    method TenantResidue(t: Tenant) returns (empty: bool)
      ensures empty == Empty(Rows(), t)
    {
      if t in tenants { return false; }
      var ids := instances.Keys;
      while ids != {}
        invariant forall id :: id in instances && id !in ids ==> instances[id].tenant != t
        invariant ids <= instances.Keys
        decreases |ids|
      {
        var id :| id in ids;
        if instances[id].tenant == t { return false; }
        ids := ids - {id};
      }
      ids := tokens.Keys;
      while ids != {}
        invariant forall id :: id in tokens && id !in ids ==> tokens[id].tenant != t
        invariant ids <= tokens.Keys
        decreases |ids|
      {
        var id :| id in ids;
        if tokens[id].tenant == t { return false; }
        ids := ids - {id};
      }
      if t in prefs { return false; }
      if t in weights { return false; }
      if t in feedback && |feedback[t]| > 0 { return false; }
      return true;
    }

    method SetTenantConnectorStatus(t: Tenant, status: string, now: nat) returns (changed: nat)
      modifies this`instances
      ensures Rows() == Do(old(Rows()), SetStatus(t, status, now))
      ensures changed == |Differing(old(Rows()), t, status)|
    {
      ghost var s := Rows();
      ghost var moved: set<string> := {};
      changed := 0;
      var rest := instances.Keys;
      hide Switching, Moved, Differing, StatusSet;
      SwitchNone(s, t, status, now);
      while rest != {}
        invariant rest <= s.instances.Keys && Switching(s, instances, t, status, now, rest)
        invariant changed == |moved| && Moved(s, t, status, rest, moved)
        decreases |rest|
      {
        var id :| id in rest;
        SwitchOne(s, instances, t, status, now, rest, id, moved);
        rest := rest - {id};
        var inst := instances[id];
        if inst.tenant == t && inst.status != status {
          instances := instances[id := inst.(status := status, updated := now)];
          changed := changed + 1;
          moved := moved + {id};
        }
      }
      SwitchAll(s, instances, t, status, now, moved);
    }

    method PutPreferences(t: Tenant, profile: string, now: nat) returns (version: int)
      modifies this
      ensures Rows() == Do(old(Rows()), Op.PutPreferences(t, profile, now))
      ensures prefs[t] == Preferences(profile, version) && version >= 1
      ensures t in old(prefs) && old(prefs)[t].version >= 0 ==> version == old(prefs)[t].version + 1
    {
      if t !in tenants { tenants := tenants[t := now]; }
      version := (if t in prefs then prefs[t].version else 0) + 1;
      if version < 1 { version := 1; }
      prefs := prefs[t := Preferences(profile, version)];
    }

    method AppendFeedback(t: Tenant, event: string, now: nat)
      modifies this
      ensures Rows() == Do(old(Rows()), Op.AppendFeedback(t, event, now))
    {
      if t !in tenants { tenants := tenants[t := now]; }
      feedback := feedback[t := (if t in feedback then feedback[t] else []) + [event]];
    }

    /** `update` may fail; the tenant has been registered by then. */
    method UpdateLearnedWeights(t: Tenant, update: Weights -> Option<Weights>, now: nat) returns (ok: bool)
      modifies this
      ensures var cur := if t in old(weights) then old(weights)[t] else Weights("", 0);
              ok == update(cur).Some? && Rows() == Do(old(Rows()), UpdateWeights(t, update(cur), now))
    {
      if t !in tenants { tenants := tenants[t := now]; }
      var cur := if t in weights then weights[t] else Weights("", 0);
      var updated := update(cur);
      if updated.None? { return false; }
      weights := weights[t := updated.value];
      ok := true;
    }

    method ResetLearning(t: Tenant) returns (n: nat)
      modifies this
      ensures Rows() == Do(old(Rows()), Op.ResetLearning(t))
      ensures n == |Feedback(old(Rows()), t)|
    {
      n := if t in feedback then |feedback[t]| else 0;
      weights := weights - {t};
      feedback := feedback - {t};
    }
  }

  // ---------------------------------------------------------------- the purging loop

  /** Of the instances already walked, `done` were the tenant's and `shed` had its token. */
  ghost predicate Walked(s: Rows, t: Tenant, rest: set<string>, done: set<string>, shed: set<string>)
  {
    && (forall id :: id in done <==> id in Owned(s, t) && id !in rest)
    && (forall id :: id in shed <==> id in PurgedTokens(s, t) && id !in rest)
  }

  lemma {:induction false} NothingPurged(s: Rows, t: Tenant)
    ensures s.instances - {} == s.instances && s.syncs - {} == s.syncs && s.tokens - {} == s.tokens
    ensures Walked(s, t, s.instances.Keys, {}, {})
  {
  }

  lemma {:induction false} NextPurged(s: Rows, t: Tenant, rest: set<string>, done: set<string>, shed: set<string>, id: string)
    requires rest <= s.instances.Keys && Walked(s, t, rest, done, shed) && id in rest
    ensures id !in done && id !in shed
    ensures var owned := s.instances[id].tenant == t;
            var token := owned && id in s.tokens && s.tokens[id].tenant == t;
            Walked(s, t, rest - {id}, if owned then done + {id} else done, if token then shed + {id} else shed)
  {
  }

  lemma {:induction false} MinusMore<V>(m: map<string, V>, done: set<string>, id: string)
    ensures m - (done + {id}) == (m - done) - {id}
  {
  }

  lemma {:induction false} AllWalked(s: Rows, t: Tenant, done: set<string>, shed: set<string>)
    requires Walked(s, t, {}, done, shed)
    ensures done == Owned(s, t) && shed == PurgedTokens(s, t)
  {
  }

  // ---------------------------------------------------------------- counting and switching

  lemma {:induction false} CountNone(owned: set<string>, rest: set<string>)
    requires owned <= rest
    ensures |owned - rest| == 0
  {
    assert owned - rest == {};
  }

  lemma {:induction false} CountOne(owned: set<string>, rest: set<string>, id: string)
    requires id in rest
    ensures |owned - (rest - {id})| == |owned - rest| + if id in owned then 1 else 0
  {
    assert owned - (rest - {id}) == (owned - rest) + if id in owned then {id} else {};
  }

  lemma {:induction false} CountAll(owned: set<string>)
    ensures |owned - {}| == |owned|
  {
    assert owned - {} == owned;
  }

  ghost predicate Switching(s: Rows, instances: map<string, Instance>, t: Tenant, status: string, now: nat, rest: set<string>)
  {
    && instances.Keys == s.instances.Keys
    && forall id :: id in s.instances ==> instances[id] == if id in rest then s.instances[id] else WithStatus(s.instances[id], t, status, now)
  }

  /** The tenant's instances whose status is not `status` yet. */
  function Differing(s: Rows, t: Tenant, status: string): set<string>
  {
    set id | id in s.instances && s.instances[id].tenant == t && s.instances[id].status != status
  }

  ghost predicate Moved(s: Rows, t: Tenant, status: string, rest: set<string>, moved: set<string>)
  {
    forall id :: id in moved <==> id in s.instances && id !in rest && s.instances[id].tenant == t && s.instances[id].status != status
  }

  lemma {:induction false} SwitchNone(s: Rows, t: Tenant, status: string, now: nat)
    ensures Switching(s, s.instances, t, status, now, s.instances.Keys) && Moved(s, t, status, s.instances.Keys, {})
  {
  }

  lemma {:induction false} SwitchOne(s: Rows, instances: map<string, Instance>, t: Tenant, status: string, now: nat, rest: set<string>, id: string, moved: set<string>)
    requires Switching(s, instances, t, status, now, rest) && Moved(s, t, status, rest, moved) && rest <= s.instances.Keys && id in rest
    ensures id in instances && instances[id] == s.instances[id] && id !in moved
    ensures var inst := instances[id];
            if inst.tenant == t && inst.status != status then
              Switching(s, instances[id := inst.(status := status, updated := now)], t, status, now, rest - {id}) && Moved(s, t, status, rest - {id}, moved + {id})
            else
              Switching(s, instances, t, status, now, rest - {id}) && Moved(s, t, status, rest - {id}, moved)
  {
  }

  lemma {:induction false} SwitchAll(s: Rows, instances: map<string, Instance>, t: Tenant, status: string, now: nat, moved: set<string>)
    requires Switching(s, instances, t, status, now, {}) && Moved(s, t, status, {}, moved)
    ensures s.(instances := instances) == StatusSet(s, t, status, now)
    ensures moved == Differing(s, t, status)
  {
  }
}
