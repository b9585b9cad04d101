/**
The control-plane store as a state machine: seven tables shared by all tenants,
and what every sequence of operations keeps true of them.
*/
module Store {
  import opened Common

  type Tenant = string

  datatype Instance = Instance(id: string, tenant: Tenant, connector: string, name: string, config: string, status: string, created: nat, updated: nat)
  datatype SyncState = SyncState(instance: string, tenant: Tenant, cursor: string, phase: string, lastError: string, docsEmitted: int)
  datatype Token = Token(tenant: Tenant, ciphertext: seq<bv8>)
  datatype Preferences = Preferences(profile: string, version: int)
  datatype Weights = Weights(json: string, samples: int)

  /** The tables.  Instances, sync states and tokens are keyed by instance id, the rest by tenant. */
  datatype Rows = Rows(
    tenants: map<Tenant, nat>,
    instances: map<string, Instance>,
    syncs: map<string, SyncState>,
    tokens: map<string, Token>,
    prefs: map<Tenant, Preferences>,
    weights: map<Tenant, Weights>,
    feedback: map<Tenant, seq<string>>)

  const EMPTY := Rows(map[], map[], map[], map[], map[], map[], map[])

  // ---------------------------------------------------------------- reads

  predicate Owns(s: Rows, t: Tenant, id: string) { id in s.instances && s.instances[id].tenant == t }

  function Owned(s: Rows, t: Tenant): set<string> { set id | id in s.instances && s.instances[id].tenant == t }

  function GetInstance(s: Rows, t: Tenant, id: string): Option<Instance>
  {
    if Owns(s, t, id) then Some(s.instances[id]) else None
  }

  function GetSync(s: Rows, t: Tenant, id: string): Option<SyncState>
  {
    if !Owns(s, t, id) then None
    else if id in s.syncs then Some(s.syncs[id])
    else Some(SyncState(id, t, "", "PENDING", "", 0))
  }

  function GetToken(s: Rows, t: Tenant, id: string): Option<seq<bv8>>
  {
    if id in s.tokens && s.tokens[id].tenant == t then Some(s.tokens[id].ciphertext) else None
  }

  function Feedback(s: Rows, t: Tenant): seq<string> { if t in s.feedback then s.feedback[t] else [] }

  ghost predicate SameConnectors(t: Tenant, s: Rows, s': Rows)
  {
    forall id :: GetInstance(s, t, id) == GetInstance(s', t, id) && GetSync(s, t, id) == GetSync(s', t, id) && GetToken(s, t, id) == GetToken(s', t, id)
  }

  predicate SameTables(t: Tenant, s: Rows, s': Rows)
  {
    && Lookup(s.tenants, t) == Lookup(s'.tenants, t)
    && Lookup(s.prefs, t) == Lookup(s'.prefs, t)
    && Lookup(s.weights, t) == Lookup(s'.weights, t)
    && Feedback(s, t) == Feedback(s', t)
  }

  /** Everything tenant `t` can read is the same in both states. */
  ghost predicate SameFor(t: Tenant, s: Rows, s': Rows) { SameConnectors(t, s, s') && SameTables(t, s, s') }

  // ---------------------------------------------------------------- operations

  datatype Op =
    | Ensure(t: Tenant, now: nat)
    | Create(t: Tenant, inst: Instance, max: int, id: string, now: nat)
    | DeleteInstance(t: Tenant, id: string)
    | SetSync(t: Tenant, st: SyncState)
    | PutToken(t: Tenant, id: string, ciphertext: seq<bv8>)
    | DeleteToken(t: Tenant, id: string)
    | Purge(t: Tenant)
    | SetStatus(t: Tenant, status: string, now: nat)
    | PutPreferences(t: Tenant, profile: string, now: nat)
    | AppendFeedback(t: Tenant, event: string, now: nat)
    | UpdateWeights(t: Tenant, updated: Option<Weights>, now: nat)
    | ResetLearning(t: Tenant)

  /** uuid.NewString returns an id not in use; the tenant is the instance's own. */
  predicate Enabled(s: Rows, op: Op)
  {
    op.Create? ==> op.id !in s.instances && op.inst.tenant == op.t
  }

  function Registered(s: Rows, t: Tenant, now: nat): Rows
  {
    if t in s.tenants then s else s.(tenants := s.tenants[t := now])
  }

  predicate QuotaReached(s: Rows, t: Tenant, max: int) { max > 0 && |Owned(s, t)| >= max }

  function Created(s: Rows, inst: Instance, max: int, id: string, now: nat): Rows
  {
    if QuotaReached(s, inst.tenant, max) then s
    else
      var r := Registered(s, inst.tenant, now);
      r.(instances := r.instances[id := inst.(id := id, created := now, updated := now)])
  }

  function InstanceDeleted(s: Rows, t: Tenant, id: string): Rows
  {
    if Owns(s, t, id) then s.(instances := s.instances - {id}, syncs := s.syncs - {id}, tokens := s.tokens - {id}) else s
  }

  function SyncSet(s: Rows, t: Tenant, st: SyncState): Rows
  {
    if Owns(s, t, st.instance) then s.(syncs := s.syncs[st.instance := st.(tenant := t)]) else s
  }

  function TokenPut(s: Rows, t: Tenant, id: string, ciphertext: seq<bv8>): Rows
  {
    if Owns(s, t, id) then s.(tokens := s.tokens[id := Token(t, ciphertext)]) else s
  }

  function TokenDeleted(s: Rows, t: Tenant, id: string): Rows
  {
    if GetToken(s, t, id).Some? then s.(tokens := s.tokens - {id}) else s
  }

  /** The tokens PurgeTenant deletes: those of the tenant on its own instances. */
  function PurgedTokens(s: Rows, t: Tenant): set<string>
  {
    set id | id in s.tokens && Owns(s, t, id) && s.tokens[id].tenant == t
  }

  function Purged(s: Rows, t: Tenant): Rows
  {
    Rows(s.tenants - {t}, s.instances - Owned(s, t), s.syncs - Owned(s, t), s.tokens - PurgedTokens(s, t),
         s.prefs - {t}, s.weights - {t}, s.feedback - {t})
  }

  function WithStatus(inst: Instance, t: Tenant, status: string, now: nat): Instance
  {
    if inst.tenant == t && inst.status != status then inst.(status := status, updated := now) else inst
  }

  function StatusSet(s: Rows, t: Tenant, status: string, now: nat): Rows
  {
    s.(instances := map id | id in s.instances :: WithStatus(s.instances[id], t, status, now))
  }

  function PreferencesPut(s: Rows, t: Tenant, profile: string, now: nat): Rows
  {
    var r := Registered(s, t, now);
    var version := (if t in s.prefs then s.prefs[t].version else 0) + 1;
    r.(prefs := r.prefs[t := Preferences(profile, if version < 1 then 1 else version)])
  }

  function FeedbackAppended(s: Rows, t: Tenant, event: string, now: nat): Rows
  {
    var r := Registered(s, t, now);
    r.(feedback := r.feedback[t := Feedback(s, t) + [event]])
  }

  function WeightsUpdated(s: Rows, t: Tenant, updated: Option<Weights>, now: nat): Rows
  {
    var r := Registered(s, t, now);
    if updated.Some? then r.(weights := r.weights[t := updated.value]) else r
  }

  function LearningReset(s: Rows, t: Tenant): Rows
  {
    s.(weights := s.weights - {t}, feedback := s.feedback - {t})
  }

  function Do(s: Rows, op: Op): Rows
  {
    match op
    case Ensure(t, now) => Registered(s, t, now)
    case Create(_, inst, max, id, now) => Created(s, inst, max, id, now)
    case DeleteInstance(t, id) => InstanceDeleted(s, t, id)
    case SetSync(t, st) => SyncSet(s, t, st)
    case PutToken(t, id, c) => TokenPut(s, t, id, c)
    case DeleteToken(t, id) => TokenDeleted(s, t, id)
    case Purge(t) => Purged(s, t)
    case SetStatus(t, status, now) => StatusSet(s, t, status, now)
    case PutPreferences(t, p, now) => PreferencesPut(s, t, p, now)
    case AppendFeedback(t, e, now) => FeedbackAppended(s, t, e, now)
    case UpdateWeights(t, u, now) => WeightsUpdated(s, t, u, now)
    case ResetLearning(t) => LearningReset(s, t)
  }

  // ---------------------------------------------------------------- reading what was written

  /** A token stored for an owned instance is the one read back, until it is deleted. */
  lemma {:induction false} TokenReads(s: Rows, t: Tenant, id: string, c: seq<bv8>, x: string)
    requires Attached(s)
    ensures GetToken(Do(s, PutToken(t, id, c)), t, x) == if x == id && Owns(s, t, id) then Some(c) else GetToken(s, t, x)
    ensures GetToken(Do(s, DeleteToken(t, id)), t, x) == if x == id then None else GetToken(s, t, x)
    ensures GetToken(Do(s, DeleteInstance(t, id)), t, x) == if x == id then None else GetToken(s, t, x)
  {
  }

  /** A sync state stored for an owned instance is the one read back, under the caller's tenant. */
  lemma {:induction false} SyncReads(s: Rows, t: Tenant, st: SyncState, x: string)
    ensures GetSync(Do(s, SetSync(t, st)), t, x) == if x == st.instance && Owns(s, t, x) then Some(st.(tenant := t)) else GetSync(s, t, x)
    ensures Owns(s, t, x) && x !in s.syncs ==> GetSync(s, t, x) == Some(SyncState(x, t, "", "PENDING", "", 0))
    ensures !Owns(s, t, x) ==> GetSync(s, t, x) == None
    ensures GetSync(Do(s, DeleteInstance(t, st.instance)), t, st.instance) == None
  {
  }

  /** After SetStatus every instance of the tenant has the status, and only instances that did not are stamped. */
  lemma {:induction false} StatusReads(s: Rows, t: Tenant, status: string, now: nat, id: string)
    ensures var (i, i') := (GetInstance(s, t, id), GetInstance(Do(s, SetStatus(t, status, now)), t, id));
            && (i.None? <==> i'.None?)
            && (i.Some? ==> i'.value == i.value.(status := status, updated := if i.value.status == status then i.value.updated else now))
  {
  }

  /** Below the quota a created instance is read back with its id and times; at the quota nothing changes. */
  lemma {:induction false} CreateReads(s: Rows, inst: Instance, max: int, id: string, now: nat, x: string)
    requires id !in s.instances
    ensures var s' := Do(s, Create(inst.tenant, inst, max, id, now));
            if max > 0 && |Owned(s, inst.tenant)| >= max then s' == s
            else
              && inst.tenant in s'.tenants
              && GetInstance(s', inst.tenant, x) == if x == id then Some(inst.(id := id, created := now, updated := now)) else GetInstance(s, inst.tenant, x)
  {
  }

  lemma {:induction false} DeleteReads(s: Rows, t: Tenant, id: string, x: string)
    ensures GetInstance(Do(s, DeleteInstance(t, id)), t, x) == if x == id then None else GetInstance(s, t, x)
  {
  }

  /** Preferences are read back, one version on. */
  lemma {:induction false} PreferencesRead(s: Rows, t: Tenant, profile: string, now: nat)
    ensures Lookup(Do(s, PutPreferences(t, profile, now)).prefs, t)
         == Some(Preferences(profile, if t in s.prefs && s.prefs[t].version >= 0 then s.prefs[t].version + 1 else 1))
  {
  }

  /** Feedback is appended, weights are replaced, and a reset forgets both. */
  lemma {:induction false} LearningReads(s: Rows, t: Tenant, event: string, w: Option<Weights>, now: nat)
    ensures Feedback(Do(s, AppendFeedback(t, event, now)), t) == Feedback(s, t) + [event]
    ensures Lookup(Do(s, UpdateWeights(t, w, now)).weights, t) == if w.Some? then w else Lookup(s.weights, t)
    ensures Feedback(Do(s, ResetLearning(t)), t) == [] && t !in Do(s, ResetLearning(t)).weights
  {
    assert Registered(s, t, now).weights == s.weights;
    hide Registered;
  }

  /** A tenant is registered once, with the time of its first write. */
  lemma {:induction false} TenantReads(s: Rows, t: Tenant, now: nat)
    ensures Lookup(Do(s, Ensure(t, now)).tenants, t) == Some(if t in s.tenants then s.tenants[t] else now)
  {
  }

  // ---------------------------------------------------------------- invariants

  /** Each sync row and token belongs to an existing instance of the same tenant. */
  ghost predicate Attached(s: Rows)
  {
    && (forall id :: id in s.syncs ==> Owns(s, s.syncs[id].tenant, id) && s.syncs[id].instance == id)
    && (forall id :: id in s.tokens ==> Owns(s, s.tokens[id].tenant, id))
  }

  /** Every row belongs to a registered tenant. */
  ghost predicate AllRegistered(s: Rows)
  {
    && (forall id :: id in s.instances ==> s.instances[id].tenant in s.tenants && s.instances[id].id == id)
    && (forall t :: t in s.prefs || t in s.weights || t in s.feedback ==> t in s.tenants)
  }

  ghost predicate Inv(s: Rows) { Attached(s) && AllRegistered(s) }

  /**
   * What every operation by tenant `t` owes: the invariants, and that nothing
   * another tenant can read changes.
   */
  ghost predicate Safe(t: Tenant, s: Rows, s': Rows)
  {
    Inv(s') && forall u :: u != t ==> SameFor(u, s, s')
  }

  /** At most the entry of `k` differs. */
  ghost predicate OnlyAt<V>(k: string, m: map<string, V>, m': map<string, V>)
  {
    forall x :: x != k ==> Lookup(m, x) == Lookup(m', x)
  }

  lemma {:induction false} PutIsOnlyAt<V>(k: string, m: map<string, V>, v: V)
    ensures OnlyAt(k, m, m[k := v])
  {
  }

  lemma {:induction false} DropIsOnlyAt<V>(k: string, m: map<string, V>)
    ensures OnlyAt(k, m, m) && OnlyAt(k, m, m - {k})
  {
  }

  /** Operations on the tables keyed by tenant. */
  ghost predicate TableOp(t: Tenant, s: Rows, s': Rows)
  {
    && s'.instances == s.instances && s'.syncs == s.syncs && s'.tokens == s.tokens
    && (t in s.tenants || t in s'.prefs || t in s'.weights || t in s'.feedback ==> t in s'.tenants)
    && OnlyAt(t, s.tenants, s'.tenants) && OnlyAt(t, s.prefs, s'.prefs)
    && OnlyAt(t, s.weights, s'.weights) && OnlyAt(t, s.feedback, s'.feedback)
  }

  lemma {:induction false} TableOpSameFor(t: Tenant, s: Rows, s': Rows, u: Tenant)
    requires TableOp(t, s, s') && u != t
    ensures SameFor(u, s, s')
    ensures u in s'.prefs || u in s'.weights || u in s'.feedback ==> u in s.prefs || u in s.weights || u in s.feedback
    ensures u in s.tenants <==> u in s'.tenants
  {
    assert Lookup(s.tenants, u) == Lookup(s'.tenants, u) && Lookup(s.prefs, u) == Lookup(s'.prefs, u);
    assert Lookup(s.weights, u) == Lookup(s'.weights, u) && Lookup(s.feedback, u) == Lookup(s'.feedback, u);
    hide OnlyAt;
  }

  lemma {:induction false} SameAttached(s: Rows, s': Rows)
    requires Attached(s) && s'.instances == s.instances && s'.syncs == s.syncs && s'.tokens == s.tokens
    ensures Attached(s')
  {
  }

  lemma {:induction false} TableOpIsSafe(t: Tenant, s: Rows, s': Rows)
    requires Inv(s) && TableOp(t, s, s')
    ensures Safe(t, s, s')
  {
    SameAttached(s, s');
    hide OnlyAt, Attached;
    forall u | u != t
      ensures SameFor(u, s, s') && (u in s.tenants <==> u in s'.tenants)
      ensures u in s'.prefs || u in s'.weights || u in s'.feedback ==> u in s.prefs || u in s.weights || u in s.feedback
    {
      TableOpSameFor(t, s, s', u);
    }
    hide SameFor;
  }

  const NONE := Preferences("", 0)
  const NO_WEIGHTS := Weights("", 0)

  lemma {:induction false} Tables(s: Rows, t: Tenant, now: nat, p: Preferences, w: Weights, f: seq<string>)
    ensures OnlyAt(t, s.tenants, s.tenants) && OnlyAt(t, s.tenants, s.tenants[t := now])
    ensures OnlyAt(t, s.prefs, s.prefs) && OnlyAt(t, s.prefs, s.prefs[t := p])
    ensures OnlyAt(t, s.weights, s.weights) && OnlyAt(t, s.weights, s.weights[t := w]) && OnlyAt(t, s.weights, s.weights - {t})
    ensures OnlyAt(t, s.feedback, s.feedback) && OnlyAt(t, s.feedback, s.feedback[t := f]) && OnlyAt(t, s.feedback, s.feedback - {t})
  {
    hide OnlyAt;
    PutIsOnlyAt(t, s.tenants, now);
    PutIsOnlyAt(t, s.prefs, p);
    PutIsOnlyAt(t, s.weights, w);
    PutIsOnlyAt(t, s.feedback, f);
    DropIsOnlyAt(t, s.tenants);
    DropIsOnlyAt(t, s.prefs);
    DropIsOnlyAt(t, s.weights);
    DropIsOnlyAt(t, s.feedback);
  }

  lemma {:induction false} RegisteredIsSafe(s: Rows, t: Tenant, now: nat)
    requires Inv(s)
    ensures Safe(t, s, Registered(s, t, now))
  {
    hide OnlyAt, Attached, Safe, Feedback;
    Tables(s, t, now, NONE, NO_WEIGHTS, []);
    TableOpIsSafe(t, s, Registered(s, t, now));
  }

  lemma {:induction false} PreferencesPutIsSafe(s: Rows, t: Tenant, profile: string, now: nat)
    requires Inv(s)
    ensures Safe(t, s, PreferencesPut(s, t, profile, now))
  {
    hide OnlyAt, Attached, Safe, Feedback;
    Tables(s, t, now, PreferencesPut(s, t, profile, now).prefs[t], NO_WEIGHTS, []);
    TableOpIsSafe(t, s, PreferencesPut(s, t, profile, now));
  }

  lemma {:induction false} FeedbackAppendedIsSafe(s: Rows, t: Tenant, event: string, now: nat)
    requires Inv(s)
    ensures Safe(t, s, FeedbackAppended(s, t, event, now))
  {
    hide OnlyAt, Attached, Safe, Feedback;
    Tables(s, t, now, NONE, NO_WEIGHTS, Feedback(s, t) + [event]);
    TableOpIsSafe(t, s, FeedbackAppended(s, t, event, now));
  }

  lemma {:induction false} WeightsUpdatedIsSafe(s: Rows, t: Tenant, updated: Option<Weights>, now: nat)
    requires Inv(s)
    ensures Safe(t, s, WeightsUpdated(s, t, updated, now))
  {
    hide OnlyAt, Attached, Safe, Feedback;
    Tables(s, t, now, NONE, if updated.Some? then updated.value else NO_WEIGHTS, []);
    TableOpIsSafe(t, s, WeightsUpdated(s, t, updated, now));
  }

  lemma {:induction false} LearningResetIsSafe(s: Rows, t: Tenant)
    requires Inv(s)
    ensures Safe(t, s, LearningReset(s, t))
  {
    hide OnlyAt, Attached, Safe, Feedback;
    Tables(s, t, 0, NONE, NO_WEIGHTS, []);
    TableOpIsSafe(t, s, LearningReset(s, t));
  }

  /** Operations on the tables keyed by instance. */
  ghost predicate ConnectorOp(t: Tenant, s: Rows, s': Rows)
  {
    && s'.tenants == s.tenants && s'.prefs == s.prefs && s'.weights == s.weights && s'.feedback == s.feedback
    && Attached(s')
    && (forall id :: id in s'.instances ==> s'.instances[id].id == id && s'.instances[id].tenant in s.tenants)
    && forall u :: u != t ==> SameConnectors(u, s, s')
  }

  lemma {:induction false} ConnectorOpIsSafe(t: Tenant, s: Rows, s': Rows)
    requires Inv(s) && ConnectorOp(t, s, s')
    ensures Safe(t, s, s')
  {
    hide SameConnectors, Attached;
  }

  /** Operations on the rows of one instance the tenant owns. */
  ghost predicate RowOp(t: Tenant, s: Rows, s': Rows, id: string)
  {
    && s'.tenants == s.tenants && s'.prefs == s.prefs && s'.weights == s.weights && s'.feedback == s.feedback
    && OnlyAt(id, s.instances, s'.instances) && OnlyAt(id, s.syncs, s'.syncs) && OnlyAt(id, s.tokens, s'.tokens)
    && Owns(s, t, id)
    && (id in s'.instances ==> s'.instances[id] == s.instances[id])
    && (id in s'.syncs ==> id in s'.instances && s'.syncs[id].tenant == t && s'.syncs[id].instance == id)
    && (id in s'.tokens ==> id in s'.instances && s'.tokens[id].tenant == t)
  }

  lemma {:induction false} RowOpSees(t: Tenant, s: Rows, s': Rows, id: string, u: Tenant, x: string)
    requires Attached(s) && RowOp(t, s, s', id) && u != t
    ensures GetInstance(s, u, x) == GetInstance(s', u, x) && GetSync(s, u, x) == GetSync(s', u, x) && GetToken(s, u, x) == GetToken(s', u, x)
  {
    assert x != id ==> Lookup(s.instances, x) == Lookup(s'.instances, x) && Lookup(s.syncs, x) == Lookup(s'.syncs, x) && Lookup(s.tokens, x) == Lookup(s'.tokens, x);
    hide OnlyAt;
  }

  lemma {:induction false} RowOpAttached(t: Tenant, s: Rows, s': Rows, id: string, x: string)
    requires Inv(s) && RowOp(t, s, s', id)
    ensures x in s'.syncs ==> Owns(s', s'.syncs[x].tenant, x) && s'.syncs[x].instance == x
    ensures x in s'.tokens ==> Owns(s', s'.tokens[x].tenant, x)
    ensures x in s'.instances ==> s'.instances[x].id == x && s'.instances[x].tenant in s.tenants
  {
    assert x != id ==> Lookup(s.instances, x) == Lookup(s'.instances, x) && Lookup(s.syncs, x) == Lookup(s'.syncs, x) && Lookup(s.tokens, x) == Lookup(s'.tokens, x);
    hide OnlyAt;
  }

  lemma {:induction false} RowOpIsSafe(t: Tenant, s: Rows, s': Rows, id: string)
    requires Inv(s) && RowOp(t, s, s', id)
    ensures Safe(t, s, s')
  {
    forall x ensures x in s'.syncs ==> Owns(s', s'.syncs[x].tenant, x) && s'.syncs[x].instance == x { RowOpAttached(t, s, s', id, x); }
    forall x ensures x in s'.tokens ==> Owns(s', s'.tokens[x].tenant, x) { RowOpAttached(t, s, s', id, x); }
    forall x | x in s'.instances ensures s'.instances[x].id == x && s'.instances[x].tenant in s.tenants { RowOpAttached(t, s, s', id, x); }
    assert Attached(s');
    forall u | u != t ensures SameConnectors(u, s, s') {
      hide Owns, OnlyAt, GetInstance, GetSync, GetToken;
      forall x ensures GetInstance(s, u, x) == GetInstance(s', u, x) && GetSync(s, u, x) == GetSync(s', u, x) && GetToken(s, u, x) == GetToken(s', u, x) {
        RowOpSees(t, s, s', id, u, x);
      }
    }
    hide SameConnectors, Attached, Safe, OnlyAt;
    ConnectorOpIsSafe(t, s, s');
  }

  lemma {:induction false} InstanceDeletedIsSafe(s: Rows, t: Tenant, id: string)
    requires Inv(s)
    ensures Safe(t, s, InstanceDeleted(s, t, id))
  {
    hide OnlyAt, Attached, Safe;
    if Owns(s, t, id) {
      DropIsOnlyAt(id, s.instances);
      DropIsOnlyAt(id, s.syncs);
      DropIsOnlyAt(id, s.tokens);
      RowOpIsSafe(t, s, InstanceDeleted(s, t, id), id);
    } else {
      Unchanged(s, t);
    }
  }

  lemma {:induction false} SyncSetIsSafe(s: Rows, t: Tenant, st: SyncState)
    requires Inv(s)
    ensures Safe(t, s, SyncSet(s, t, st))
  {
    var id := st.instance;
    if Owns(s, t, id) {
      assert id in s.tokens ==> s.tokens[id].tenant == t;
      hide OnlyAt, Attached, Safe;
      DropIsOnlyAt(id, s.instances);
      PutIsOnlyAt(id, s.syncs, st.(tenant := t));
      DropIsOnlyAt(id, s.tokens);
      RowOpIsSafe(t, s, SyncSet(s, t, st), id);
    } else {
      Unchanged(s, t);
    }
  }

  lemma {:induction false} TokenPutIsSafe(s: Rows, t: Tenant, id: string, c: seq<bv8>)
    requires Inv(s)
    ensures Safe(t, s, TokenPut(s, t, id, c))
  {
    if Owns(s, t, id) {
      assert id in s.syncs ==> s.syncs[id].tenant == t && s.syncs[id].instance == id;
      hide OnlyAt, Attached, Safe;
      DropIsOnlyAt(id, s.instances);
      DropIsOnlyAt(id, s.syncs);
      PutIsOnlyAt(id, s.tokens, Token(t, c));
      RowOpIsSafe(t, s, TokenPut(s, t, id, c), id);
    } else {
      Unchanged(s, t);
    }
  }

  lemma {:induction false} TokenDeletedIsSafe(s: Rows, t: Tenant, id: string)
    requires Inv(s)
    ensures Safe(t, s, TokenDeleted(s, t, id))
  {
    if GetToken(s, t, id).Some? {
      assert Owns(s, t, id) && (id in s.syncs ==> s.syncs[id].tenant == t && s.syncs[id].instance == id);
      hide OnlyAt, Attached, Safe;
      DropIsOnlyAt(id, s.instances);
      DropIsOnlyAt(id, s.syncs);
      DropIsOnlyAt(id, s.tokens);
      RowOpIsSafe(t, s, TokenDeleted(s, t, id), id);
    } else {
      Unchanged(s, t);
    }
  }

  lemma {:induction false} StatusSetIsSafe(s: Rows, t: Tenant, status: string, now: nat)
    requires Inv(s)
    ensures Safe(t, s, StatusSet(s, t, status, now))
  {
    var s' := StatusSet(s, t, status, now);
    forall u | u != t ensures SameConnectors(u, s, s') { }
    hide SameConnectors, Safe;
    ConnectorOpIsSafe(t, s, s');
  }

  lemma {:induction false} Inserted(s: Rows, inst: Instance)
    requires Inv(s) && inst.id !in s.instances && inst.tenant in s.tenants
    ensures Safe(inst.tenant, s, s.(instances := s.instances[inst.id := inst]))
  {
    var s' := s.(instances := s.instances[inst.id := inst]);
    forall u | u != inst.tenant ensures SameConnectors(u, s, s') { }
    hide SameConnectors, Safe;
    ConnectorOpIsSafe(inst.tenant, s, s');
  }

  lemma {:induction false} SafeTransitive(t: Tenant, s: Rows, r: Rows, s': Rows)
    requires Safe(t, s, r) && Safe(t, r, s')
    ensures Safe(t, s, s')
  {
    hide Inv;
    forall u | u != t ensures SameFor(u, s, s') {
      assert SameFor(u, s, r) && SameFor(u, r, s');
      hide GetInstance, GetSync, GetToken;
    }
  }

  lemma {:induction false} CreatedIsSafe(s: Rows, inst: Instance, max: int, id: string, now: nat)
    requires Inv(s) && id !in s.instances
    ensures Safe(inst.tenant, s, Created(s, inst, max, id, now))
  {
    hide Safe, Inv, QuotaReached;
    if QuotaReached(s, inst.tenant, max) {
      Unchanged(s, inst.tenant);
    } else {
      var r := Registered(s, inst.tenant, now);
      RegisteredIsSafe(s, inst.tenant, now);
      SafeIsInv(inst.tenant, s, r);
      Inserted(r, inst.(id := id, created := now, updated := now));
      SafeTransitive(inst.tenant, s, r, Created(s, inst, max, id, now));
    }
  }

  lemma {:induction false} Unchanged(s: Rows, t: Tenant)
    requires Inv(s)
    ensures Safe(t, s, s)
  {
  }

  lemma {:induction false} SafeIsInv(t: Tenant, s: Rows, s': Rows)
    requires Safe(t, s, s')
    ensures Inv(s')
  {
  }

  lemma {:induction false} PurgedConnectors(s: Rows, t: Tenant, u: Tenant)
    requires Attached(s) && u != t
    ensures SameConnectors(u, s, Purged(s, t))
  {
  }

  lemma {:induction false} PurgedTables(s: Rows, t: Tenant, u: Tenant)
    requires u != t
    ensures SameTables(u, s, Purged(s, t))
  {
    hide Owned, PurgedTokens;
  }

  lemma {:induction false} PurgedAttached(s: Rows, t: Tenant)
    requires Attached(s)
    ensures Attached(Purged(s, t))
  {
  }

  lemma {:induction false} PurgedRegistered(s: Rows, t: Tenant)
    requires AllRegistered(s)
    ensures AllRegistered(Purged(s, t))
  {
    hide PurgedTokens;
  }

  lemma {:induction false} PurgedIsSafe(s: Rows, t: Tenant)
    requires Inv(s)
    ensures Safe(t, s, Purged(s, t))
  {
    hide Purged, SameConnectors, SameTables, Attached, AllRegistered;
    PurgedAttached(s, t);
    PurgedRegistered(s, t);
    forall u | u != t ensures SameFor(u, s, Purged(s, t)) {
      PurgedConnectors(s, t, u);
      PurgedTables(s, t, u);
    }
  }

  /** Every operation, in every state the invariants allow. */
  lemma {:induction false} OpIsSafe(s: Rows, op: Op)
    requires Inv(s) && Enabled(s, op)
    ensures Safe(op.t, s, Do(s, op))
  {
    hide Safe, Inv, Registered, Created, InstanceDeleted, SyncSet, TokenPut, TokenDeleted, Purged, StatusSet, PreferencesPut, FeedbackAppended, WeightsUpdated, LearningReset;
    match op
    case Ensure(t, now) => RegisteredIsSafe(s, t, now);
    case Create(_, inst, max, id, now) => CreatedIsSafe(s, inst, max, id, now);
    case DeleteInstance(t, id) => InstanceDeletedIsSafe(s, t, id);
    case SetSync(t, st) => SyncSetIsSafe(s, t, st);
    case PutToken(t, id, c) => TokenPutIsSafe(s, t, id, c);
    case DeleteToken(t, id) => TokenDeletedIsSafe(s, t, id);
    case Purge(t) => PurgedIsSafe(s, t);
    case SetStatus(t, status, now) => StatusSetIsSafe(s, t, status, now);
    case PutPreferences(t, p, now) => PreferencesPutIsSafe(s, t, p, now);
    case AppendFeedback(t, e, now) => FeedbackAppendedIsSafe(s, t, e, now);
    case UpdateWeights(t, u, now) => WeightsUpdatedIsSafe(s, t, u, now);
    case ResetLearning(t) => LearningResetIsSafe(s, t);
  }

  // ---------------------------------------------------------------- every sequence of operations

  predicate Ok(s: Rows, ops: seq<Op>)
    decreases |ops|
  {
    ops == [] || (Enabled(s, ops[0]) && Ok(Do(s, ops[0]), ops[1..]))
  }

  function Final(s: Rows, ops: seq<Op>): Rows
    decreases |ops|
  {
    if ops == [] then s else Final(Do(s, ops[0]), ops[1..])
  }

  lemma {:induction false} RunKeepsInv(s: Rows, ops: seq<Op>)
    requires Inv(s) && Ok(s, ops)
    ensures Inv(Final(s, ops))
    decreases |ops|
  {
    hide Inv, Do;
    if ops != [] {
      OpIsSafe(s, ops[0]);
      SafeIsInv(ops[0].t, s, Do(s, ops[0]));
      RunKeepsInv(Do(s, ops[0]), ops[1..]);
    }
  }

  /** From the empty store, every reachable state has every row attached and registered. */
  lemma {:induction false} ReachableIsSound(ops: seq<Op>)
    requires Ok(EMPTY, ops)
    ensures Attached(Final(EMPTY, ops)) && AllRegistered(Final(EMPTY, ops))
  {
    RunKeepsInv(EMPTY, ops);
    hide Ok, Final, Do;
  }

  lemma {:induction false} OthersAreInvisible(s: Rows, ops: seq<Op>, t: Tenant)
    requires Inv(s) && Ok(s, ops) && forall i :: 0 <= i < |ops| ==> ops[i].t != t
    ensures SameFor(t, s, Final(s, ops))
    decreases |ops|
  {
    hide Inv, Do, SameFor;
    if ops == [] {
      assert SameFor(t, s, s) by { SameAsItself(t, s); }
    } else {
      var r := Do(s, ops[0]);
      OpIsSafe(s, ops[0]);
      SafeIsInv(ops[0].t, s, r);
      assert forall i :: 0 <= i < |ops[1..]| ==> ops[1..][i] == ops[i + 1];
      OthersAreInvisible(r, ops[1..], t);
      SameForTransitive(t, s, r, Final(s, ops));
    }
  }

  lemma {:induction false} SameAsItself(t: Tenant, s: Rows) ensures SameFor(t, s, s) {}

  lemma {:induction false} SameForTransitive(t: Tenant, s: Rows, r: Rows, s': Rows)
    requires SameFor(t, s, r) && SameFor(t, r, s')
    ensures SameFor(t, s, s')
  {
    hide GetInstance, GetSync, GetToken;
  }

  // ---------------------------------------------------------------- the quota

  lemma {:induction false} CreateOwns(s: Rows, op: Op, t: Tenant)
    requires op.Create? && Enabled(s, op)
    ensures Owned(Do(s, op), t) <= Owned(s, t) + if op.t == t && !QuotaReached(s, t, op.max) then {op.id} else {}
  {
    hide QuotaReached;
  }

  lemma {:induction false} DeleteOwns(s: Rows, op: Op, t: Tenant)
    requires op.DeleteInstance? || op.Purge?
    ensures Owned(Do(s, op), t) <= Owned(s, t)
  {
    hide PurgedTokens;
  }

  lemma {:induction false} StatusOwns(s: Rows, op: Op, t: Tenant)
    requires op.SetStatus?
    ensures Owned(Do(s, op), t) == Owned(s, t)
  {
  }

  lemma {:induction false} SameOwned(s: Rows, s': Rows, t: Tenant)
    requires s'.instances == s.instances
    ensures Owned(s', t) == Owned(s, t)
  {
  }

  lemma {:induction false} OtherOwns(s: Rows, op: Op, t: Tenant)
    requires !op.Create? && !op.DeleteInstance? && !op.Purge? && !op.SetStatus?
    ensures Owned(Do(s, op), t) == Owned(s, t)
  {
    hide Feedback, Owned, GetToken;
    assert Do(s, op).instances == s.instances;
    hide Do;
    SameOwned(s, Do(s, op), t);
  }

  /** Only a Create by the tenant itself adds to what it owns, and only below the cap. */
  lemma {:induction false} OpOwns(s: Rows, op: Op, t: Tenant)
    requires Enabled(s, op)
    ensures Owned(Do(s, op), t) <= Owned(s, t) + if op.Create? && op.t == t && !QuotaReached(s, t, op.max) then {op.id} else {}
  {
    hide *;
    if op.Create? {
      CreateOwns(s, op, t);
    } else if op.DeleteInstance? || op.Purge? {
      DeleteOwns(s, op, t);
    } else if op.SetStatus? {
      StatusOwns(s, op, t);
    } else {
      OtherOwns(s, op, t);
    }
  }

  lemma {:induction false} QuotaHolds(s: Rows, ops: seq<Op>, t: Tenant, max: int)
    requires max > 0 && |Owned(s, t)| <= max && Ok(s, ops)
    requires forall i :: 0 <= i < |ops| && ops[i].Create? && ops[i].t == t ==> ops[i].max == max
    ensures |Owned(Final(s, ops), t)| <= max
    decreases |ops|
  {
    hide Do, Owned;
    if ops != [] {
      OpOwns(s, ops[0], t);
      QuotaStep(Owned(Do(s, ops[0]), t), Owned(s, t), if ops[0].Create? then ops[0].id else "",
                ops[0].Create? && ops[0].t == t && !QuotaReached(s, t, max), max);
      assert forall i :: 0 <= i < |ops[1..]| ==> ops[1..][i] == ops[i + 1];
      QuotaHolds(Do(s, ops[0]), ops[1..], t, max);
    }
  }

  lemma {:induction false} QuotaStep(after: set<string>, before: set<string>, id: string, added: bool, max: int)
    requires after <= before + if added then {id} else {}
    requires |before| <= max && (added ==> |before| < max)
    ensures |after| <= max
  {
    Smaller(after, before + if added then {id} else {});
  }

  lemma {:induction false} Smaller<T>(a: set<T>, b: set<T>)
    requires a <= b
    ensures |a| <= |b|
  {
    if a != {} {
      var x :| x in a;
      Smaller(a - {x}, b - {x});
    }
  }

  // ---------------------------------------------------------------- erasure

  /** No row of the tenant is left in any of the seven tables. */
  ghost predicate Gone(s: Rows, t: Tenant)
  {
    && t !in s.tenants && t !in s.prefs && t !in s.weights && t !in s.feedback
    && (forall id :: id in s.instances ==> s.instances[id].tenant != t)
    && (forall id :: id in s.syncs ==> s.syncs[id].tenant != t)
    && (forall id :: id in s.tokens ==> s.tokens[id].tenant != t)
  }

  /** TenantResidue's answer.  It never looks at the sync states. */
  predicate Empty(s: Rows, t: Tenant)
  {
    && t !in s.tenants
    && (forall id :: id in s.instances ==> s.instances[id].tenant != t)
    && (forall id :: id in s.tokens ==> s.tokens[id].tenant != t)
    && t !in s.prefs && t !in s.weights && Feedback(s, t) == []
  }

  /** Its answer is nevertheless exact, sync states included. */
  lemma {:induction false} ResidueIsExact(s: Rows, t: Tenant)
    requires Inv(s)
    ensures Empty(s, t) <==> Gone(s, t)
  {
    forall id | id in s.syncs ensures Owns(s, s.syncs[id].tenant, id) { }
  }

  lemma {:induction false} PurgeLeavesNothing(s: Rows, t: Tenant)
    requires Inv(s)
    ensures Gone(Purged(s, t), t)
  {
    assert forall id :: id in s.tokens && s.tokens[id].tenant == t ==> id in PurgedTokens(s, t);
    assert forall id :: id in s.syncs && s.syncs[id].tenant == t ==> id in Owned(s, t);
  }

  /** Purging again changes nothing. */
  lemma {:induction false} PurgeIsIdempotent(s: Rows, t: Tenant)
    requires Gone(s, t)
    ensures Purged(s, t) == s
  {
    assert Owned(s, t) == {} && PurgedTokens(s, t) == {};
    assert s.tenants - {t} == s.tenants && s.prefs - {t} == s.prefs && s.weights - {t} == s.weights && s.feedback - {t} == s.feedback;
    assert s.instances - {} == s.instances && s.syncs - {} == s.syncs && s.tokens - {} == s.tokens;
  }
}
