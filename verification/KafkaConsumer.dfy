/**
The per-record contract of the at-least-once consumer: validate, try the
handler up to three times, otherwise quarantine to the dead-letter topic, and
commit only what was handled or quarantined.
*/
module KafkaConsumer {
  import opened Common

  const MAX_HANDLER_ATTEMPTS: nat := 3
  const DEADLETTER := "docs.deadletter"
  const HEADER_TENANT := "tenant_id"
  const HEADER_ERROR := "error"
  const HEADER_ORIGIN := "origin_topic"

  /** A canonical document: an upsert with a body, or a tombstone. */
  datatype Document = Document(tenant: string, id: string, body: Option<string>)

  /** `value` is what the payload decodes to, None when it does not decode. */
  datatype Record = Record(topic: string, key: string, value: Option<Document>, headers: seq<(string, string)>)

  /** The first tenant header, if it passes the syntax check `valid`. */
  function TenantFromHeaders(headers: seq<(string, string)>, valid: string -> bool): Option<string>
  {
    if headers == [] then None
    else if headers[0].0 == HEADER_TENANT then (if valid(headers[0].1) then Some(headers[0].1) else None)
    else TenantFromHeaders(headers[1..], valid)
  }

  /** The i-th header is the first with key tenant_id. */
  predicate IsTenantHeader(headers: seq<(string, string)>, i: nat)
  {
    i < |headers| && headers[i].0 == "tenant_id" && forall j :: 0 <= j < i ==> headers[j].0 != "tenant_id"
  }

  /** The tenant is what the first tenant_id header says, if it is valid; no other header matters. */
  lemma {:induction false} TenantIsFirst(headers: seq<(string, string)>, valid: string -> bool, t: string)
    ensures TenantFromHeaders(headers, valid) == Some(t) <==> exists i: nat :: IsTenantHeader(headers, i) && headers[i].1 == t && valid(t)
  {
    if headers != [] {
      var rest := headers[1..];
      TenantIsFirst(rest, valid, t);
      if headers[0].0 == "tenant_id" {
        assert IsTenantHeader(headers, 0);
        forall i: nat | IsTenantHeader(headers, i) ensures i == 0 {}
      } else {
        forall i: nat | IsTenantHeader(rest, i) ensures IsTenantHeader(headers, i + 1) && headers[i + 1] == rest[i] {}
        forall i: nat | IsTenantHeader(headers, i) ensures i > 0 && IsTenantHeader(rest, i - 1) && headers[i] == rest[i - 1] {
          assert forall j :: 0 <= j < i - 1 ==> rest[j] == headers[j + 1];
        }
      }
    }
  }

  /** What the producer writes for a document. */
  function Produced(topic: string, doc: Document, etag: string): Record
  {
    Record(topic, doc.tenant, Some(doc), [("tenant_id", doc.tenant), ("doc_id", doc.id), ("version_etag", etag)])
  }

  /** One try of the handler: whether the wait before it survived, what it returned, whether the context was cancelled. */
  datatype Try = Try(waited: bool, succeeds: bool, cancelled: bool)

  /** What the environment does during one delivery. */
  datatype Script = Script(tries: seq<Try>, produceOk: bool, commitOk: bool)

  predicate Scripted(s: Script) { |s.tries| == 3 }

  datatype Outcome =
    | Handled
    | Quarantined(copy: Record)      // the dead-letter copy that was produced
    | AlreadyDead                    // read from the dead-letter topic itself
    | Cancelled
    | ProduceFailed

  /** `tries` are the tenant and document of every handler invocation. */
  datatype Delivery = Delivery(outcome: Outcome, calls: seq<(string, Document)>, committed: bool)

  predicate Settles(o: Outcome) { o.Handled? || o.Quarantined? || o.AlreadyDead? }

  /** The document the record may be handled as, under the header's tenant; None when malformed. */
  function Accepted(rec: Record, valid: string -> bool): Option<Document>
  {
    match (TenantFromHeaders(rec.headers, valid), rec.value)
    case (Some(t), Some(doc)) => if doc.tenant == t then Some(doc) else None
    case _ => None
  }

  /** The record carries `doc` and its first tenant_id header names the document's tenant, a valid one. */
  ghost predicate Addressed(rec: Record, valid: string -> bool, doc: Document)
  {
    rec.value == Some(doc) && valid(doc.tenant) && exists i: nat :: IsTenantHeader(rec.headers, i) && rec.headers[i].1 == doc.tenant
  }

  lemma {:induction false} AcceptedIs(rec: Record, valid: string -> bool, doc: Document)
    ensures Accepted(rec, valid) == Some(doc) <==> Addressed(rec, valid, doc)
  {
    TenantIsFirst(rec.headers, valid, doc.tenant);
    hide TenantFromHeaders, IsTenantHeader;
  }

  /** A produced document of a valid tenant is addressed to it, also once it has been quarantined. */
  lemma {:induction false} ProducedIsAddressed(topic: string, doc: Document, etag: string, valid: string -> bool, copy: Record)
    requires valid(doc.tenant)
    ensures Addressed(Produced(topic, doc, etag), valid, doc)
    ensures IsDeadLetterOf(copy, Produced(topic, doc, etag)) ==> Addressed(copy, valid, doc)
  {
    var rec := Produced(topic, doc, etag);
    assert IsTenantHeader(rec.headers, 0);
    if IsDeadLetterOf(copy, rec) { assert copy.headers[0] == rec.headers[0] && IsTenantHeader(copy.headers, 0); }
  }

  function DeadLetterCopy(rec: Record, cause: string): Record
  {
    Record(DEADLETTER, rec.key, rec.value, rec.headers + [(HEADER_ERROR, cause), (HEADER_ORIGIN, rec.topic)])
  }

  /** Key, value and headers preserved; only the error and the origin topic are added. */
  predicate IsDeadLetterOf(copy: Record, rec: Record)
  {
    && copy.topic == "docs.deadletter" && copy.key == rec.key && copy.value == rec.value
    && |copy.headers| == |rec.headers| + 2 && rec.headers <= copy.headers
    && copy.headers[|rec.headers|].0 == "error"
    && copy.headers[|rec.headers| + 1] == ("origin_topic", rec.topic)
  }

  method Quarantine(rec: Record, cause: string, s: Script) returns (o: Outcome, committed: bool)
    ensures rec.topic == "docs.deadletter" ==> o == AlreadyDead && committed == s.commitOk
    ensures rec.topic != "docs.deadletter" && s.produceOk ==>
              o.Quarantined? && IsDeadLetterOf(o.copy, rec) && |rec.headers| < |o.copy.headers| && o.copy.headers[|rec.headers|].1 == cause && committed == s.commitOk
    ensures rec.topic != "docs.deadletter" && !s.produceOk ==> o == ProduceFailed && !committed
  {
    if rec.topic == DEADLETTER {
      return AlreadyDead, s.commitOk;
    }
    if !s.produceOk {
      return ProduceFailed, false;
    }
    o, committed := Quarantined(DeadLetterCopy(rec, cause)), s.commitOk;
  }

  /** Some attempt is reached and succeeds: every earlier one failed without cancellation. */
  predicate SucceedsAt(s: Script, k: nat)
    requires Scripted(s) && k < 3
  {
    && (forall j :: 0 <= j < k ==> !s.tries[j].succeeds && !s.tries[j].cancelled)
    && (forall j :: 1 <= j <= k ==> s.tries[j].waited)
    && s.tries[k].succeeds
  }

  /** All three attempts are made and fail, with no cancellation. */
  predicate Exhausts(s: Script)
    requires Scripted(s)
  {
    && (forall j :: 0 <= j < 3 ==> !s.tries[j].succeeds && !s.tries[j].cancelled)
    && (forall j :: 1 <= j < 3 ==> s.tries[j].waited)
  }

  /** The record is malformed, or the handler failed all three times. */
  predicate Unhandled(rec: Record, valid: string -> bool, s: Script)
    requires Scripted(s)
  {
    Accepted(rec, valid).None? || Exhausts(s)
  }

  /** Why a record is quarantined: the first check it fails, or the handler. */
  function Cause(rec: Record, valid: string -> bool): string
  {
    if TenantFromHeaders(rec.headers, valid).None? then "invalid tenant header"
    else if rec.value.None? then "unmarshal document"
    else if Accepted(rec, valid).None? then "tenant header does not match document tenant"
    else "handler failed after 3 attempts"
  }

  /** How a delivery must go, given what the environment does: the outcome, the handler's calls and the commit. */
  ghost predicate GoesAs(rec: Record, valid: string -> bool, s: Script, d: Delivery)
    requires Scripted(s)
  {
    && (d.outcome.Handled? <==> Accepted(rec, valid).Some? && exists k: nat | k < 3 :: SucceedsAt(s, k))
    && (forall k: nat | k < 3 :: Accepted(rec, valid).Some? && SucceedsAt(s, k) ==> |d.calls| == k + 1)
    && (Accepted(rec, valid).Some? && Exhausts(s) ==> |d.calls| == 3)
    && (Unhandled(rec, valid, s) ==>
          if rec.topic == "docs.deadletter" then d.outcome.AlreadyDead?
          else if s.produceOk then d.outcome.Quarantined? && IsDeadLetterOf(d.outcome.copy, rec)
          else d.outcome.ProduceFailed?)
    && (d.outcome.Quarantined? ==> |rec.headers| < |d.outcome.copy.headers| && d.outcome.copy.headers[|rec.headers|].1 == Cause(rec, valid))
    && (!d.outcome.Handled? && !Unhandled(rec, valid, s) ==> d.outcome.Cancelled?)
    && (d.committed <==> Settles(d.outcome) && s.commitOk)
  }

  /** processRecord. */
  method ProcessRecord(rec: Record, valid: string -> bool, s: Script) returns (d: Delivery)
    requires Scripted(s)
    // a record that is not addressed to its document's tenant never reaches the handler
    ensures (forall doc :: !Addressed(rec, valid, doc)) ==> d.calls == []
    // one that is does, under that tenant and at most three times
    ensures forall doc :: Addressed(rec, valid, doc) ==> d.calls != [] && forall c <- d.calls :: c == (doc.tenant, doc)
    ensures |d.calls| <= 3
    ensures forall c <- d.calls :: Accepted(rec, valid) == Some(c.1) && c.0 == c.1.tenant
    // which outcome, exactly, and a commit only of what is settled
    ensures GoesAs(rec, valid, s, d)
  {
    forall doc ensures Accepted(rec, valid) == Some(doc) <==> Addressed(rec, valid, doc) { AcceptedIs(rec, valid, doc); }
    hide IsDeadLetterOf, Addressed;
    var tenant := TenantFromHeaders(rec.headers, valid);
    if tenant.None? {
      var o, c := Quarantine(rec, "invalid tenant header", s);
      return Delivery(o, [], c);
    }
    if rec.value.None? {
      var o, c := Quarantine(rec, "unmarshal document", s);
      return Delivery(o, [], c);
    }
    var doc := rec.value.value;
    if doc.tenant != tenant.value {
      var o, c := Quarantine(rec, "tenant header does not match document tenant", s);
      return Delivery(o, [], c);
    }
    var calls: seq<(string, Document)> := [];
    for attempt := 0 to MAX_HANDLER_ATTEMPTS
      invariant |calls| == attempt
      invariant forall c <- calls :: c == (tenant.value, doc)
      invariant forall j :: 0 <= j < attempt ==> !s.tries[j].succeeds && !s.tries[j].cancelled
      invariant forall j :: 1 <= j < attempt ==> s.tries[j].waited
    {
      if attempt > 0 && !s.tries[attempt].waited {
        return Delivery(Cancelled, calls, false);
      }
      calls := calls + [(tenant.value, doc)];
      if s.tries[attempt].succeeds {
        assert SucceedsAt(s, attempt);
        return Delivery(Handled, calls, s.commitOk);
      }
      if s.tries[attempt].cancelled {
        return Delivery(Cancelled, calls, false);
      }
    }
    var o, c := Quarantine(rec, "handler failed after 3 attempts", s);
    d := Delivery(o, calls, c);
  }
}
