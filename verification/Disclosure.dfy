/** Disclosure of sensitive client environment fields (client_env_runtime.rs): request, approval, and what a scan
    returns. */
module Disclosure {
  import opened Text

  /** The sensitive fields that the runtime knows. */
  datatype Field = LocalIp | MacAddress | Ssid | ProxyUrl | Username | Hostname | EnvPath | EnvVars

  datatype Section = Device | Storage | Network | Runtimes | Unsupported(name: string)

  datatype Request = Request(requestId: string, fields: set<Field>, expiresAt: nat)

  datatype Approval = Approval(authorizationId: string, requestId: string, allowed: set<Field>, expiresAt: nat)

  datatype Event =
    | Requested(request: Request)
    | Approved(approval: Approval)
    | Rejected(requestId: string)
    | SnapshotRecorded(returned: set<Field>)
    | FieldsReturned(returned: set<Field>)
    | ReceiptRecorded
    | OtherEvent

  type Log = seq<Event>

  const DISCLOSURE_TTL_MS: nat := 10 * 60 * 1000

  datatype DisclosureError = RequestIdRequired | NotFound | Expired | AlreadyResolved | NoAllowedField
    | OutOfScope(fields: set<Field>)

  datatype BlockReason = MissingAuthorizationId | AuthorizationNotFound | AuthorizationExpired | ScopeNotCovered

  /** network collects these fields; the other sections collect none. */
  const NETWORK_FIELDS: set<Field> := {LocalIp, MacAddress}

  // ---- Reading the log ----

  predicate IsRequest(e: Event, id: string) {
    e.Requested? && e.request.requestId == id
  }

  predicate IsApproval(e: Event, id: string) {
    e.Approved? && e.approval.requestId == id
  }

  predicate Resolves(e: Event, id: string) {
    IsApproval(e, id) || e == Rejected(id)
  }

  /** The position of the last request with this id. */
  function LastRequest(log: Log, id: string): (r: Option<nat>)
    ensures r.Some? ==> r.value < |log| && IsRequest(log[r.value], id)
    ensures r.Some? ==> forall k :: r.value < k < |log| ==> !IsRequest(log[k], id)
    ensures r.None? ==> forall k :: 0 <= k < |log| ==> !IsRequest(log[k], id)
  {
    if log == [] then None
    else if IsRequest(log[|log| - 1], id) then Some(|log| - 1)
    else LastRequest(log[..|log| - 1], id)
  }

  predicate ResolvedAfter(log: Log, r: nat, id: string) {
    exists k :: r < k < |log| && Resolves(log[k], id)
  }

  function PendingRequest(log: Log, id: string, now: nat): Result<Request, DisclosureError> {
    if IsBlank(id) then Err(RequestIdRequired)
    else
      match LastRequest(log, id)
      case None => Err(NotFound)
      case Some(r) =>
        if log[r].request.expiresAt < now then Err(Expired)
        else if ResolvedAfter(log, r, id) then Err(AlreadyResolved)
        else Ok(log[r].request)
  }

  function LastApproval(log: Log, authorizationId: string): (r: Option<Approval>)
    ensures r.Some? ==> Approved(r.value) in log && r.value.authorizationId == authorizationId
    ensures r.None? ==> forall a :: Approved(a) in log ==> a.authorizationId != authorizationId
  {
    if log == [] then None
    else
      var last := log[|log| - 1];
      if last.Approved? && last.approval.authorizationId == authorizationId then Some(last.approval)
      else LastApproval(log[..|log| - 1], authorizationId)
  }

  lemma LastRequestIs(log: Log, r: nat, id: string)
    requires r < |log| && IsRequest(log[r], id) && forall k :: r < k < |log| ==> !IsRequest(log[k], id)
    ensures LastRequest(log, id) == Some(r)
  {
    assert LastRequest(log, id).Some?;
  }

  /**
    * A request is pending while it lasts exactly when nothing after it resolves it. What the log says about its id
    * before it, a rejection included, does not count.
    */
  lemma PendingIffUnresolvedAfter(before: Log, request: Request, after: Log, now: nat)
    requires !IsBlank(request.requestId) && now <= request.expiresAt
    requires forall e :: e in after ==> !IsRequest(e, request.requestId)
    ensures PendingRequest(before + [Requested(request)] + after, request.requestId, now) == Ok(request) <==>
            forall e :: e in after ==> !Resolves(e, request.requestId)
  {
    var log, r, id := before + [Requested(request)] + after, |before|, request.requestId;
    assert forall k :: r < k < |log| ==> log[k] == after[k - r - 1];
    LastRequestIs(log, r, id);
    if ResolvedAfter(log, r, id) {
      var k :| r < k < |log| && Resolves(log[k], id);
      assert log[k] in after;
    }
    if e :| e in after && Resolves(e, id) {
      var j :| 0 <= j < |after| && after[j] == e;
      assert log[r + 1 + j] == e;
    }
  }

  lemma NewRequestIsPending(before: Log, request: Request, after: Log)
    requires forall e :: e in after ==> !IsRequest(e, request.requestId) && !Resolves(e, request.requestId)
    requires !IsBlank(request.requestId)
    ensures forall now: nat :: now <= request.expiresAt ==>
              PendingRequest(before + [Requested(request)] + after, request.requestId, now) == Ok(request)
  {
    forall now: nat | now <= request.expiresAt
      ensures PendingRequest(before + [Requested(request)] + after, request.requestId, now) == Ok(request)
    {
      PendingIffUnresolvedAfter(before, request, after, now);
    }
  }

  lemma RejectedIsNotPending(log: Log, id: string)
    ensures forall now: nat :: PendingRequest(log + [Rejected(id)], id, now).Err?
  {
    var next := log + [Rejected(id)];
    var r := LastRequest(next, id);
    if r.Some? {
      assert r.value != |log| && Resolves(next[|log|], id);
    }
  }

  /** No later event asks for this id again. */
  predicate LastAsked(log: Log, r: nat, id: string) {
    && r < |log| && log[r].Requested? && log[r].request.requestId == id
    && forall k :: r < k < |log| && log[k].Requested? ==> log[k].request.requestId != id
  }

  /** An event after it approves or rejects this id. */
  predicate AnsweredLater(log: Log, r: nat, id: string) {
    exists k :: r < k < |log| && (log[k] == Rejected(id) || (log[k].Approved? && log[k].approval.requestId == id))
  }

  lemma AnsweredIffResolved(log: Log, r: nat, id: string)
    ensures AnsweredLater(log, r, id) <==> ResolvedAfter(log, r, id)
  {
    if k :| r < k < |log| && Resolves(log[k], id) {
      assert log[k] == Rejected(id) || (log[k].Approved? && log[k].approval.requestId == id);
    }
    if k :| r < k < |log| && (log[k] == Rejected(id) || (log[k].Approved? && log[k].approval.requestId == id)) {
      assert Resolves(log[k], id);
    }
  }

  // ---- The operations ----

  function KnownFields(names: seq<string>, parse: string -> Option<Field>): set<Field> {
    set n | n in names && parse(n).Some? :: parse(n).value
  }

  predicate Named(names: seq<string>, parse: string -> Option<Field>, field: Field) {
    exists n :: n in names && parse(n) == Some(field)
  }

  lemma KnownFieldsMeaning(names: seq<string>, parse: string -> Option<Field>)
    ensures forall field :: field in KnownFields(names, parse) <==> Named(names, parse, field)
  {
  }

  function Approve(log: Log, requestId: string, allowed: set<Field>, authorizationId: string,
                   now: nat): Result<Approval, DisclosureError>
  {
    match PendingRequest(log, requestId, now)
    case Err(e) => Err(e)
    case Ok(request) =>
      if allowed == {} then Err(NoAllowedField)
      else if !(allowed <= request.fields) then Err(OutOfScope(allowed - request.fields))
      else Ok(Approval(authorizationId, requestId, allowed, now + DISCLOSURE_TTL_MS))
  }

  lemma UnaskedIsNotFound(log: Log, requestId: string, allowed: set<Field>, authorizationId: string, now: nat)
    requires forall e :: e in log && e.Requested? ==> e.request.requestId != requestId
    ensures Approve(log, requestId, allowed, authorizationId, now) ==
            Err(if IsBlank(requestId) then RequestIdRequired else NotFound)
  {
  }

  /**
    * The verdict on the last request with the id: each check of the source by its own error, in order, and else an
    * approval of exactly the allowed fields, for ten minutes. No approval succeeds once the request has expired.
    */
  lemma ApproveMeaning(log: Log, r: nat, allowed: set<Field>, authorizationId: string, now: nat)
    requires r < |log| && log[r].Requested? && LastAsked(log, r, log[r].request.requestId)
    ensures var request, verdict :=
              log[r].request, Approve(log, log[r].request.requestId, allowed, authorizationId, now);
            if IsBlank(request.requestId) then verdict == Err(RequestIdRequired)
            else if request.expiresAt < now then verdict == Err(Expired)
            else if AnsweredLater(log, r, request.requestId) then verdict == Err(AlreadyResolved)
            else if forall field :: field !in allowed then verdict == Err(NoAllowedField)
            else if exists field :: field in allowed && field !in request.fields then
              && verdict.Err? && verdict.error.OutOfScope?
              && forall field :: field in verdict.error.fields <==> field in allowed && field !in request.fields
            else verdict == Ok(Approval(authorizationId, request.requestId, allowed, now + 600_000))
  {
    var request := log[r].request;
    LastRequestIs(log, r, request.requestId);
    AnsweredIffResolved(log, r, request.requestId);
    if allowed != {} {
      var f :| f in allowed;
    }
  }

  function SensitiveFields(sections: seq<Section>): set<Field> {
    if Network in sections then NETWORK_FIELDS else {}
  }

  function AuthorizedFields(log: Log, authorizationId: Option<string>, requested: set<Field>,
                            now: nat): Result<set<Field>, BlockReason>
  {
    if authorizationId.None? || IsBlank(authorizationId.value) then Err(MissingAuthorizationId)
    else
      match LastApproval(log, authorizationId.value)
      case None => Err(AuthorizationNotFound)
      case Some(approval) =>
        if approval.expiresAt < now then Err(AuthorizationExpired)
        else if requested * approval.allowed == {} then Err(ScopeNotCovered)
        else Ok(requested * approval.allowed)
  }

  /**
    * An authorization is the last approval that carries its id. It lasts until its expiry, and covers the requested
    * fields that it allows, of which there must be one.
    */
  lemma AuthorizedMeaning(log: Log, j: nat, requested: set<Field>, now: nat)
    requires j < |log| && log[j].Approved? && !IsBlank(log[j].approval.authorizationId)
    requires forall k :: j < k < |log| && log[k].Approved? ==>
               log[k].approval.authorizationId != log[j].approval.authorizationId
    ensures var a, verdict :=
              log[j].approval, AuthorizedFields(log, Some(log[j].approval.authorizationId), requested, now);
            if a.expiresAt < now then verdict == Err(AuthorizationExpired)
            else if forall field :: field in requested ==> field !in a.allowed then verdict == Err(ScopeNotCovered)
            else verdict.Ok? && forall field :: field in verdict.value <==> field in requested && field in a.allowed
  {
    var a := log[j].approval;
    LastApprovalIs(log, j);
    if requested * a.allowed == {} {
      forall field | field in requested ensures field !in a.allowed {
        assert field !in requested * a.allowed;
      }
    } else {
      var field :| field in requested * a.allowed;
    }
  }

  lemma {:induction false} LastApprovalIs(log: Log, j: nat)
    requires j < |log| && log[j].Approved?
    requires forall k :: j < k < |log| && log[k].Approved? ==>
               log[k].approval.authorizationId != log[j].approval.authorizationId
    ensures LastApproval(log, log[j].approval.authorizationId) == Some(log[j].approval)
  {
    if j < |log| - 1 {
      LastApprovalIs(log[..|log| - 1], j);
    }
  }

  /** Without an authorization id, or without an approval that carries it, nothing is authorized. */
  lemma UnauthorizedMeaning(log: Log, authorizationId: Option<string>, requested: set<Field>, now: nat)
    ensures authorizationId.None? || IsBlank(authorizationId.value) ==>
              AuthorizedFields(log, authorizationId, requested, now) == Err(MissingAuthorizationId)
    ensures authorizationId.Some? && !IsBlank(authorizationId.value)
            && (forall e :: e in log && e.Approved? ==> e.approval.authorizationId != authorizationId.value) ==>
              AuthorizedFields(log, authorizationId, requested, now) == Err(AuthorizationNotFound)
  {
  }

  /** What a collected section shows: the sensitive values among its facts. */
  function CollectedFields(section: Section, authorized: set<Field>): set<Field> {
    if section == Network then NETWORK_FIELDS * authorized else {}
  }

  datatype Snapshot = Snapshot(
    shown: seq<set<Field>>, available: set<Field>, returned: set<Field>, redactedCount: nat,
    requiresAuthorization: set<Field>)

  class ClientEnvRuntime {
    const emits: bool
    var log: Log

    constructor (emits: bool, log: Log)
      ensures this.emits == emits && this.log == log
    {
      this.emits := emits;
      this.log := log;
    }

    /** The request asks for the known fields among the names, or for the network fields when none is known. */
    method RequestSensitiveDisclosure(names: seq<string>, parse: string -> Option<Field>, requestId: string, now: nat)
      returns (request: Request)
      modifies this
      ensures request.requestId == requestId && request.expiresAt == now + DISCLOSURE_TTL_MS
      ensures request.fields != {}
      ensures forall field :: field in request.fields <==>
                Named(names, parse, field) || (field in NETWORK_FIELDS && forall other :: !Named(names, parse, other))
      ensures log == if emits then old(log) + [Requested(request), ReceiptRecorded] else old(log)
      // it is pending until it expires, whatever the log said about its id before
      ensures emits && !IsBlank(requestId) ==>
                forall t: nat :: t <= request.expiresAt ==> PendingRequest(log, requestId, t) == Ok(request)
    {
      var fields := KnownFields(names, parse);
      if fields == {} {
        fields := NETWORK_FIELDS;
      }
      KnownFieldsMeaning(names, parse);
      assert LocalIp in NETWORK_FIELDS;
      request := Request(requestId, fields, now + DISCLOSURE_TTL_MS);
      if emits {
        log := log + [Requested(request)];
        log := log + [ReceiptRecorded];
        assert log == old(log) + [Requested(request)] + [ReceiptRecorded];
        if !IsBlank(requestId) { NewRequestIsPending(old(log), request, [ReceiptRecorded]); }
      }
    }

    method ApproveSensitiveDisclosure(requestId: string, names: seq<string>, parse: string -> Option<Field>,
                                      authorizationId: string, now: nat)
      returns (r: Result<Approval, DisclosureError>)
      modifies this
      ensures r == Approve(old(log), requestId, KnownFields(names, parse), authorizationId, now)
      ensures log == old(log) + if r.Ok? then [Approved(r.value)] else []
    {
      var pending := PendingDisclosureRequest(requestId, now);
      if pending.Err? { return Err(pending.error); }
      var allowed := KnownFields(names, parse);
      if allowed == {} { return Err(NoAllowedField); }
      var outOfScope := allowed - pending.value.fields;
      forall f | f in allowed && outOfScope == {} ensures f in pending.value.fields {
        assert f !in outOfScope;
      }
      if outOfScope != {} { return Err(OutOfScope(outOfScope)); }
      var approval := Approval(authorizationId, requestId, allowed, now + DISCLOSURE_TTL_MS);
      log := log + [Approved(approval)];
      return Ok(approval);
    }

    /** Finds the last request backwards, then looks for an event after it that resolves it. */
    method PendingDisclosureRequest(requestId: string, now: nat) returns (r: Result<Request, DisclosureError>)
      ensures r == PendingRequest(log, requestId, now)
    {
      if IsBlank(requestId) { return Err(RequestIdRequired); }
      var k := |log|;
      while k > 0 && !IsRequest(log[k - 1], requestId)
        invariant 0 <= k <= |log|
        invariant forall j :: k <= j < |log| ==> !IsRequest(log[j], requestId)
      {
        k := k - 1;
      }
      if k == 0 { return Err(NotFound); }
      assert LastRequest(log, requestId) == Some(k - 1);
      var request := log[k - 1].request;
      if request.expiresAt < now { return Err(Expired); }
      var j := |log|;
      while j > k
        invariant k <= j <= |log|
        invariant forall i :: j <= i < |log| ==> !Resolves(log[i], requestId)
      {
        j := j - 1;
        if Resolves(log[j], requestId) { return Err(AlreadyResolved); }
      }
      return Ok(request);
    }

    /** Rejecting appends, whatever the state of the request; nothing is pending under the id then. */
    method RejectSensitiveDisclosure(requestId: string)
      modifies this
      ensures log == old(log) + [Rejected(requestId)]
      ensures forall now: nat :: PendingRequest(log, requestId, now).Err?
    {
      log := log + [Rejected(requestId)];
      RejectedIsNotPending(old(log), requestId);
    }

    method Scan(options: seq<Section>, includeSensitive: bool, authorizationId: Option<string>, now: nat)
      returns (r: Result<Snapshot, BlockReason>)
      modifies this
      ensures var sections := if options == [] then [Device] else options;
              var authorized := AuthorizedFields(old(log), authorizationId, SensitiveFields(sections), now);
              && (r.Err? <==> includeSensitive && authorized.Err?)
              && (r.Err? ==> r.error == authorized.error)
              && (r.Ok? ==> IsSnapshot(r.value, sections, if includeSensitive then authorized.value else {}))
      ensures log == old(log) +
                if !emits then []
                else if r.Err? then [ReceiptRecorded]
                else if r.value.returned == {} then [SnapshotRecorded({}), ReceiptRecorded]
                else [SnapshotRecorded(r.value.returned), FieldsReturned(r.value.returned), ReceiptRecorded]
    {
      var sections := if options == [] then [Device] else options;
      var requested := SensitiveFields(sections);
      var authorized: set<Field> := {};
      if includeSensitive {
        match AuthorizedFields(log, authorizationId, requested, now) {
          case Ok(fields) => authorized := fields;
          case Err(reason) =>
            if emits { log := log + [ReceiptRecorded]; }
            return Err(reason);
        }
      }
      var snapshot := TakeSnapshot(sections, authorized);
      RecordSnapshot(snapshot.returned);
      return Ok(snapshot);
    }

    method RecordSnapshot(returned: set<Field>)
      modifies this
      ensures log == old(log) +
                if !emits then []
                else if returned == {} then [SnapshotRecorded({}), ReceiptRecorded]
                else [SnapshotRecorded(returned), FieldsReturned(returned), ReceiptRecorded]
    {
      if emits {
        log := log + [SnapshotRecorded(returned)];
        if returned != {} {
          log := log + [FieldsReturned(returned)];
        }
        log := log + [ReceiptRecorded];
      }
    }
  }

  /** Collects every section, and works out what is returned and what is redacted. */
  method TakeSnapshot(sections: seq<Section>, authorized: set<Field>) returns (s: Snapshot)
    ensures IsSnapshot(s, sections, authorized)
  {
    var shown: seq<set<Field>> := [];
    var k := 0;
    while k < |sections|
      invariant 0 <= k <= |sections|
      invariant |shown| == k && forall j :: 0 <= j < k ==> shown[j] == CollectedFields(sections[j], authorized)
    {
      shown := shown + [CollectedFields(sections[k], authorized)];
      k := k + 1;
    }
    var requested := SensitiveFields(sections);
    var returned := authorized * requested;
    var redacted := requested - returned;
    assert returned + redacted == requested;
    s := Snapshot(shown, requested, returned, |redacted|, redacted);
  }

  /** The snapshot of these sections under this authorization: what it shows, what it reports, and what it redacts. */
  predicate IsSnapshot(s: Snapshot, sections: seq<Section>, authorized: set<Field>) {
    && |s.shown| == |sections|
    && (forall k :: 0 <= k < |sections| ==> s.shown[k] == CollectedFields(sections[k], authorized))
    && s.available == SensitiveFields(sections)
    && s.returned == authorized * s.available
    && s.requiresAuthorization == s.available - s.returned
    && |s.returned| + s.redactedCount == |s.available|
  }

  // ---- Runs ----

  /** Any log in which every approval was granted on the log before it; all other events come at will. */
  ghost predicate IsRun(log: Log) {
    forall j :: 0 <= j < |log| && log[j].Approved? ==> Granted(log, j)
  }

  ghost predicate Granted(log: Log, j: nat)
    requires j < |log| && log[j].Approved?
  {
    var a := log[j].approval;
    exists now: nat :: Approve(log[..j], a.requestId, a.allowed, a.authorizationId, now) == Ok(a)
  }

  /** The runtime's operations keep a log a run: approving on it, and appending anything that is no approval. */
  lemma AppendKeepsRun(log: Log, e: Event, now: nat)
    requires IsRun(log)
    requires e.Approved? ==>
               Ok(e.approval) ==
               Approve(log, e.approval.requestId, e.approval.allowed, e.approval.authorizationId, now)
    ensures IsRun(log + [e])
  {
    var next := log + [e];
    forall j | 0 <= j < |next| && next[j].Approved? ensures Granted(next, j) {
      assert next[..j] == log[..j];
      if j == |log| {
        assert next[..j] == log;
      } else {
        assert Granted(log, j);
      }
    }
  }

  /** r is the request that the approval at j answers: nothing resolved it in between, and its fields cover the
      approval. */
  predicate Answers(log: Log, r: nat, j: nat)
    requires r < j < |log| && log[j].Approved?
  {
    var a := log[j].approval;
    && IsRequest(log[r], a.requestId)
    && a.allowed != {}
    && a.allowed <= log[r].request.fields
    && forall k :: r < k < j ==> !Resolves(log[k], a.requestId)
  }

  lemma ApprovalAnswersRequest(log: Log, j: nat) returns (r: nat)
    requires IsRun(log) && j < |log| && log[j].Approved?
    ensures r < j && Answers(log, r, j)
  {
    assert Granted(log, j);
    var a := log[j].approval;
    var now: nat :| Approve(log[..j], a.requestId, a.allowed, a.authorizationId, now) == Ok(a);
    r := LastRequest(log[..j], a.requestId).value;
    assert !ResolvedAfter(log[..j], r, a.requestId);
    forall k | r < k < j ensures !Resolves(log[k], a.requestId) {
      assert log[..j][k] == log[k];
    }
  }

  predicate DistinctRequests(log: Log) {
    forall r, s :: 0 <= r < s < |log| && log[r].Requested? && log[s].Requested? ==>
      log[r].request.requestId != log[s].request.requestId
  }

  lemma SameRequest(log: Log, r: nat, s: nat)
    requires DistinctRequests(log) && r < |log| && s < |log| && log[r].Requested? && log[s].Requested?
    requires log[r].request.requestId == log[s].request.requestId
    ensures r == s
  {
  }

  /** Between two approvals of the same request id, that id was requested again. */
  lemma ReapprovalNeedsRequest(log: Log, i: nat, j: nat) returns (r: nat)
    requires IsRun(log) && i < j < |log| && log[j].Approved? && Resolves(log[i], log[j].approval.requestId)
    ensures i < r < j && IsRequest(log[r], log[j].approval.requestId)
  {
    r := ApprovalAnswersRequest(log, j);
    assert !(r < i);
  }

  /** With distinct request ids, each request is approved at most once, and never after it was rejected. */
  lemma ApprovedAtMostOnce(log: Log, r: nat, i: nat, j: nat)
    requires IsRun(log) && DistinctRequests(log)
    requires r < |log| && log[r].Requested? && r < i < j < |log|
    requires Resolves(log[i], log[r].request.requestId)
    ensures !IsApproval(log[j], log[r].request.requestId)
  {
    if IsApproval(log[j], log[r].request.requestId) {
      var s := ReapprovalNeedsRequest(log, i, j);
      SameRequest(log, r, s);
    }
  }

  /** No approval at all comes before its request. */
  lemma ApprovedAfterRequest(log: Log, r: nat, j: nat)
    requires IsRun(log) && DistinctRequests(log)
    requires r < |log| && j < |log| && log[r].Requested? && IsApproval(log[j], log[r].request.requestId)
    ensures r < j && Answers(log, r, j)
  {
    var s := ApprovalAnswersRequest(log, j);
    SameRequest(log, r, s);
  }

  /** Rejecting before the request exists does not keep it from being approved. */
  lemma EarlyRejectionDoesNotCount(id: string, field: Field, authorizationId: string)
    requires !IsBlank(id)
    ensures var a := Approval(authorizationId, id, {field}, DISCLOSURE_TTL_MS);
            IsRun([Rejected(id), Requested(Request(id, {field}, 0)), Approved(a)])
  {
    var a := Approval(authorizationId, id, {field}, DISCLOSURE_TTL_MS);
    var log := [Rejected(id), Requested(Request(id, {field}, 0))];
    assert LastRequest(log, id) == Some(1);
    assert !ResolvedAfter(log, 1, id);
    assert Approve(log, id, {field}, authorizationId, 0) == Ok(a);
    assert IsRun(log);
    AppendKeepsRun(log, Approved(a), 0);
    assert log + [Approved(a)] == [Rejected(id), Requested(Request(id, {field}, 0)), Approved(a)];
  }

  /** In every run, the fields that a scan may return are covered by an unexpired approval, and that by its request. */
  lemma ReturnedFieldsWereApproved(log: Log, authorizationId: Option<string>, sections: seq<Section>, now: nat)
    returns (j: nat, r: nat)
    requires IsRun(log) && AuthorizedFields(log, authorizationId, SensitiveFields(sections), now).Ok?
    ensures r < j < |log| && log[j].Approved? && Answers(log, r, j)
    ensures authorizationId == Some(log[j].approval.authorizationId) && now <= log[j].approval.expiresAt
    ensures var fields := AuthorizedFields(log, authorizationId, SensitiveFields(sections), now).value;
            fields != {} && fields <= log[j].approval.allowed <= log[r].request.fields
  {
    var a := LastApproval(log, authorizationId.value).value;
    j :| 0 <= j < |log| && log[j] == Approved(a);
    r := ApprovalAnswersRequest(log, j);
  }

  /**
    * Field by field: a scan of the network makes the two network fields available. Those that are authorized are
    * returned and shown by every network section, the others are redacted and counted.
    */
  lemma SnapshotMeaning(s: Snapshot, sections: seq<Section>, authorized: set<Field>, field: Field)
    requires IsSnapshot(s, sections, authorized)
    ensures field in s.available <==> Network in sections && (field == LocalIp || field == MacAddress)
    ensures field in s.returned <==> field in s.available && field in authorized
    ensures field in s.requiresAuthorization <==> field in s.available && field !in authorized
    ensures s.redactedCount == |s.requiresAuthorization|
    ensures forall k :: 0 <= k < |sections| ==>
              (field in s.shown[k] <==>
               sections[k] == Network && (field == LocalIp || field == MacAddress) && field in authorized)
  {
    assert s.returned + s.requiresAuthorization == s.available;
  }

  /** Whatever sections a snapshot shows, the sensitive values among its facts are those it reports as returned. */
  lemma ShownIsReturned(s: Snapshot, sections: seq<Section>, authorized: set<Field>, field: Field)
    requires IsSnapshot(s, sections, authorized)
    ensures (exists k :: 0 <= k < |s.shown| && field in s.shown[k]) <==> field in s.returned
  {
    if field in s.returned {
      var k :| 0 <= k < |sections| && sections[k] == Network;
      assert field in s.shown[k];
    }
  }
}
