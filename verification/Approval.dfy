/** The approval runtime (approval_runtime.rs): previews, approval tokens and their use, all kept as log events. */
module Approval {
  import opened Text
  import opened ProcessTruth

  datatype ApprovalError = NoOperations | BadCapabilityId | WildcardScope | EmptyScope | NoOpenPreview

  const TOKEN_LIFETIME_MS := 24 * 60 * 60 * 1000

  // ---- Normalising a preview ----

  function Clean(item: string): string {
    Trim(Slashed(item))
  }

  lemma SlashedKeeps(s: string)
    ensures '\\' !in Slashed(s)
    ensures '\\' !in s ==> Slashed(s) == s
    ensures |Slashed(s)| == |s| && forall k :: 0 <= k < |s| ==> Slashed(s)[k] == if s[k] == '\\' then '/' else s[k]
  {
  }

  lemma TrimKeeps(s: string, c: char)
    requires c !in s
    ensures c !in Trim(s)
  {
    var start := TrimStart(s);
    assert start == s[|s| - |start|..];
    assert TrimEnd(start) == start[..|TrimEnd(start)|];
  }

  lemma CleanIdempotent(item: string)
    ensures Clean(Clean(item)) == Clean(item)
  {
    SlashedKeeps(item);
    TrimKeeps(Slashed(item), '\\');
    SlashedKeeps(Clean(item));
    TrimIdempotent(Slashed(item));
  }

  const WILDCARD := "*"

  function Cleaned(items: seq<string>): (values: seq<string>)
    ensures |values| == |items|
    ensures forall k :: 0 <= k < |items| ==> values[k] == Clean(items[k])
  {
    seq(|items|, k requires 0 <= k < |items| => Clean(items[k]))
  }

  /** The values kept, in order of first occurrence: those that are not empty, each once. */
  function Kept(values: seq<string>): (kept: seq<string>)
    ensures NoDup(kept)
    ensures forall x :: x in kept <==> x in values && x != ""
  {
    if values == [] then []
    else
      var before, value := Kept(values[..|values| - 1]), values[|values| - 1];
      if value == "" || value in before then before else before + [value]
  }

  function NormalizeValues(values: seq<string>): Result<seq<string>, ApprovalError> {
    if WILDCARD in values then Err(WildcardScope)
    else if Kept(values) == [] then Err(EmptyScope)
    else Ok(Kept(values))
  }

  function NormalizePreviewScope(items: seq<string>): Result<seq<string>, ApprovalError> {
    NormalizeValues(Cleaned(items))
  }

  /** The loop that keeps each value once; the values are the cleaned items. */
  method NormalizeScope(values: seq<string>) returns (r: Result<seq<string>, ApprovalError>)
    ensures r.Err? ==> r.error == if WILDCARD in values then WildcardScope else EmptyScope
    ensures r.Ok? <==> WILDCARD !in values && exists x :: x in values && x != ""
    ensures r.Ok? ==> NoDup(r.value) && forall x :: x in r.value <==> x in values && x != ""
    ensures r == NormalizeValues(values)
  {
    var normalized: seq<string> := [];
    var seen: set<string> := {};
    var i := 0;
    while i < |values|
      invariant 0 <= i <= |values|
      invariant normalized == Kept(values[..i])
      invariant forall x :: x in seen <==> x in normalized
      invariant WILDCARD !in values[..i]
    {
      assert values[..i + 1][..i] == values[..i];
      var value := values[i];
      if value == WILDCARD {
        return Err(WildcardScope);
      }
      if value != "" && value !in seen {
        seen := seen + {value};
        normalized := normalized + [value];
      }
      i := i + 1;
    }
    assert values[..i] == values;
    if normalized == [] {
      return Err(EmptyScope);
    }
    assert normalized[0] in values;
    return Ok(normalized);
  }

  function NormalizeOperation(op: Operation): Result<Operation, ApprovalError> {
    var capabilityId := Trim(op.capabilityId);
    if capabilityId == "" || capabilityId == WILDCARD then Err(BadCapabilityId)
    else
      match NormalizePreviewScope(op.targetPaths)
      case Err(e) => Err(e)
      case Ok(paths) => Ok(Operation(capabilityId, paths))
  }

  function NormalizeOperations(ops: seq<Operation>): Result<seq<Operation>, ApprovalError> {
    if ops == [] then Ok([])
    else
      match NormalizeOperation(ops[0])
      case Err(e) => Err(e)
      case Ok(op) =>
        match NormalizeOperations(ops[1..])
        case Err(e) => Err(e)
        case Ok(rest) => Ok([op] + rest)
  }

  /** The capability ids of the operations, each once. */
  function CapabilityIds(ops: seq<Operation>): seq<string> {
    if ops == [] then []
    else
      var before, id := CapabilityIds(ops[..|ops| - 1]), ops[|ops| - 1].capabilityId;
      if id in before then before else before + [id]
  }

  function AllPaths(ops: seq<Operation>): seq<string> {
    if ops == [] then [] else ops[0].targetPaths + AllPaths(ops[1..])
  }

  function TargetPaths(ops: seq<Operation>): seq<string> {
    match NormalizePreviewScope(AllPaths(ops))
    case Ok(paths) => paths
    case Err(_) => []
  }

  // ---- The operations on the log ----

  predicate IsOpen(f: Facts, p: Preview) {
    p.txId !in f.decided
  }

  /** What an approval id selects: a blank one selects nothing in particular. */
  function Wanted(approvalId: Option<string>): Option<string> {
    if approvalId.None? || IsBlank(approvalId.value) then None else Some(Trim(approvalId.value))
  }

  predicate Selects(wanted: Option<string>, p: Preview) {
    wanted == None || wanted == Some(p.txId) || wanted == Some(p.previewId)
  }

  /** The latest of these previews that is selected and open. */
  function LatestOpen(f: Facts, previews: seq<Preview>, wanted: Option<string>): Option<Preview> {
    if previews == [] then None
    else
      var p := previews[|previews| - 1];
      if Selects(wanted, p) && IsOpen(f, p) then Some(p) else LatestOpen(f, previews[..|previews| - 1], wanted)
  }

  lemma LatestOpenIsOpen(f: Facts, previews: seq<Preview>, wanted: Option<string>)
    requires LatestOpen(f, previews, wanted).Some?
    ensures var p := LatestOpen(f, previews, wanted).value;
            p in previews && Selects(wanted, p) && IsOpen(f, p)
  {
  }

  /** What a token fixes of its preview: the scopes and the hash of the preview's data. */
  datatype Seal = Seal(operationScope: seq<string>, pathScope: seq<string>, opsHash: string)

  function SealOf(hash: Preview -> string): Preview -> Seal {
    (p: Preview) => Seal(CapabilityIds(p.operations), TargetPaths(p.operations), hash(p))
  }

  function TokenFor(p: Preview, tokenId: string, seal: Seal, now: nat): Token {
    Token(tokenId, p.txId, p.previewId, seal.operationScope, seal.pathScope, seal.opsHash, now + TOKEN_LIFETIME_MS)
  }

  /** The token issued last under this id. */
  function LastIssued(issued: seq<Token>, tokenId: string): (r: Option<Token>)
    ensures r.Some? ==> r.value in issued && r.value.tokenId == tokenId
    ensures r.None? ==> forall t :: t in issued ==> t.tokenId != tokenId
  {
    if issued == [] then None
    else if issued[|issued| - 1].tokenId == tokenId then Some(issued[|issued| - 1])
    else LastIssued(issued[..|issued| - 1], tokenId)
  }

  function TrimSlashes(s: string): string {
    if s != "" && s[|s| - 1] == '/' then TrimSlashes(s[..|s| - 1]) else s
  }

  /** The target is the scope itself or lies below it at a slash boundary. */
  predicate UnderScope(scope: string, target: string) {
    scope == target || TrimSlashes(scope) + "/" <= target
  }

  /** Scope entries are read back with slashes normalised and blank ones dropped. */
  predicate OperationInScope(scope: seq<string>, capabilityId: string) {
    exists id :: id in scope && !IsBlank(id) && Slashed(id) == capabilityId
  }

  predicate TargetInScope(scope: seq<string>, target: string) {
    exists s :: s in scope && !IsBlank(s) && UnderScope(Slashed(s), Slashed(target))
  }

  predicate InScope(t: Token, capabilityId: string, targets: seq<string>) {
    && OperationInScope(t.operationScope, capabilityId)
    && forall i :: 0 <= i < |targets| ==> TargetInScope(t.pathScope, targets[i])
  }

  predicate Validates(f: Facts, seal: Preview -> Seal, now: nat, tokenId: string, capabilityId: string,
                      targets: seq<string>)
  {
    && !IsBlank(tokenId)
    && LastIssued(f.issued, tokenId).Some?
    && tokenId !in f.consumed
    && (var t := LastIssued(f.issued, tokenId).value;
        && InScope(t, capabilityId, targets)
        && now <= t.expiresAtMs
        && HashMatches(f.created, seal, t))
  }

  predicate HashMatches(created: seq<Preview>, seal: Preview -> Seal, t: Token) {
    exists p :: p in created && p.txId == t.txId && seal(p).opsHash == t.opsHash
  }

  /** The events that marking a token as used appends: no transaction is applied or closed when its id is empty. */
  function UseEvents(f: Facts, tokenId: string, used: Capability): seq<Event> {
    var txId := match LastIssued(f.issued, tokenId) case Some(t) => t.txId case None => "";
    var previewId := match LastIssued(f.issued, tokenId) case Some(t) => t.previewId case None => "";
    [ApprovalTokenConsumed(tokenId, txId, previewId, used)]
    + (if txId == "" then [] else [PreviewTxApplied(tokenId, txId, previewId, used)])
    + [ApprovalTokenUsed(tokenId, txId, previewId, used)]
    + (if txId == "" then [] else [PreviewTxClosed(txId, previewId, tokenId)])
  }

  function CreatedPreview(ops: seq<Operation>, previewId: string, txId: string): Result<Preview, ApprovalError> {
    if ops == [] then Err(NoOperations)
    else
      match NormalizeOperations(ops)
      case Err(e) => Err(e)
      case Ok(normalized) => Ok(Preview(txId, previewId, normalized))
  }

  function CreateEvents(p: Preview): seq<Event> {
    [PreviewTxCreated(p), OtherEvent(None)]
  }

  predicate Approvable(seal: Seal) {
    seal.operationScope != [] && seal.pathScope != []
  }

  function IssueEvents(f: Facts, seal: Preview -> Seal, wanted: Option<string>, tokenId: string, now: nat)
    : Result<seq<Event>, ApprovalError>
  {
    match LatestOpen(f, f.created, wanted)
    case None => Err(NoOpenPreview)
    case Some(p) =>
      if Approvable(seal(p)) then
        Ok([PreviewTxApproved(p.txId, p.previewId, tokenId), ApprovalTokenIssued(TokenFor(p, tokenId, seal(p), now))])
      else Err(EmptyScope)
  }

  lemma NothingIssued(log: Log, tokenId: string)
    requires log == []
    ensures LastIssued(FactsOf(log).issued, tokenId) == None
  {
  }

  lemma LastIssuedAppend(issued: seq<Token>, t: Token, tokenId: string)
    ensures LastIssued(issued + [t], tokenId) == if t.tokenId == tokenId then Some(t) else LastIssued(issued, tokenId)
  {
    assert (issued + [t])[..|issued|] == issued;
  }

  /** One more event changes the last issue of a token only if it is one. */
  lemma LastIssuedStep(before: Log, e: Event, tokenId: string)
    ensures LastIssued(FactsOf(before + [e]).issued, tokenId) ==
            if e.ApprovalTokenIssued? && e.token.tokenId == tokenId then Some(e.token)
            else LastIssued(FactsOf(before).issued, tokenId)
  {
    hide FactsOf, LastIssued;
    Append(before, e);
    if e.ApprovalTokenIssued? { LastIssuedAppend(FactsOf(before).issued, e.token, tokenId); }
  }

  /** The runtime over its log. Ids and clock readings are parameters; scopeHash is the hash of a preview's data. */
  class ApprovalRuntime {
    const scopeHash: Preview -> string
    var log: Log

    constructor (scopeHash: Preview -> string)
      ensures log == [] && this.scopeHash == scopeHash
    {
      this.scopeHash := scopeHash;
      log := [];
    }

    method CreatePreviewTx(ops: seq<Operation>, previewId: string, txId: string)
      returns (r: Result<Preview, ApprovalError>)
      modifies this
      ensures r == CreatedPreview(ops, previewId, txId)
      ensures log == if r.Ok? then old(log) + CreateEvents(r.value) else old(log)
      // a preview with the given ids and the operations normalised, recorded by two events
      ensures ops == [] ==> r == Err(NoOperations)
      ensures ops != [] ==>
                match NormalizeOperations(ops)
                case Ok(normalized) =>
                  && r == Ok(Preview(txId, previewId, normalized))
                  && log == old(log) + [PreviewTxCreated(r.value), OtherEvent(None)]
                case Err(e) => r == Err(e)
    {
      if ops == [] { return Err(NoOperations); }
      match NormalizeOperations(ops) {
        case Err(e) => return Err(e);
        case Ok(normalized) =>
          var preview := Preview(txId, previewId, normalized);
          log := log + [PreviewTxCreated(preview)];
          log := log + [OtherEvent(None)];
          return Ok(preview);
      }
    }

    method IssueTokenForPreviewSelection(approvalId: Option<string>, tokenId: string, now: nat)
      returns (r: Result<Token, ApprovalError>)
      modifies this
      ensures match IssueEvents(FactsOf(old(log)), SealOf(scopeHash), Wanted(approvalId), tokenId, now)
              case Ok(events) => log == old(log) + events && r.Ok? && events[1] == ApprovalTokenIssued(r.value)
              case Err(e) => log == old(log) && r == Err(e)
      ensures r.Ok? ==>
                && log == old(log) + [PreviewTxApproved(r.value.txId, r.value.previewId, tokenId),
                                      ApprovalTokenIssued(r.value)]
                && r.value.tokenId == tokenId && r.value.expiresAtMs == now + 86_400_000
    {
      hide FactsOf, LatestOpen, SealOf;
      var facts := FactsOf(log);
      match LatestOpen(facts, facts.created, Wanted(approvalId)) {
        case None => return Err(NoOpenPreview);
        case Some(p) =>
          var seal := SealOf(scopeHash)(p);
          if seal.operationScope == [] || seal.pathScope == [] { return Err(EmptyScope); }
          var token := TokenFor(p, tokenId, seal, now);
          log := log + [PreviewTxApproved(token.txId, token.previewId, tokenId)];
          log := log + [ApprovalTokenIssued(token)];
          return Ok(token);
      }
    }

    /** Walks the log backwards to the last issue of this token. */
    method ValidateToken(tokenId: string, capabilityId: string, targets: seq<string>, now: nat) returns (valid: bool)
      ensures valid <==> Validates(FactsOf(log), SealOf(scopeHash), now, tokenId, capabilityId, targets)
    {
      hide InScope, IsBlank, HashMatches, SealOf, FactsOf, LastIssued;
      if IsBlank(tokenId) { return false; }
      var facts := FactsOf(log);
      var k := |log|;
      assert log[..k] == log;
      while k > 0
        invariant 0 <= k <= |log|
        invariant LastIssued(facts.issued, tokenId) == LastIssued(FactsOf(log[..k]).issued, tokenId)
      {
        k := k - 1;
        assert log[..k + 1] == log[..k] + [log[k]];
        LastIssuedStep(log[..k], log[k], tokenId);
        if log[k].ApprovalTokenIssued? {
          var token := log[k].token;
          if token.tokenId == tokenId {
            if tokenId in facts.consumed { return false; }
            return InScope(token, capabilityId, targets) && now <= token.expiresAtMs
                && HashMatches(facts.created, SealOf(scopeHash), token);
          }
        }
      }
      NothingIssued(log[..0], tokenId);
      return false;
    }

    method MarkTokenUsed(tokenId: string, used: Capability)
      modifies this
      ensures log == old(log) + UseEvents(FactsOf(old(log)), tokenId, used)
    {
      hide FactsOf, LastIssued;
      var issued := LastIssued(FactsOf(log).issued, tokenId);
      var txId := match issued case Some(t) => t.txId case None => "";
      var previewId := match issued case Some(t) => t.previewId case None => "";
      log := log + [ApprovalTokenConsumed(tokenId, txId, previewId, used)];
      if txId != "" {
        log := log + [PreviewTxApplied(tokenId, txId, previewId, used)];
      }
      log := log + [ApprovalTokenUsed(tokenId, txId, previewId, used)];
      if txId != "" {
        log := log + [PreviewTxClosed(txId, previewId, tokenId)];
      }
    }
  }
}
