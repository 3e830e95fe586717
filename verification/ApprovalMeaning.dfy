/** What the approval operations answer and record, read off the events of the log alone. */
module ApprovalMeaning {
  import opened Text
  import opened ProcessTruth
  import opened Approval

  // ---- The facts of a log ----

  predicate UsesToken(e: Event, tokenId: string) {
    (e.ApprovalTokenConsumed? || e.ApprovalTokenUsed?) && e.tokenId == tokenId
  }

  predicate Decides(e: Event, txId: string) {
    || (e.PreviewTxApproved? && e.txId == txId)
    || (e.ApprovalTokenIssued? && e.token.txId == txId)
    || (e.PreviewTxClosed? && e.txId == txId)
  }

  lemma {:induction false} ConsumedIff(log: Log, tokenId: string)
    ensures tokenId in FactsOf(log).consumed <==> exists e :: e in log && UsesToken(e, tokenId)
    decreases |log|
  {
    if log != [] {
      var init := log[..|log| - 1];
      ConsumedIff(init, tokenId);
      assert log[|log| - 1] in log && forall e :: e in log <==> e in init || e == log[|log| - 1];
    }
  }

  lemma {:induction false} DecidedIff(log: Log, txId: string)
    ensures txId in FactsOf(log).decided <==> exists e :: e in log && Decides(e, txId)
    decreases |log|
  {
    if log != [] {
      var init := log[..|log| - 1];
      DecidedIff(init, txId);
      assert log[|log| - 1] in log && forall e :: e in log <==> e in init || e == log[|log| - 1];
    }
  }

  lemma {:induction false} CreatedIff(log: Log, p: Preview)
    ensures p in FactsOf(log).created <==> PreviewTxCreated(p) in log
    decreases |log|
  {
    if log != [] {
      var init := log[..|log| - 1];
      CreatedIff(init, p);
      assert log == init + [log[|log| - 1]];
    }
  }

  lemma {:induction false} IssuedIff(log: Log, t: Token)
    ensures t in FactsOf(log).issued <==> ApprovalTokenIssued(t) in log
    decreases |log|
  {
    if log != [] {
      var init := log[..|log| - 1];
      IssuedIff(init, t);
      assert log == init + [log[|log| - 1]];
    }
  }

  // ---- Issuing a token ----

  /** Event k creates a preview that an approval under this id may take. */
  predicate Eligible(log: Log, approvalId: Option<string>, k: nat) {
    && k < |log| && log[k].PreviewTxCreated?
    && (approvalId.None? || IsBlank(approvalId.value) || Trim(approvalId.value) == log[k].preview.txId
        || Trim(approvalId.value) == log[k].preview.previewId)
    && forall e :: e in log ==> !Decides(e, log[k].preview.txId)
  }

  lemma EligibleIff(log: Log, approvalId: Option<string>, k: nat)
    requires k < |log| && log[k].PreviewTxCreated?
    ensures var p := log[k].preview;
            Eligible(log, approvalId, k) <==> Selects(Wanted(approvalId), p) && IsOpen(FactsOf(log), p)
  {
    hide FactsOf, Decides, IsBlank, Trim;
    DecidedIff(log, log[k].preview.txId);
  }

  /** The search for the latest open preview on the first n events, against the facts of the whole log. */
  lemma {:induction false} LatestOpenFound(log: Log, approvalId: Option<string>, n: nat, k: nat)
    requires k < n <= |log| && Eligible(log, approvalId, k) && forall j :: k < j < n ==> !Eligible(log, approvalId, j)
    ensures LatestOpen(FactsOf(log), FactsOf(log[..n]).created, Wanted(approvalId)) == Some(log[k].preview)
    decreases n
  {
    hide Decides, Selects, IsOpen, Wanted;
    var e := log[n - 1];
    assert log[..n] == log[..n - 1] + [e];
    Append(log[..n - 1], e);
    if e.PreviewTxCreated? {
      EligibleIff(log, approvalId, n - 1);
      var before := FactsOf(log[..n - 1]).created;
      assert (before + [e.preview])[..|before|] == before;
    }
    if k < n - 1 {
      LatestOpenFound(log, approvalId, n - 1, k);
    }
  }

  lemma {:induction false} NoneOpenFound(log: Log, approvalId: Option<string>, n: nat)
    requires n <= |log| && forall j :: 0 <= j < n ==> !Eligible(log, approvalId, j)
    ensures LatestOpen(FactsOf(log), FactsOf(log[..n]).created, Wanted(approvalId)) == None
    decreases n
  {
    hide Eligible, Selects, IsOpen, Wanted;
    if n > 0 {
      var e := log[n - 1];
      assert log[..n] == log[..n - 1] + [e];
      Append(log[..n - 1], e);
      if e.PreviewTxCreated? {
        EligibleIff(log, approvalId, n - 1);
        var before := FactsOf(log[..n - 1]).created;
        assert (before + [e.preview])[..|before|] == before;
      }
      NoneOpenFound(log, approvalId, n - 1);
    }
  }

  /**
    * An approval takes the last preview of the log that is selected and undecided. It records the approval and the
    * token, which carries the preview's ids, scopes and hash and lives for a day; a preview without a scope is refused.
    */
  lemma IssueMeaning(log: Log, seal: Preview -> Seal, approvalId: Option<string>, tokenId: string, now: nat, k: nat)
    requires Eligible(log, approvalId, k) && forall j :: k < j < |log| ==> !Eligible(log, approvalId, j)
    ensures var p, answer := log[k].preview, IssueEvents(FactsOf(log), seal, Wanted(approvalId), tokenId, now);
            if seal(p).operationScope == [] || seal(p).pathScope == [] then answer == Err(EmptyScope)
            else answer == Ok([PreviewTxApproved(p.txId, p.previewId, tokenId),
                               ApprovalTokenIssued(Token(tokenId, p.txId, p.previewId, seal(p).operationScope,
                                                         seal(p).pathScope, seal(p).opsHash, now + 86_400_000))])
  {
    hide FactsOf, LatestOpen, Decides, Wanted;
    assert log[..|log|] == log;
    LatestOpenFound(log, approvalId, |log|, k);
  }

  lemma NothingToIssue(log: Log, seal: Preview -> Seal, approvalId: Option<string>, tokenId: string, now: nat)
    requires forall j: nat :: !Eligible(log, approvalId, j)
    ensures IssueEvents(FactsOf(log), seal, Wanted(approvalId), tokenId, now) == Err(NoOpenPreview)
  {
    hide FactsOf, LatestOpen, Decides, Wanted;
    assert log[..|log|] == log;
    NoneOpenFound(log, approvalId, |log|);
  }

  // ---- Validating and using a token ----

  /** Event k is the last one to issue this token. */
  predicate LastIssue(log: Log, tokenId: string, k: nat) {
    && k < |log| && log[k].ApprovalTokenIssued? && log[k].token.tokenId == tokenId
    && forall j :: k < j < |log| && log[j].ApprovalTokenIssued? ==> log[j].token.tokenId != tokenId
  }

  lemma {:induction false} LastIssueFound(log: Log, tokenId: string, k: nat)
    requires LastIssue(log, tokenId, k)
    ensures LastIssued(FactsOf(log).issued, tokenId) == Some(log[k].token)
    decreases |log|
  {
    hide FactsOf, LastIssued;
    var n := |log| - 1;
    assert log == log[..n] + [log[n]];
    LastIssuedStep(log[..n], log[n], tokenId);
    if k < n {
      LastIssueFound(log[..n], tokenId, k);
    }
  }

  lemma NeverIssued(log: Log, tokenId: string)
    requires forall e :: e in log && e.ApprovalTokenIssued? ==> e.token.tokenId != tokenId
    ensures LastIssued(FactsOf(log).issued, tokenId) == None
  {
    hide FactsOf;
    var found := LastIssued(FactsOf(log).issued, tokenId);
    if found.Some? {
      IssuedIff(log, found.value);
    }
  }

  ghost predicate CreatedWithHash(log: Log, seal: Preview -> Seal, t: Token) {
    exists p :: PreviewTxCreated(p) in log && p.txId == t.txId && seal(p).opsHash == t.opsHash
  }

  lemma HashMatchesIff(log: Log, seal: Preview -> Seal, t: Token)
    ensures HashMatches(FactsOf(log).created, seal, t) <==> CreatedWithHash(log, seal, t)
  {
    hide FactsOf;
    if p :| p in FactsOf(log).created && p.txId == t.txId && seal(p).opsHash == t.opsHash {
      CreatedIff(log, p);
    }
    if p :| PreviewTxCreated(p) in log && p.txId == t.txId && seal(p).opsHash == t.opsHash {
      CreatedIff(log, p);
    }
  }

  predicate Covered(scope: seq<string>, target: string) {
    exists s :: s in scope && !IsBlank(s) && UnderScope(Slashed(s), Slashed(target))
  }

  /**
    * The last issue of a token decides: it validates when its id is not blank, no event uses it, it has not expired,
    * a preview of its transaction still has its hash, and its scopes cover the capability and every target.
    */
  lemma ValidatesMeaning(log: Log, seal: Preview -> Seal, now: nat, tokenId: string, capabilityId: string,
                         targets: seq<string>, k: nat)
    requires LastIssue(log, tokenId, k)
    ensures var t := log[k].token;
            Validates(FactsOf(log), seal, now, tokenId, capabilityId, targets) <==>
            && !IsBlank(tokenId)
            && (forall e :: e in log ==> !UsesToken(e, tokenId))
            && now <= t.expiresAtMs
            && CreatedWithHash(log, seal, t)
            && (exists id :: id in t.operationScope && !IsBlank(id) && Slashed(id) == capabilityId)
            && (forall i :: 0 <= i < |targets| ==> Covered(t.pathScope, targets[i]))
  {
    hide FactsOf, LastIssued, HashMatches, CreatedWithHash, UsesToken, IsBlank, UnderScope, Slashed;
    LastIssueFound(log, tokenId, k);
    ConsumedIff(log, tokenId);
    HashMatchesIff(log, seal, log[k].token);
  }

  lemma UnknownNeverValidates(log: Log, seal: Preview -> Seal, now: nat, tokenId: string, capabilityId: string,
                              targets: seq<string>)
    requires forall e :: e in log && e.ApprovalTokenIssued? ==> e.token.tokenId != tokenId
    ensures !Validates(FactsOf(log), seal, now, tokenId, capabilityId, targets)
  {
    hide FactsOf, LastIssued, InScope;
    NeverIssued(log, tokenId);
  }

  /** A scope covers itself and what begins with it and a slash, its own trailing slashes not counted. */
  lemma UnderScopeMeaning(base: string, slashes: nat, scope: string, target: string)
    requires base == "" || base[|base| - 1] != '/'
    requires |scope| == |base| + slashes && scope[..|base|] == base
             && forall k :: |base| <= k < |scope| ==> scope[k] == '/'
    ensures UnderScope(scope, target) <==>
            target == scope || (|target| > |base| && target[..|base|] == base && target[|base|] == '/')
  {
    StrippedTo(base, scope);
    if base + "/" <= target {
      assert target[..|base|] == (base + "/")[..|base|] && target[|base|] == (base + "/")[|base|];
    }
    if |target| > |base| && target[..|base|] == base && target[|base|] == '/' {
      assert target[..|base| + 1] == base + "/";
    }
  }

  lemma {:induction false} StrippedTo(base: string, scope: string)
    requires base == "" || base[|base| - 1] != '/'
    requires |scope| >= |base| && scope[..|base|] == base
             && forall k :: |base| <= k < |scope| ==> scope[k] == '/'
    ensures TrimSlashes(scope) == base
    decreases |scope|
  {
    if |scope| > |base| {
      assert scope[..|scope| - 1][..|base|] == base;
      StrippedTo(base, scope[..|scope| - 1]);
    } else {
      assert scope == base;
    }
  }

  /** Using a token records its use twice, and applies and closes its transaction in between and after when it has
      one. */
  lemma UseMeaning(log: Log, tokenId: string, used: Capability, k: nat)
    requires LastIssue(log, tokenId, k)
    ensures var t := log[k].token;
            UseEvents(FactsOf(log), tokenId, used) ==
            if t.txId == "" then
              [ApprovalTokenConsumed(tokenId, "", t.previewId, used), ApprovalTokenUsed(tokenId, "", t.previewId, used)]
            else
              [ApprovalTokenConsumed(tokenId, t.txId, t.previewId, used),
               PreviewTxApplied(tokenId, t.txId, t.previewId, used),
               ApprovalTokenUsed(tokenId, t.txId, t.previewId, used),
               PreviewTxClosed(t.txId, t.previewId, tokenId)]
  {
    hide FactsOf, LastIssued;
    LastIssueFound(log, tokenId, k);
  }

  lemma UnknownUse(log: Log, tokenId: string, used: Capability)
    requires forall e :: e in log && e.ApprovalTokenIssued? ==> e.token.tokenId != tokenId
    ensures UseEvents(FactsOf(log), tokenId, used) ==
            [ApprovalTokenConsumed(tokenId, "", "", used), ApprovalTokenUsed(tokenId, "", "", used)]
  {
    hide FactsOf, LastIssued;
    NeverIssued(log, tokenId);
  }

  // ---- Creating a preview ----

  /** An operation that normalises: a capability that is named, and paths of which one is not empty and none a
      wildcard. */
  predicate Normalizes(op: Operation) {
    && Trim(op.capabilityId) != "" && Trim(op.capabilityId) != "*"
    && (forall item :: item in op.targetPaths ==> Trim(Slashed(item)) != "*")
    && exists item :: item in op.targetPaths && Trim(Slashed(item)) != ""
  }

  /** What the first refused operation is refused for. */
  function Refusal(op: Operation): ApprovalError {
    if Trim(op.capabilityId) == "" || Trim(op.capabilityId) == "*" then BadCapabilityId
    else if exists item :: item in op.targetPaths && Trim(Slashed(item)) == "*" then WildcardScope
    else EmptyScope
  }

  lemma CleanedHas(items: seq<string>, x: string)
    ensures x in Cleaned(items) <==> exists item :: item in items && Trim(Slashed(item)) == x
  {
    hide Slashed, Trim;
    var values := Cleaned(items);
    if x in values {
      var k :| 0 <= k < |values| && values[k] == x;
      assert items[k] in items;
    }
    if item :| item in items && Trim(Slashed(item)) == x {
      var k :| 0 <= k < |items| && items[k] == item;
      assert values[k] == x;
    }
  }

  lemma ScopeIff(items: seq<string>)
    ensures var scope := NormalizePreviewScope(items);
            if exists item :: item in items && Trim(Slashed(item)) == "*" then scope == Err(WildcardScope)
            else if exists item :: item in items && Trim(Slashed(item)) != "" then scope.Ok?
            else scope == Err(EmptyScope)
  {
    hide Slashed, Trim, Kept;
    var values := Cleaned(items);
    CleanedHas(items, "*");
    if Kept(values) != [] {
      assert Kept(values)[0] in Kept(values);
      CleanedHas(items, Kept(values)[0]);
    }
    if item :| item in items && Trim(Slashed(item)) != "" {
      CleanedHas(items, Trim(Slashed(item)));
      assert Trim(Slashed(item)) in Kept(values);
    }
  }

  lemma OperationIff(op: Operation)
    ensures NormalizeOperation(op).Ok? <==> Normalizes(op)
    ensures NormalizeOperation(op).Err? ==> NormalizeOperation(op).error == Refusal(op)
  {
    hide Slashed, Trim, NormalizePreviewScope;
    ScopeIff(op.targetPaths);
  }

  /** Normalising succeeds when every operation normalises, and else fails as the first that does not. */
  lemma {:induction false} NormalizedIff(ops: seq<Operation>, k: nat)
    requires k <= |ops| && forall j :: 0 <= j < k ==> Normalizes(ops[j])
    requires k < |ops| ==> !Normalizes(ops[k])
    ensures if k < |ops| then NormalizeOperations(ops) == Err(Refusal(ops[k])) else NormalizeOperations(ops).Ok?
    decreases |ops|
  {
    hide NormalizeOperation, Normalizes, Refusal;
    if ops != [] {
      OperationIff(ops[0]);
      if k > 0 {
        NormalizedIff(ops[1..], k - 1);
      }
    }
  }

  /** Each operation keeps its place, its capability without blanks around it, and each of its cleaned paths once. */
  lemma {:induction false} NormalizedMeaning(ops: seq<Operation>, k: nat, path: string)
    requires NormalizeOperations(ops).Ok? && k < |ops|
    ensures |NormalizeOperations(ops).value| == |ops|
    ensures var op := NormalizeOperations(ops).value[k];
            && op.capabilityId == Trim(ops[k].capabilityId) && NoDup(op.targetPaths)
            && (path in op.targetPaths <==>
                path != "" && exists item :: item in ops[k].targetPaths && Trim(Slashed(item)) == path)
  {
    hide Slashed, Trim;
    if k == 0 {
      CleanedHas(ops[0].targetPaths, path);
      if |ops| > 1 {
        NormalizedMeaning(ops[1..], 0, path);
      }
    } else {
      NormalizedMeaning(ops[1..], k - 1, path);
    }
  }

  /** Where a value first occurs. */
  function FirstAt(values: seq<string>, x: string): (i: nat)
    requires x in values
    ensures i < |values| && values[i] == x && forall j :: 0 <= j < i ==> values[j] != x
  {
    if values[0] == x then 0 else 1 + FirstAt(values[1..], x)
  }

  /** The values kept stand in the order of their first occurrences. */
  lemma {:induction false} KeptInOrder(values: seq<string>, i: nat, j: nat)
    requires i < j < |Kept(values)|
    ensures FirstAt(values, Kept(values)[i]) < FirstAt(values, Kept(values)[j])
    decreases |values|
  {
    var n := |values| - 1;
    var init, kept := values[..n], Kept(values);
    assert forall k :: 0 <= k < |Kept(init)| ==> kept[k] == Kept(init)[k] && kept[k] in init;
    assert FirstAt(values, kept[i]) < n;
    if j < |Kept(init)| {
      KeptInOrder(init, i, j);
      SameFirst(init, values, kept[i]);
      SameFirst(init, values, kept[j]);
    }
  }

  lemma SameFirst(init: seq<string>, values: seq<string>, x: string)
    requires init <= values && x in init
    ensures x in values && FirstAt(init, x) == FirstAt(values, x)
  {
    assert values[FirstAt(init, x)] == x;
  }
}
