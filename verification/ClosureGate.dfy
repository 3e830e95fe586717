/** The closure gate (closure_gate.rs): the hard facts of a process log that keep a process from completing. */
module ClosureGate {
  import opened Text
  import opened ProcessTruth

  // ---- Verifications: the last receipt under each key counts ----

  function Name(c: Capability): string {
    match c
    case VerifyArtifact => "os.verify_artifact"
    case VerifyCoverage => "artifact.verify_coverage"
    case SourceCoverageVerify => "artifact.source_coverage_verify"
    case VerifyTyped => "artifact.verify_typed"
    case AuditQuality => "artifact.audit_quality"
    case NotVerifying(id) => id
  }

  function Key(c: Capability, path: string): string {
    Name(c) + ":" + path
  }

  lemma NamesDiffer(c: Capability, d: Capability)
    requires !c.NotVerifying? && !d.NotVerifying? && Name(c) == Name(d)
    ensures c == d
  {
    assert |Name(VerifyArtifact)| == 18 && |Name(VerifyCoverage)| == 24 && |Name(SourceCoverageVerify)| == 31;
    assert |Name(VerifyTyped)| == 21 && |Name(AuditQuality)| == 22;
  }

  lemma NameHasNoColon(c: Capability)
    requires !c.NotVerifying?
    ensures ':' !in Name(c)
  {
  }

  lemma ColonSplits(a: string, b: string, s: string, t: string)
    requires ':' !in a && ':' !in b && a + ":" + s == b + ":" + t
    ensures a == b && s == t
  {
    var whole := a + ":" + s;
    assert whole[|a|] == ':' && whole[|b|] == ':';
    assert forall i :: 0 <= i < |a| ==> whole[i] == a[i] && a[i] in a;
    assert forall i :: 0 <= i < |b| ==> whole[i] == b[i] && b[i] in b;
    assert |a| == |b|;
    assert a == whole[..|a|] == b;
    assert s == whole[|a| + 1..] == t;
  }

  /** Receipts of different verifiers, or about different artifacts, never share a key. */
  lemma KeyInjective(c: Capability, path: string, d: Capability, other: string)
    requires !c.NotVerifying? && !d.NotVerifying? && Key(c, path) == Key(d, other)
    ensures c == d && path == other
  {
    NameHasNoColon(c);
    NameHasNoColon(d);
    ColonSplits(Name(c), Name(d), path, other);
    NamesDiffer(c, d);
  }

  const UNKNOWN_ARTIFACT := "<unknown_artifact>"

  function ArtifactPath(r: Receipt): string {
    match r.artifactPath case Some(p) => Slashed(p) case None => UNKNOWN_ARTIFACT
  }

  /** The receipt an event carries; the events of token use carry the capability but neither path nor issues. */
  function Payload(e: Event): Option<Receipt> {
    match e
    case ApprovalTokenConsumed(_, _, _, used) => Some(Receipt(used, OtherStatus("consumed"), None, [], []))
    case PreviewTxApplied(_, _, _, used) => Some(Receipt(used, OtherStatus("applied"), None, [], []))
    case ApprovalTokenUsed(_, _, _, used) => Some(Receipt(used, OtherStatus(""), None, [], []))
    case CapabilityBlocked(r, _) => Some(r)
    case ModelCallCompleted(payload) => payload
    case ModelCallFailed(payload, _, _) => payload
    case ArtifactModelAudit(payload, _, _) => payload
    case OtherEvent(payload) => payload
    case _ => None
  }

  /** A blocked capability carries its own receipt; the three events of token use name the capability used, with no
      path, no issues and a status that is no failure; approving, issuing and closing carry none. */
  lemma PayloadMeaning(e: Event)
    ensures e.CapabilityBlocked? ==> Payload(e) == Some(e.receipt)
    ensures e.ModelCallCompleted? || e.ModelCallFailed? || e.ArtifactModelAudit? || e.OtherEvent? ==>
              Payload(e) == e.payload
    ensures e.ApprovalTokenConsumed? || e.PreviewTxApplied? || e.ApprovalTokenUsed? ==>
              && Payload(e).Some? && Payload(e).value.capability == e.used && Payload(e).value.artifactPath == None
              && Payload(e).value.status != Failed && Payload(e).value.status != Blocked
              && Payload(e).value.blockingIssues == [] && Payload(e).value.hardRiskIssues == []
    ensures e.PreviewTxCreated? || e.PreviewTxApproved? || e.ApprovalTokenIssued? || e.PreviewTxClosed? ==>
              Payload(e) == None
  {
  }

  predicate IsAbout(e: Event, c: Capability, path: string) {
    match Payload(e)
    case Some(r) => r.capability == c && ArtifactPath(r) == path
    case None => false
  }

  /** The last receipt of this capability about this artifact. */
  function LastReceipt(log: Log, c: Capability, path: string): Option<Receipt> {
    if log == [] then None
    else if IsAbout(log[|log| - 1], c, path) then Payload(log[|log| - 1])
    else LastReceipt(log[..|log| - 1], c, path)
  }

  function Recorded(latest: map<string, Receipt>, e: Event): map<string, Receipt> {
    match Payload(e)
    case Some(r) => if r.capability.NotVerifying? then latest else latest[Key(r.capability, ArtifactPath(r)) := r]
    case None => latest
  }

  function Latest(log: Log): map<string, Receipt> {
    if log == [] then map[] else Recorded(Latest(log[..|log| - 1]), log[|log| - 1])
  }

  ghost predicate KeyedBy(latest: map<string, Receipt>, log: Log, c: Capability, path: string) {
    && (Key(c, path) in latest <==> LastReceipt(log, c, path).Some?)
    && (Key(c, path) in latest ==> Some(latest[Key(c, path)]) == LastReceipt(log, c, path))
  }

  /** The map holds, under each verifier and artifact, the last receipt about them. */
  lemma {:induction false} LatestMeaning(log: Log, c: Capability, path: string)
    requires !c.NotVerifying?
    ensures KeyedBy(Latest(log), log, c, path)
    decreases |log|
  {
    if log != [] {
      LatestMeaning(log[..|log| - 1], c, path);
      match Payload(log[|log| - 1]) {
        case None =>
        case Some(r) =>
          if !r.capability.NotVerifying? && Key(r.capability, ArtifactPath(r)) == Key(c, path) {
            KeyInjective(r.capability, ArtifactPath(r), c, path);
          }
      }
    }
  }

  predicate OwnKey(latest: map<string, Receipt>, key: string)
    requires key in latest
  {
    var r := latest[key];
    !r.capability.NotVerifying? && key == Key(r.capability, ArtifactPath(r))
  }

  lemma {:induction false} LatestKeys(log: Log)
    ensures forall key :: key in Latest(log) ==> OwnKey(Latest(log), key)
    decreases |log|
  {
    if log != [] {
      LatestKeys(log[..|log| - 1]);
    }
  }

  method VerificationFailures(log: Log) returns (failures: map<string, Receipt>)
    ensures failures == Failures(log)
  {
    var latest: map<string, Receipt> := map[];
    var k := 0;
    while k < |log|
      invariant 0 <= k <= |log|
      invariant latest == Latest(log[..k])
    {
      assert log[..k + 1][..k] == log[..k];
      match Payload(log[k]) {
        case None =>
        case Some(r) =>
          if !r.capability.NotVerifying? {
            latest := latest[Key(r.capability, ArtifactPath(r)) := r];
          }
      }
      k := k + 1;
    }
    assert log[..k] == log;
    return OnlyFailed(latest);
  }

  predicate HasFailed(r: Receipt) {
    r.status == Failed || r.status == Blocked
  }

  function OnlyFailed(latest: map<string, Receipt>): map<string, Receipt> {
    map key | key in latest && HasFailed(latest[key]) :: latest[key]
  }

  function Failures(log: Log): map<string, Receipt> {
    OnlyFailed(Latest(log))
  }

  /** Recording a receipt changes its own key only: it sets it when the receipt failed, and clears it otherwise. */
  lemma LaterReceiptReplacesOwnKey(log: Log, e: Event, r: Receipt)
    requires Payload(e) == Some(r) && !r.capability.NotVerifying?
    ensures var key := Key(r.capability, ArtifactPath(r));
            Failures(log + [e]) == if HasFailed(r) then Failures(log)[key := r] else Failures(log) - {key}
  {
    assert (log + [e])[..|log|] == log;
  }

  lemma OtherEventsKeepFailures(log: Log, e: Event)
    requires Payload(e).None? || Payload(e).value.capability.NotVerifying?
    ensures Failures(log + [e]) == Failures(log)
  {
    assert (log + [e])[..|log|] == log;
  }

  // ---- Which failures are hard ----

  predicate IsHardArtifactIssue(issue: string) {
    var lower := ToLower(issue);
    || Contains(lower, "does not exist")
    || Contains(lower, "unreadable")
    || Contains(lower, "internal blob")
    || Contains(lower, "internal source ref")
    || Contains(lower, "blob/dataset")
    || Contains(lower, "dataset refs")
    || Contains(lower, "json/schema wrapper")
    || Contains(lower, "structured model")
  }

  /** The letters of s from i on spell the phrase, in whatever case. */
  predicate SpellsAt(s: string, i: nat, phrase: string) {
    i + |phrase| <= |s| && ToLower(s[i..i + |phrase|]) == phrase
  }

  predicate Spells(s: string, phrase: string) {
    exists i: nat | i <= |s| :: SpellsAt(s, i, phrase)
  }

  lemma LowerSlice(s: string, i: nat, phrase: string)
    ensures OccursAt(ToLower(s), phrase, i) <==> SpellsAt(s, i, phrase)
  {
    if i + |phrase| <= |s| {
      assert ToLower(s)[i..i + |phrase|] == ToLower(s[i..i + |phrase|]);
    }
  }

  lemma ContainsLower(s: string, phrase: string)
    ensures Contains(ToLower(s), phrase) <==> Spells(s, phrase)
  {
    hide OccursAt, SpellsAt;
    assert |ToLower(s)| == |s|;
    forall i: nat ensures OccursAt(ToLower(s), phrase, i) <==> SpellsAt(s, i, phrase) {
      LowerSlice(s, i, phrase);
    }
  }

  /** Some stretch of the issue is one of the hard phrases but for the case of its letters. */
  lemma HardIssueMeaning(issue: string)
    ensures IsHardArtifactIssue(issue) <==>
            || Spells(issue, "does not exist")
            || Spells(issue, "unreadable")
            || Spells(issue, "internal blob")
            || Spells(issue, "internal source ref")
            || Spells(issue, "blob/dataset")
            || Spells(issue, "dataset refs")
            || Spells(issue, "json/schema wrapper")
            || Spells(issue, "structured model")
  {
    hide ToLower, Contains, Spells;
    ContainsLower(issue, "does not exist");
    ContainsLower(issue, "unreadable");
    ContainsLower(issue, "internal blob");
    ContainsLower(issue, "internal source ref");
    ContainsLower(issue, "blob/dataset");
    ContainsLower(issue, "dataset refs");
    ContainsLower(issue, "json/schema wrapper");
    ContainsLower(issue, "structured model");
  }

  function Issues(r: Receipt): seq<string> {
    if r.capability == AuditQuality then r.hardRiskIssues else r.blockingIssues
  }

  predicate AnyHard(issues: seq<string>, hard: string -> bool) {
    exists issue :: issue in issues && hard(issue)
  }

  predicate IsHardFailure(r: Receipt, hard: string -> bool) {
    HasFailed(r) && (r.capability == VerifyArtifact || AnyHard(Issues(r), hard))
  }

  function HardFailures(failures: map<string, Receipt>, hard: string -> bool): set<string> {
    set key | key in failures && IsHardFailure(failures[key], hard)
  }

  ghost predicate NoHardFailure(log: Log, hard: string -> bool) {
    forall c: Capability, path: string :: !c.NotVerifying? && LastReceipt(log, c, path).Some? ==>
      !IsHardFailure(LastReceipt(log, c, path).value, hard)
  }

  /** Nothing is reported exactly when the last receipt of every verifier about every artifact is no hard failure. */
  lemma HardFailuresMeaning(log: Log, hard: string -> bool)
    ensures HardFailures(Failures(log), hard) == {} <==> NoHardFailure(log, hard)
  {
    var failures := Failures(log);
    LatestKeys(log);
    if NoHardFailure(log, hard) {
      forall key | key in failures ensures !IsHardFailure(failures[key], hard) {
        var r := Latest(log)[key];
        assert OwnKey(Latest(log), key);
        LatestMeaning(log, r.capability, ArtifactPath(r));
      }
    }
    if HardFailures(failures, hard) == {} {
      forall c: Capability, path: string | !c.NotVerifying? && LastReceipt(log, c, path).Some?
        ensures !IsHardFailure(LastReceipt(log, c, path).value, hard)
      {
        LatestMeaning(log, c, path);
        assert IsHardFailure(LastReceipt(log, c, path).value, hard) <==> Key(c, path) in HardFailures(failures, hard);
      }
    }
  }

  // ---- Model audits: the last one of each artifact counts ----

  function LastAudit(log: Log, path: string): Option<seq<string>> {
    if log == [] then None
    else
      match log[|log| - 1]
      case ArtifactModelAudit(_, Some(p), issues) =>
        if Slashed(p) == path then Some(issues) else LastAudit(log[..|log| - 1], path)
      case _ => LastAudit(log[..|log| - 1], path)
  }

  function Audits(log: Log): map<string, seq<string>> {
    if log == [] then map[]
    else
      var before := Audits(log[..|log| - 1]);
      match log[|log| - 1]
      case ArtifactModelAudit(_, Some(p), issues) => before[Slashed(p) := issues]
      case _ => before
  }

  method LatestModelArtifactAudits(log: Log) returns (audits: map<string, seq<string>>)
    ensures audits == Audits(log)
    ensures forall path :: path in audits <==> LastAudit(log, path).Some?
    ensures forall path :: path in audits ==> Some(audits[path]) == LastAudit(log, path)
  {
    audits := map[];
    var k := 0;
    while k < |log|
      invariant 0 <= k <= |log|
      invariant audits == Audits(log[..k])
    {
      assert log[..k + 1][..k] == log[..k];
      match log[k] {
        case ArtifactModelAudit(_, Some(p), issues) => audits := audits[Slashed(p) := issues];
        case _ =>
      }
      k := k + 1;
    }
    assert log[..k] == log;
    forall path
      ensures (path in audits <==> LastAudit(log, path).Some?) &&
              (path in audits ==> Some(audits[path]) == LastAudit(log, path))
    {
      AuditsMeaning(log, path);
    }
  }

  lemma {:induction false} AuditsMeaning(log: Log, path: string)
    ensures path in Audits(log) <==> LastAudit(log, path).Some?
    ensures path in Audits(log) ==> Some(Audits(log)[path]) == LastAudit(log, path)
    decreases |log|
  {
    if log != [] {
      AuditsMeaning(log[..|log| - 1], path);
    }
  }

  function HardAudits(audits: map<string, seq<string>>, hard: string -> bool): set<string> {
    set path | path in audits && AnyHard(audits[path], hard)
  }

  ghost predicate NoHardAudit(log: Log, hard: string -> bool) {
    forall path: string :: LastAudit(log, path).Some? ==> !AnyHard(LastAudit(log, path).value, hard)
  }

  lemma HardAuditsMeaning(log: Log, hard: string -> bool)
    ensures HardAudits(Audits(log), hard) == {} <==> NoHardAudit(log, hard)
  {
    forall path ensures (path in Audits(log) <==> LastAudit(log, path).Some?)
                     && (path in Audits(log) ==> Some(Audits(log)[path]) == LastAudit(log, path)) {
      AuditsMeaning(log, path);
    }
    if HardAudits(Audits(log), hard) == {} {
      forall path: string | LastAudit(log, path).Some? ensures !AnyHard(LastAudit(log, path).value, hard) {
        assert path !in HardAudits(Audits(log), hard);
      }
    }
  }

  // ---- Pending approvals and mutations ----

  /** Previews created, carried by no token and not closed, by preview id. */
  function PendingApprovals(f: Facts): set<string> {
    (set p | p in f.created :: p.previewId) - (set t | t in f.issued :: t.previewId) - f.closedPreviews
  }

  predicate IsUnfinished(f: Facts, t: Token) {
    t.tokenId != "" && (t.tokenId !in f.consumed || (t.txId != "" && t.txId !in f.closedTxs))
  }

  /** The tokens that are not consumed, or whose transaction is not closed, in order of issue. */
  function UnfinishedTokens(f: Facts, issued: seq<Token>): seq<Token> {
    if issued == [] then []
    else
      var before, t := UnfinishedTokens(f, issued[..|issued| - 1]), issued[|issued| - 1];
      if IsUnfinished(f, t) then before + [t] else before
  }

  predicate IsPolicyBlocked(e: Event) {
    e.CapabilityBlocked? && e.mutationPolicyBlocked
  }

  /** The capabilities that a mutation policy blocked; no later event takes one off (PolicyBlockIsFinal). */
  function PolicyBlocked(log: Log): seq<Capability> {
    if log == [] then []
    else
      var before, e := PolicyBlocked(log[..|log| - 1]), log[|log| - 1];
      if IsPolicyBlocked(e) then before + [e.receipt.capability] else before
  }

  datatype PendingMutation = BlockedByPolicy(capability: Capability) | UnfinishedToken(token: Token)

  function Pending(blocked: seq<Capability>, tokens: seq<Token>): seq<PendingMutation> {
    seq(|blocked|, k requires 0 <= k < |blocked| => BlockedByPolicy(blocked[k]))
    + seq(|tokens|, k requires 0 <= k < |tokens| => UnfinishedToken(tokens[k]))
  }

  method PendingMutations(log: Log) returns (pending: seq<PendingMutation>)
    ensures pending == Pending(PolicyBlocked(log), UnfinishedTokens(FactsOf(log), FactsOf(log).issued))
  {
    pending := [];
    var k := 0;
    while k < |log|
      invariant 0 <= k <= |log|
      invariant pending == Pending(PolicyBlocked(log[..k]), [])
    {
      assert log[..k + 1][..k] == log[..k];
      if IsPolicyBlocked(log[k]) {
        pending := pending + [BlockedByPolicy(log[k].receipt.capability)];
      }
      k := k + 1;
    }
    assert log[..k] == log;
    var facts := FactsOf(log);
    ghost var blocked := PolicyBlocked(log);
    k := 0;
    while k < |facts.issued|
      invariant 0 <= k <= |facts.issued|
      invariant pending == Pending(blocked, UnfinishedTokens(facts, facts.issued[..k]))
    {
      var token := facts.issued[k];
      assert facts.issued[..k + 1][..k] == facts.issued[..k];
      if IsUnfinished(facts, token) {
        pending := pending + [UnfinishedToken(token)];
      }
      k := k + 1;
    }
    assert facts.issued[..k] == facts.issued;
  }

  lemma {:induction false} NothingPolicyBlocked(log: Log)
    ensures PolicyBlocked(log) == [] <==> forall e :: e in log ==> !IsPolicyBlocked(e)
    decreases |log|
  {
    if log != [] {
      NothingPolicyBlocked(log[..|log| - 1]);
      assert log == log[..|log| - 1] + [log[|log| - 1]];
    }
  }

  lemma {:induction false} NothingUnfinished(f: Facts, issued: seq<Token>)
    ensures UnfinishedTokens(f, issued) == [] <==> forall t :: t in issued ==> !IsUnfinished(f, t)
    decreases |issued|
  {
    if issued != [] {
      NothingUnfinished(f, issued[..|issued| - 1]);
      assert issued == issued[..|issued| - 1] + [issued[|issued| - 1]];
    }
  }

  // ---- Required model calls that failed ----

  /** The id of the k-th event of a log. */
  function EventId(k: nat): nat {
    k + 1
  }

  /** The id of the last successful model call, zero when there is none. */
  function LastSuccess(log: Log): nat {
    if log == [] then 0
    else if log[|log| - 1].ModelCallCompleted? then EventId(|log| - 1)
    else LastSuccess(log[..|log| - 1])
  }

  predicate IsRequiredFailure(e: Event) {
    e.ModelCallFailed? && e.required
  }

  /** The positions below k of required failures that no success comes after. */
  function UnresolvedBefore(log: Log, k: nat): seq<nat>
    requires k <= |log|
  {
    if k == 0 then []
    else
      var before := UnresolvedBefore(log, k - 1);
      if IsRequiredFailure(log[k - 1]) && LastSuccess(log) <= EventId(k - 1) then before + [k - 1] else before
  }

  method UnresolvedRequiredFailures(log: Log) returns (failures: seq<nat>)
    ensures failures == UnresolvedBefore(log, |log|)
    ensures Increasing(failures)
  {
    UnresolvedInOrder(log, |log|);
    var lastSuccess := 0;
    var k := 0;
    while k < |log|
      invariant 0 <= k <= |log|
      invariant lastSuccess == LastSuccess(log[..k])
    {
      assert log[..k + 1][..k] == log[..k];
      if log[k].ModelCallCompleted? && EventId(k) > lastSuccess {
        lastSuccess := EventId(k);
      }
      LastSuccessBounded(log[..k]);
      k := k + 1;
    }
    assert log[..k] == log;
    failures := [];
    k := 0;
    while k < |log|
      invariant 0 <= k <= |log|
      invariant failures == UnresolvedBefore(log, k)
    {
      if log[k].ModelCallFailed? && EventId(k) >= lastSuccess {
        if log[k].required {
          failures := failures + [k];
        }
      }
      k := k + 1;
    }
  }

  predicate Increasing(ks: seq<nat>) {
    forall i, j :: 0 <= i < j < |ks| ==> ks[i] < ks[j]
  }

  lemma {:induction false} UnresolvedInOrder(log: Log, n: nat)
    requires n <= |log|
    ensures Increasing(UnresolvedBefore(log, n))
  {
    if n > 0 {
      UnresolvedInOrder(log, n - 1);
      UnresolvedBounded(log, n - 1);
      var before := UnresolvedBefore(log, n - 1);
      forall i | 0 <= i < |before| ensures before[i] < n - 1 {
        assert before[i] in before;
      }
    }
  }

  lemma LastSuccessBounded(log: Log)
    ensures LastSuccess(log) <= |log|
  {
  }

  predicate Resolved(log: Log, k: nat) {
    exists j :: k < j < |log| && log[j].ModelCallCompleted?
  }

  lemma {:induction false} LastSuccessMeaning(log: Log, k: nat)
    requires k < |log| && !log[k].ModelCallCompleted?
    ensures LastSuccess(log) <= EventId(k) <==> !Resolved(log, k)
    decreases |log|
  {
    var init := log[..|log| - 1];
    if log[|log| - 1].ModelCallCompleted? {
      assert Resolved(log, k);
    } else if k == |log| - 1 {
      LastSuccessBounded(init);
    } else {
      LastSuccessMeaning(init, k);
      assert forall j :: 0 <= j < |init| ==> init[j] == log[j];
    }
  }

  /** A required failure is reported exactly when no model call succeeds after it. */
  lemma {:induction false} UnresolvedMeaning(log: Log, n: nat, k: nat)
    requires k < n <= |log|
    ensures k in UnresolvedBefore(log, n) <==> IsRequiredFailure(log[k]) && !Resolved(log, k)
    decreases n
  {
    UnresolvedBounded(log, n - 1);
    if k < n - 1 {
      UnresolvedMeaning(log, n - 1, k);
    } else if !log[k].ModelCallCompleted? {
      LastSuccessMeaning(log, k);
    }
  }

  lemma UnresolvedBounded(log: Log, n: nat)
    requires n <= |log|
    ensures forall k :: k in UnresolvedBefore(log, n) ==> k < n
  {
  }

  // ---- Missing artifacts ----

  predicate IsInternalRef(ref: string) {
    var lower := ToLower(Trim(ref));
    || "blob://" <= lower
    || "dataset://" <= lower
    || "artifact://" <= lower
    || "artifact_ref://" <= lower
    || "source_set://" <= lower
    || "raw_document_set://" <= lower
  }

  /** Without the blanks around it, the reference begins with an internal scheme in whatever case. */
  lemma InternalRefMeaning(ref: string)
    ensures IsInternalRef(ref) <==>
            || SpellsAt(Trim(ref), 0, "blob://")
            || SpellsAt(Trim(ref), 0, "dataset://")
            || SpellsAt(Trim(ref), 0, "artifact://")
            || SpellsAt(Trim(ref), 0, "artifact_ref://")
            || SpellsAt(Trim(ref), 0, "source_set://")
            || SpellsAt(Trim(ref), 0, "raw_document_set://")
  {
    hide ToLower, Trim, SpellsAt;
    BeginsLower(Trim(ref), "blob://");
    BeginsLower(Trim(ref), "dataset://");
    BeginsLower(Trim(ref), "artifact://");
    BeginsLower(Trim(ref), "artifact_ref://");
    BeginsLower(Trim(ref), "source_set://");
    BeginsLower(Trim(ref), "raw_document_set://");
  }

  lemma BeginsLower(s: string, phrase: string)
    ensures phrase <= ToLower(s) <==> SpellsAt(s, 0, phrase)
  {
    LowerSlice(s, 0, phrase);
  }

  /** How the workspace resolves a reference: to a readable path, to one that is absent or unreadable, or not at all. */
  datatype Resolution = Readable | Unreadable | Unresolved(error: string)

  /** The message that reports the reference as missing. */
  function MissingMessage(ref: string, resolve: string -> Resolution, internal: string -> bool): Option<string> {
    var trimmed := Trim(ref);
    if trimmed == "" || internal(trimmed) then Some(ref)
    else
      match resolve(trimmed)
      case Readable => None
      case Unreadable => Some(trimmed)
      case Unresolved(error) => Some(trimmed + ":" + error)
  }

  function Missing(refs: seq<string>, message: string -> Option<string>): seq<string> {
    if refs == [] then []
    else
      var before := Missing(refs[..|refs| - 1], message);
      match message(refs[|refs| - 1])
      case Some(m) => before + [m]
      case None => before
  }

  method MissingArtifacts(refs: seq<string>, message: string -> Option<string>) returns (missing: seq<string>)
    ensures missing == Missing(refs, message)
    ensures missing == [] <==> forall ref :: ref in refs ==> message(ref).None?
  {
    missing := [];
    var k := 0;
    while k < |refs|
      invariant 0 <= k <= |refs|
      invariant missing == Missing(refs[..k], message)
      invariant missing == [] <==> forall ref :: ref in refs[..k] ==> message(ref).None?
    {
      assert refs[..k + 1] == refs[..k] + [refs[k]];
      match message(refs[k]) {
        case Some(m) =>
          missing := missing + [m];
          assert refs[k] in refs[..k + 1];
        case None =>
      }
      k := k + 1;
    }
    assert refs[..k] == refs;
  }

  // ---- The gate ----

  /** A failed check, by the key of its receipt or by the path of the audited artifact. */
  datatype FailedCheck = FailedVerification(key: string) | FailedAudit(path: string)

  datatype Block =
    | MissingArtifact(message: string)
    | PendingApproval(previewId: string)
    | PendingChange(mutation: PendingMutation)
    | HardCheck(check: FailedCheck)
    | RequiredFailure(position: nat)

  datatype GateResult = GateResult(
    canComplete: bool,
    hardBlocks: seq<Block>,
    missingArtifacts: seq<string>,
    failedChecks: seq<FailedCheck>,
    pendingMutations: seq<PendingMutation>,
    pendingApprovals: seq<string>,
    unresolvedRequiredFailures: seq<nat>)

  function Blocks<T>(items: seq<T>, block: T -> Block): seq<Block> {
    seq(|items|, k requires 0 <= k < |items| => block(items[k]))
  }

  /** One block per finding, kind after kind. */
  function BlocksOf(missing: seq<string>, approvals: seq<string>, mutations: seq<PendingMutation>,
                    checks: seq<FailedCheck>, failures: seq<nat>): seq<Block>
  {
    Blocks(missing, m => MissingArtifact(m)) + Blocks(approvals, id => PendingApproval(id))
    + Blocks(mutations, m => PendingChange(m)) + Blocks(checks, c => HardCheck(c))
    + Blocks(failures, k => RequiredFailure(k))
  }

  /** The k-th block is the k-th finding when the five lists are read one after the other. */
  lemma BlocksMeaning(missing: seq<string>, approvals: seq<string>, mutations: seq<PendingMutation>,
                      checks: seq<FailedCheck>, failures: seq<nat>, k: nat)
    ensures var blocks := BlocksOf(missing, approvals, mutations, checks, failures);
            var a := |missing|; var b := a + |approvals|; var c := b + |mutations|; var d := c + |checks|;
            && |blocks| == d + |failures|
            && (k < a ==> blocks[k] == MissingArtifact(missing[k]))
            && (a <= k < b ==> blocks[k] == PendingApproval(approvals[k - a]))
            && (b <= k < c ==> blocks[k] == PendingChange(mutations[k - b]))
            && (c <= k < d ==> blocks[k] == HardCheck(checks[k - c]))
            && (d <= k < d + |failures| ==> blocks[k] == RequiredFailure(failures[k - d]))
  {
  }

  method HardBlocks(missing: seq<string>, approvals: seq<string>, mutations: seq<PendingMutation>,
                    checks: seq<FailedCheck>, failures: seq<nat>) returns (blocks: seq<Block>)
    ensures blocks == BlocksOf(missing, approvals, mutations, checks, failures)
    ensures blocks == [] <==> missing == [] && approvals == [] && mutations == [] && checks == [] && failures == []
  {
    blocks := AddBlocks([], missing, m => MissingArtifact(m));
    blocks := AddBlocks(blocks, approvals, id => PendingApproval(id));
    blocks := AddBlocks(blocks, mutations, m => PendingChange(m));
    blocks := AddBlocks(blocks, checks, c => HardCheck(c));
    blocks := AddBlocks(blocks, failures, k => RequiredFailure(k));
  }

  method AddBlocks<T>(before: seq<Block>, items: seq<T>, block: T -> Block) returns (blocks: seq<Block>)
    ensures blocks == before + Blocks(items, block)
  {
    blocks := before;
    var k := 0;
    while k < |items|
      invariant 0 <= k <= |items|
      invariant blocks == before + Blocks(items[..k], block)
    {
      blocks := blocks + [block(items[k])];
      k := k + 1;
    }
    assert items[..k] == items;
  }

  /** The elements of a set, each once; the order is left open. */
  method Listed<T(==)>(all: set<T>) returns (items: seq<T>)
    ensures NoDup(items)
    ensures forall x :: x in all <==> x in items
  {
    items := [];
    var rest := all;
    while rest != {}
      invariant NoDup(items)
      invariant rest <= all
      invariant forall x :: x in all <==> x in rest || x in items
      invariant forall x :: x in rest ==> x !in items
      decreases |rest|
    {
      var x :| x in rest;
      rest := rest - {x};
      items := items + [x];
    }
  }

  predicate NoneHard(issues: seq<string>, hard: string -> bool) {
    forall issue :: issue in issues ==> !hard(issue)
  }

  /** A verifier's receipt keeps nothing from completing: it has not failed, or it is not the artifact check and none of
      its issues (for a quality audit, its hard risks) is a hard one. */
  predicate Passes(c: Capability, r: Receipt, hard: string -> bool) {
    r.status == Failed || r.status == Blocked ==>
      && c != VerifyArtifact
      && NoneHard(if c == AuditQuality then r.hardRiskIssues else r.blockingIssues, hard)
  }

  /** Every claimed artifact is a readable workspace path. */
  predicate ArtifactsReadable(refs: seq<string>, resolve: string -> Resolution, internal: string -> bool) {
    forall ref :: ref in refs ==> Trim(ref) != "" && !internal(Trim(ref)) && resolve(Trim(ref)) == Readable
  }

  /** No last receipt of a verifier about an artifact is a hard failure. */
  ghost predicate VerifiersPass(log: Log, hard: string -> bool) {
    forall c: Capability, path: string :: !c.NotVerifying? && LastReceipt(log, c, path).Some? ==>
      Passes(c, LastReceipt(log, c, path).value, hard)
  }

  ghost predicate AuditsPass(log: Log, hard: string -> bool) {
    forall path: string :: LastAudit(log, path).Some? ==> NoneHard(LastAudit(log, path).value, hard)
  }

  /** Every preview was approved or closed. */
  predicate PreviewsSettled(f: Facts) {
    forall p :: p in f.created ==>
      p.previewId in f.closedPreviews || exists t :: t in f.issued && t.previewId == p.previewId
  }

  predicate NothingBlocked(log: Log) {
    forall e :: e in log ==> !(e.CapabilityBlocked? && e.mutationPolicyBlocked)
  }

  /** Every token was used and its transaction closed. */
  predicate TokensSettled(f: Facts) {
    forall t :: t in f.issued && t.tokenId != "" ==> t.tokenId in f.consumed && (t.txId == "" || t.txId in f.closedTxs)
  }

  /** Some model call succeeds after each required one that failed. */
  predicate FailuresResolved(log: Log) {
    forall k :: 0 <= k < |log| && log[k].ModelCallFailed? && log[k].required ==>
      exists j :: k < j < |log| && log[j].ModelCallCompleted?
  }

  /** The process may complete: what the gate promises, read off the log and the claimed artifacts alone. */
  ghost predicate MayComplete(log: Log, refs: seq<string>, resolve: string -> Resolution, internal: string -> bool,
                              hard: string -> bool)
  {
    && ArtifactsReadable(refs, resolve, internal)
    && VerifiersPass(log, hard) && AuditsPass(log, hard)
    && PreviewsSettled(FactsOf(log)) && NothingBlocked(log) && TokensSettled(FactsOf(log))
    && FailuresResolved(log)
  }

  lemma PassesIff(log: Log, c: Capability, path: string, hard: string -> bool)
    requires LastReceipt(log, c, path).Some?
    ensures Passes(c, LastReceipt(log, c, path).value, hard) <==> !IsHardFailure(LastReceipt(log, c, path).value, hard)
  {
    LastReceiptIsAbout(log, c, path);
  }

  lemma LastReceiptIsAbout(log: Log, c: Capability, path: string)
    requires LastReceipt(log, c, path).Some?
    ensures LastReceipt(log, c, path).value.capability == c
  {
  }

  lemma VerifiersPassIff(log: Log, hard: string -> bool)
    ensures VerifiersPass(log, hard) <==> NoHardFailure(log, hard)
  {
    hide Passes, IsHardFailure, LastReceipt;
    if NoHardFailure(log, hard) {
      forall c: Capability, path: string | !c.NotVerifying? && LastReceipt(log, c, path).Some?
        ensures Passes(c, LastReceipt(log, c, path).value, hard)
      {
        PassesIff(log, c, path, hard);
      }
    } else {
      var c: Capability, path: string :| !c.NotVerifying? && LastReceipt(log, c, path).Some?
        && IsHardFailure(LastReceipt(log, c, path).value, hard);
      PassesIff(log, c, path, hard);
    }
  }

  lemma AuditsPassIff(log: Log, hard: string -> bool)
    ensures AuditsPass(log, hard) <==> NoHardAudit(log, hard)
  {
    hide LastAudit;
    if NoHardAudit(log, hard) {
      forall path: string | LastAudit(log, path).Some? ensures NoneHard(LastAudit(log, path).value, hard) {
        assert !AnyHard(LastAudit(log, path).value, hard);
      }
    } else {
      var path: string :| LastAudit(log, path).Some? && AnyHard(LastAudit(log, path).value, hard);
      assert !NoneHard(LastAudit(log, path).value, hard);
    }
  }

  lemma MutationsSettledIff(log: Log)
    ensures Pending(PolicyBlocked(log), UnfinishedTokens(FactsOf(log), FactsOf(log).issued)) == [] <==>
            NothingBlocked(log) && TokensSettled(FactsOf(log))
  {
    hide FactsOf, PolicyBlocked, UnfinishedTokens;
    NothingPending(log);
  }

  lemma FailuresResolvedIff(log: Log)
    ensures UnresolvedBefore(log, |log|) == [] <==> FailuresResolved(log)
  {
    hide UnresolvedBefore;
    NothingUnresolved(log);
  }

  lemma ArtifactsReadableIff(refs: seq<string>, resolve: string -> Resolution, internal: string -> bool)
    ensures ArtifactsReadable(refs, resolve, internal) <==>
            forall ref :: ref in refs ==> Messages(resolve, internal)(ref).None?
  {
    hide Trim;
  }

  /** The same in terms of what the gate computes. */
  lemma MayCompleteIff(log: Log, refs: seq<string>, resolve: string -> Resolution, internal: string -> bool,
                       hard: string -> bool)
    ensures MayComplete(log, refs, resolve, internal, hard) <==>
            && ArtifactsReadable(refs, resolve, internal)
            && NoHardFailure(log, hard) && NoHardAudit(log, hard)
            && PendingApprovals(FactsOf(log)) == {}
            && Pending(PolicyBlocked(log), UnfinishedTokens(FactsOf(log), FactsOf(log).issued)) == []
            && UnresolvedBefore(log, |log|) == []
  {
    hide FactsOf, ArtifactsReadable, VerifiersPass, AuditsPass, PreviewsSettled, NothingBlocked, TokensSettled,
      FailuresResolved, NoHardFailure, NoHardAudit, PendingApprovals, Pending, UnfinishedTokens, PolicyBlocked,
      UnresolvedBefore;
    VerifiersPassIff(log, hard);
    AuditsPassIff(log, hard);
    NoPendingApproval(FactsOf(log));
    MutationsSettledIff(log);
    FailuresResolvedIff(log);
  }

  function Messages(resolve: string -> Resolution, internal: string -> bool): string -> Option<string> {
    (ref: string) => MissingMessage(ref, resolve, internal)
  }

  /** The message for a missing reference: the reference as it was given when it is blank or internal, the trimmed path
      when nothing readable is there, and the path with the error when it does not resolve. */
  predicate Reports(message: string, ref: string, resolve: string -> Resolution, internal: string -> bool) {
    var path := Trim(ref);
    if path == "" || internal(path) then message == ref
    else if resolve(path).Unresolved? then message == path + ":" + resolve(path).error
    else resolve(path) == Unreadable && message == path
  }

  lemma MissingMeaning(refs: seq<string>, resolve: string -> Resolution, internal: string -> bool, message: string)
    ensures message in Missing(refs, Messages(resolve, internal)) <==>
            exists ref :: ref in refs && Reports(message, ref, resolve, internal)
  {
    hide Trim;
    MissingHas(refs, Messages(resolve, internal), message);
    forall ref ensures Messages(resolve, internal)(ref) == Some(message) <==> Reports(message, ref, resolve, internal) {
    }
  }

  lemma {:induction false} MissingHas(refs: seq<string>, messages: string -> Option<string>, message: string)
    ensures message in Missing(refs, messages) <==> exists ref :: ref in refs && messages(ref) == Some(message)
  {
    if refs != [] {
      var n := |refs| - 1;
      MissingHas(refs[..n], messages, message);
      assert refs[n] in refs && forall ref :: ref in refs <==> ref in refs[..n] || ref == refs[n];
    }
  }

  /** References are gone through in their order. */
  lemma {:induction false} MissingInOrder(a: seq<string>, b: seq<string>, messages: string -> Option<string>)
    ensures Missing(a + b, messages) == Missing(a, messages) + Missing(b, messages)
    decreases |b|
  {
    if b == [] {
      assert a + b == a;
    } else {
      var n := |b| - 1;
      MissingInOrder(a, b[..n], messages);
      assert (a + b)[..|a| + n] == a + b[..n] && (a + b)[|a| + n] == b[n];
    }
  }

  lemma {:induction false} PolicyBlockedGrows(log: Log, more: Log)
    ensures PolicyBlocked(log) <= PolicyBlocked(log + more)
    decreases |more|
  {
    if more == [] {
      assert log + more == log;
    } else {
      PolicyBlockedGrows(log, more[..|more| - 1]);
      assert (log + more)[..|log + more| - 1] == log + more[..|more| - 1];
    }
  }

  /** A capability blocked by the mutation policy stays pending, and the process can never complete again, whatever is
      appended to the log. */
  lemma PolicyBlockIsFinal(log: Log, more: Log, e: Event, refs: seq<string>, resolve: string -> Resolution,
                           internal: string -> bool, hard: string -> bool)
    requires e in log && IsPolicyBlocked(e)
    ensures !MayComplete(log + more, refs, resolve, internal, hard)
    ensures PolicyBlocked(log) != [] && PolicyBlocked(log) <= PolicyBlocked(log + more)
  {
    assert e in log + more;
    NothingPolicyBlocked(log);
    PolicyBlockedGrows(log, more);
  }

  lemma NoPendingApproval(f: Facts)
    ensures PendingApprovals(f) == {} <==> PreviewsSettled(f)
  {
    var carried := set t | t in f.issued :: t.previewId;
    if PendingApprovals(f) == {} {
      forall p | p in f.created
        ensures p.previewId in f.closedPreviews || exists t :: t in f.issued && t.previewId == p.previewId
      {
        assert p.previewId !in PendingApprovals(f);
        assert p.previewId in carried || p.previewId in f.closedPreviews;
      }
    }
  }

  lemma NothingUnresolved(log: Log)
    ensures UnresolvedBefore(log, |log|) == [] <==>
            forall k :: 0 <= k < |log| && IsRequiredFailure(log[k]) ==> Resolved(log, k)
  {
    UnresolvedBounded(log, |log|);
    forall k | 0 <= k < |log|
      ensures k in UnresolvedBefore(log, |log|) <==> IsRequiredFailure(log[k]) && !Resolved(log, k)
    {
      UnresolvedMeaning(log, |log|, k);
    }
    if UnresolvedBefore(log, |log|) != [] {
      assert UnresolvedBefore(log, |log|)[0] in UnresolvedBefore(log, |log|);
    }
  }

  lemma NothingPending(log: Log)
    ensures Pending(PolicyBlocked(log), UnfinishedTokens(FactsOf(log), FactsOf(log).issued)) == [] <==>
            (forall e :: e in log ==> !IsPolicyBlocked(e))
            && (forall t :: t in FactsOf(log).issued ==> !IsUnfinished(FactsOf(log), t))
  {
    NothingPolicyBlocked(log);
    NothingUnfinished(FactsOf(log), FactsOf(log).issued);
  }

  /** What the gate reports, finding by finding: a verifier's last receipt about an artifact that does not pass, an
      artifact whose last audit has a hard issue. */
  lemma ReportedChecks(log: Log, hard: string -> bool, c: Capability, path: string)
    requires !c.NotVerifying?
    ensures Key(c, path) in HardFailures(Failures(log), hard) <==>
            LastReceipt(log, c, path).Some? && !Passes(c, LastReceipt(log, c, path).value, hard)
    ensures path in HardAudits(Audits(log), hard) <==>
            LastAudit(log, path).Some? && !NoneHard(LastAudit(log, path).value, hard)
  {
    LatestMeaning(log, c, path);
    AuditsMeaning(log, path);
    if LastReceipt(log, c, path).Some? { PassesIff(log, c, path, hard); }
    if LastAudit(log, path).Some? { NoneHardIff(LastAudit(log, path).value, hard); }
  }

  lemma NoneHardIff(issues: seq<string>, hard: string -> bool)
    ensures NoneHard(issues, hard) <==> !AnyHard(issues, hard)
  {
  }

  lemma {:induction false} UnfinishedHas(f: Facts, issued: seq<Token>, t: Token)
    ensures t in UnfinishedTokens(f, issued) <==> t in issued && IsUnfinished(f, t)
    decreases |issued|
  {
    if issued != [] {
      UnfinishedHas(f, issued[..|issued| - 1], t);
      assert issued == issued[..|issued| - 1] + [issued[|issued| - 1]];
    }
  }

  lemma {:induction false} PolicyBlockedHas(log: Log, c: Capability)
    ensures c in PolicyBlocked(log) <==>
            exists e :: e in log && e.CapabilityBlocked? && e.mutationPolicyBlocked && e.receipt.capability == c
    decreases |log|
  {
    if log != [] {
      PolicyBlockedHas(log[..|log| - 1], c);
      assert log == log[..|log| - 1] + [log[|log| - 1]];
    }
  }

  lemma PendingHas(blocked: seq<Capability>, tokens: seq<Token>, c: Capability, t: Token)
    ensures BlockedByPolicy(c) in Pending(blocked, tokens) <==> c in blocked
    ensures UnfinishedToken(t) in Pending(blocked, tokens) <==> t in tokens
  {
    var pending := Pending(blocked, tokens);
    if c in blocked {
      var k :| 0 <= k < |blocked| && blocked[k] == c;
      assert pending[k] == BlockedByPolicy(c);
    }
    if t in tokens {
      var k :| 0 <= k < |tokens| && tokens[k] == t;
      assert pending[|blocked| + k] == UnfinishedToken(t);
    }
  }

  /** And a capability that the mutation policy blocked, a token not used or whose transaction is open, a preview that
      was neither approved nor closed. */
  lemma ReportedChanges(log: Log, c: Capability, t: Token, id: string)
    ensures var f := FactsOf(log);
            var pending := Pending(PolicyBlocked(log), UnfinishedTokens(f, f.issued));
            && (BlockedByPolicy(c) in pending <==>
                  exists e :: e in log && e.CapabilityBlocked? && e.mutationPolicyBlocked && e.receipt.capability == c)
            && (UnfinishedToken(t) in pending <==>
                  && t in f.issued && t.tokenId != ""
                  && (t.tokenId !in f.consumed || (t.txId != "" && t.txId !in f.closedTxs)))
            && (id in PendingApprovals(f) <==>
                  && (exists p :: p in f.created && p.previewId == id)
                  && (forall u :: u in f.issued ==> u.previewId != id) && id !in f.closedPreviews)
  {
    hide FactsOf, PolicyBlocked, UnfinishedTokens, Pending;
    var f := FactsOf(log);
    PendingHas(PolicyBlocked(log), UnfinishedTokens(f, f.issued), c, t);
    PolicyBlockedHas(log, c);
    UnfinishedHas(f, f.issued, t);
  }

  method FailedChecks(log: Log, hard: string -> bool) returns (checks: seq<FailedCheck>)
    ensures forall key :: FailedVerification(key) in checks <==> key in HardFailures(Failures(log), hard)
    ensures forall path :: FailedAudit(path) in checks <==> path in HardAudits(Audits(log), hard)
    ensures checks == [] <==> NoHardFailure(log, hard) && NoHardAudit(log, hard)
  {
    var failures := VerificationFailures(log);
    var audits := LatestModelArtifactAudits(log);
    var keys := Listed(HardFailures(failures, hard));
    var paths := Listed(HardAudits(audits, hard));
    checks := seq(|keys|, k requires 0 <= k < |keys| => FailedVerification(keys[k]))
            + seq(|paths|, k requires 0 <= k < |paths| => FailedAudit(paths[k]));
    forall key ensures FailedVerification(key) in checks <==> key in keys {
      if key in keys {
        var k :| 0 <= k < |keys| && keys[k] == key;
        assert checks[k] == FailedVerification(key);
      }
    }
    forall path ensures FailedAudit(path) in checks <==> path in paths {
      if path in paths {
        var k :| 0 <= k < |paths| && paths[k] == path;
        assert checks[|keys| + k] == FailedAudit(path);
      }
    }
    HardFailuresMeaning(log, hard);
    HardAuditsMeaning(log, hard);
    assert keys == [] <==> HardFailures(failures, hard) == {} by { assert keys != [] ==> keys[0] in keys; }
    assert paths == [] <==> HardAudits(audits, hard) == {} by { assert paths != [] ==> paths[0] in paths; }
  }

  method CheckClosureGate(log: Log, refs: seq<string>, resolve: string -> Resolution, internal: string -> bool,
                          hard: string -> bool)
    returns (g: GateResult)
    ensures g.canComplete <==> MayComplete(log, refs, resolve, internal, hard)
    ensures g.canComplete <==> g.hardBlocks == []
    ensures g.hardBlocks == BlocksOf(g.missingArtifacts, g.pendingApprovals, g.pendingMutations, g.failedChecks,
                                     g.unresolvedRequiredFailures)
    ensures g.missingArtifacts == Missing(refs, Messages(resolve, internal))
    ensures forall message :: message in g.missingArtifacts <==>
              exists ref :: ref in refs && Reports(message, ref, resolve, internal)
    ensures forall key :: FailedVerification(key) in g.failedChecks <==> key in HardFailures(Failures(log), hard)
    ensures forall path :: FailedAudit(path) in g.failedChecks <==> path in HardAudits(Audits(log), hard)
    ensures forall id :: id in g.pendingApprovals <==> id in PendingApprovals(FactsOf(log))
    ensures g.pendingMutations == Pending(PolicyBlocked(log), UnfinishedTokens(FactsOf(log), FactsOf(log).issued))
    ensures forall k :: k in g.unresolvedRequiredFailures <==>
              0 <= k < |log| && IsRequiredFailure(log[k]) && !Resolved(log, k)
  {
    hide FactsOf, Failures, Audits, HardAudits, HardFailures, PendingApprovals, Pending, UnfinishedTokens, MayComplete,
      Reports, Messages, BlocksOf, NoHardFailure, NoHardAudit, ArtifactsReadable;
    var missing := MissingArtifacts(refs, Messages(resolve, internal));
    var checks := FailedChecks(log, hard);
    var approvals := Listed(PendingApprovals(FactsOf(log)));
    var mutations := PendingMutations(log);
    var failures := UnresolvedRequiredFailures(log);
    var blocks := HardBlocks(missing, approvals, mutations, checks, failures);
    g := GateResult(blocks == [], blocks, missing, checks, mutations, approvals, failures);
    assert approvals == [] <==> PendingApprovals(FactsOf(log)) == {} by {
      assert approvals != [] ==> approvals[0] in approvals;
    }
    forall message
      ensures message in missing <==> exists ref :: ref in refs && Reports(message, ref, resolve, internal)
    {
      MissingMeaning(refs, resolve, internal, message);
    }
    ArtifactsReadableIff(refs, resolve, internal);
    MayCompleteIff(log, refs, resolve, internal, hard);
    UnresolvedBounded(log, |log|);
    forall k | 0 <= k < |log|
      ensures k in failures <==> IsRequiredFailure(log[k]) && !Resolved(log, k)
    {
      UnresolvedMeaning(log, |log|, k);
    }
  }

  method CheckClosureGateForArtifacts(log: Log, refs: seq<string>, resolve: string -> Resolution)
    returns (g: GateResult)
    ensures g.canComplete <==> MayComplete(log, refs, resolve, IsInternalRef, IsHardArtifactIssue)
  {
    g := CheckClosureGate(log, refs, resolve, IsInternalRef, IsHardArtifactIssue);
  }
}
