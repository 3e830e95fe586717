/** Whole runs of the approval runtime, against a small machine that keeps no log. */
module ApprovalRuns {
  import opened Text
  import opened ProcessTruth
  import opened Approval

  // ---- Runs ----

  /** One call of the runtime, or an event that another component records. */
  datatype Step =
    | Create(preview: Preview)
    | Issue(wanted: Option<string>, tokenId: string, now: nat)
    | Use(tokenId: string, used: Capability)
    | Record(event: Event)

  predicate Foreign(e: Event) {
    e.CapabilityBlocked? || e.ModelCallCompleted? || e.ModelCallFailed? || e.ArtifactModelAudit? || e.OtherEvent?
  }

  function StepEvents(f: Facts, seal: Preview -> Seal, s: Step): seq<Event> {
    match s
    case Create(p) => CreateEvents(p)
    case Issue(wanted, tokenId, now) =>
      (match IssueEvents(f, seal, wanted, tokenId, now) case Ok(events) => events case Err(_) => [])
    case Use(tokenId, used) => UseEvents(f, tokenId, used)
    case Record(e) => if Foreign(e) then [e] else []
  }

  function RunLog(seal: Preview -> Seal, steps: seq<Step>): Log {
    if steps == [] then []
    else
      var log := RunLog(seal, steps[..|steps| - 1]);
      log + StepEvents(FactsOf(log), seal, steps[|steps| - 1])
  }

  /** The ids that a step generates have not been seen; a token id is not empty either. */
  predicate FreshStep(f: Facts, s: Step) {
    match s
    case Create(q) => forall p :: p in f.created ==> p.previewId != q.previewId && p.txId != q.txId
    case Issue(_, tokenId, _) =>
      tokenId != "" && tokenId !in f.consumed && forall t :: t in f.issued ==> t.tokenId != tokenId
    case _ => true
  }

  predicate FreshRun(seal: Preview -> Seal, steps: seq<Step>) {
    steps == [] ||
    (var before := steps[..|steps| - 1];
     FreshRun(seal, before) && FreshStep(FactsOf(RunLog(seal, before)), steps[|steps| - 1]))
  }

  // ---- What one step does to the facts ----

  function UseFacts(f: Facts, tokenId: string): Facts {
    var g := f.(consumed := f.consumed + {tokenId});
    match LastIssued(f.issued, tokenId)
    case None => g
    case Some(t) =>
      if t.txId == "" then g
      else
        g.(closedTxs := g.closedTxs + {t.txId}, closedPreviews := g.closedPreviews + {t.previewId},
           decided := g.decided + {t.txId})
  }

  function NextFacts(f: Facts, seal: Preview -> Seal, s: Step): Facts {
    match s
    case Create(p) => f.(created := f.created + [p])
    case Issue(wanted, tokenId, now) =>
      (match LatestOpen(f, f.created, wanted)
       case None => f
       case Some(p) =>
         if Approvable(seal(p)) then
           f.(issued := f.issued + [TokenFor(p, tokenId, seal(p), now)], decided := f.decided + {p.txId})
         else f)
    case Use(tokenId, _) => UseFacts(f, tokenId)
    case Record(_) => f
  }

  lemma AppendTwo(log: Log, a: Event, b: Event)
    ensures FactsOf(log + [a, b]) == AddFact(AddFact(FactsOf(log), a), b)
  {
    assert log + [a, b] == (log + [a]) + [b];
    Append(log, a);
    Append(log + [a], b);
  }

  lemma UseWithoutTx(log: Log, tokenId: string, previewId: string, used: Capability)
    ensures FactsOf(log + [ApprovalTokenConsumed(tokenId, "", previewId, used),
                           ApprovalTokenUsed(tokenId, "", previewId, used)])
         == FactsOf(log).(consumed := FactsOf(log).consumed + {tokenId})
  {
    AppendTwo(log, ApprovalTokenConsumed(tokenId, "", previewId, used),
              ApprovalTokenUsed(tokenId, "", previewId, used));
  }

  lemma UseWithTx(log: Log, tokenId: string, txId: string, previewId: string, used: Capability)
    ensures var f := FactsOf(log);
            var events := [ApprovalTokenConsumed(tokenId, txId, previewId, used),
                           PreviewTxApplied(tokenId, txId, previewId, used),
                           ApprovalTokenUsed(tokenId, txId, previewId, used),
                           PreviewTxClosed(txId, previewId, tokenId)];
            FactsOf(log + events) == f.(consumed := f.consumed + {tokenId}, closedTxs := f.closedTxs + {txId},
                                        closedPreviews := f.closedPreviews + {previewId}, decided := f.decided + {txId})
  {
    hide FactsOf;
    var a, b := ApprovalTokenConsumed(tokenId, txId, previewId, used), PreviewTxApplied(tokenId, txId, previewId, used);
    var c, d := ApprovalTokenUsed(tokenId, txId, previewId, used), PreviewTxClosed(txId, previewId, tokenId);
    AppendTwo(log, a, b);
    AppendTwo(log + [a, b], c, d);
    assert log + [a, b, c, d] == (log + [a, b]) + [c, d];
  }

  lemma UseEffect(log: Log, tokenId: string, used: Capability)
    ensures FactsOf(log + UseEvents(FactsOf(log), tokenId, used)) == UseFacts(FactsOf(log), tokenId)
  {
    var issued := LastIssued(FactsOf(log).issued, tokenId);
    var events := UseEvents(FactsOf(log), tokenId, used);
    if issued.None? || issued.value.txId == "" {
      var previewId := if issued.None? then "" else issued.value.previewId;
      assert events == [ApprovalTokenConsumed(tokenId, "", previewId, used),
                        ApprovalTokenUsed(tokenId, "", previewId, used)];
      UseWithoutTx(log, tokenId, previewId, used);
    } else {
      var t := issued.value;
      assert events == [ApprovalTokenConsumed(tokenId, t.txId, t.previewId, used),
                        PreviewTxApplied(tokenId, t.txId, t.previewId, used),
                        ApprovalTokenUsed(tokenId, t.txId, t.previewId, used),
                        PreviewTxClosed(t.txId, t.previewId, tokenId)];
      UseWithTx(log, tokenId, t.txId, t.previewId, used);
    }
  }

  lemma RecordPreview(log: Log, p: Preview)
    ensures FactsOf(log + [PreviewTxCreated(p), OtherEvent(None)]) ==
            FactsOf(log).(created := FactsOf(log).created + [p])
  {
    AppendTwo(log, PreviewTxCreated(p), OtherEvent(None));
  }

  lemma IssueEffect(log: Log, seal: Preview -> Seal, wanted: Option<string>, tokenId: string, now: nat, p: Preview)
    requires LatestOpen(FactsOf(log), FactsOf(log).created, wanted) == Some(p)
    requires Approvable(seal(p))
    ensures IssueEvents(FactsOf(log), seal, wanted, tokenId, now).Ok?
    ensures FactsOf(log + IssueEvents(FactsOf(log), seal, wanted, tokenId, now).value)
         == FactsOf(log).(issued := FactsOf(log).issued + [TokenFor(p, tokenId, seal(p), now)],
                          decided := FactsOf(log).decided + {p.txId})
  {
    var events := IssueEvents(FactsOf(log), seal, wanted, tokenId, now).value;
    AppendTwo(log, events[0], events[1]);
  }

  lemma StepEffect(log: Log, seal: Preview -> Seal, s: Step)
    ensures FactsOf(log + StepEvents(FactsOf(log), seal, s)) == NextFacts(FactsOf(log), seal, s)
  {
    assert log + [] == log;
    match s
    case Create(p) => RecordPreview(log, p);
    case Issue(wanted, tokenId, now) =>
      match LatestOpen(FactsOf(log), FactsOf(log).created, wanted) {
        case Some(p) => if Approvable(seal(p)) { IssueEffect(log, seal, wanted, tokenId, now, p); }
        case None =>
      }
    case Use(tokenId, used) => UseEffect(log, tokenId, used);
    case Record(e) => if Foreign(e) { Append(log, e); }
  }

  // ---- In every run, fresh ids or not ----

  predicate DistinctTxs(ts: seq<Token>) {
    forall i, j :: 0 <= i < j < |ts| ==> ts[i].txId != ts[j].txId
  }

  predicate TxsDecided(f: Facts) {
    forall t :: t in f.issued ==> t.txId in f.decided
  }

  lemma IssueKeepsTxsDistinct(f: Facts, p: Preview, t: Token)
    requires DistinctTxs(f.issued) && TxsDecided(f) && IsOpen(f, p) && t.txId == p.txId
    ensures DistinctTxs(f.issued + [t])
    ensures TxsDecided(f.(issued := f.issued + [t], decided := f.decided + {p.txId}))
  {
    var ts := f.issued + [t];
    forall i, j | 0 <= i < j < |ts| ensures ts[i].txId != ts[j].txId {
      assert ts[i] in f.issued;
    }
  }

  lemma StepKeepsTxsDistinct(f: Facts, seal: Preview -> Seal, s: Step)
    requires DistinctTxs(f.issued) && TxsDecided(f)
    ensures DistinctTxs(NextFacts(f, seal, s).issued) && TxsDecided(NextFacts(f, seal, s))
  {
    if s.Issue? {
      match LatestOpen(f, f.created, s.wanted) {
        case None =>
        case Some(p) =>
          LatestOpenIsOpen(f, f.created, s.wanted);
          IssueKeepsTxsDistinct(f, p, TokenFor(p, s.tokenId, seal(p), s.now));
      }
    }
  }

  /** No transaction is ever approved by two tokens. */
  lemma {:induction false} IssuedTxsDistinct(seal: Preview -> Seal, steps: seq<Step>)
    ensures DistinctTxs(FactsOf(RunLog(seal, steps)).issued)
    ensures TxsDecided(FactsOf(RunLog(seal, steps)))
    decreases |steps|
  {
    if steps != [] {
      var before, s := steps[..|steps| - 1], steps[|steps| - 1];
      IssuedTxsDistinct(seal, before);
      StepEffect(RunLog(seal, before), seal, s);
      StepKeepsTxsDistinct(FactsOf(RunLog(seal, before)), seal, s);
    }
  }

  /** However the log grows, a consumed token stays consumed. */
  lemma {:induction false} ConsumedForever(log: Log, more: Log)
    ensures FactsOf(log).consumed <= FactsOf(log + more).consumed
    decreases |more|
  {
    if more == [] {
      assert log + more == log;
    } else {
      var init := more[..|more| - 1];
      ConsumedForever(log, init);
      assert log + more == (log + init) + [more[|more| - 1]];
      Append(log + init, more[|more| - 1]);
    }
  }

  /** Once marked as used, a token validates for nothing, at no time, in any continuation of the log. */
  lemma UsedTokenNeverValidates(log: Log, tokenId: string, used: Capability, more: Log, seal: Preview -> Seal,
                                now: nat, capabilityId: string, targets: seq<string>)
    ensures !Validates(FactsOf(log + UseEvents(FactsOf(log), tokenId, used) + more), seal, now, tokenId, capabilityId,
            targets)
  {
    UseEffect(log, tokenId, used);
    ConsumedForever(log + UseEvents(FactsOf(log), tokenId, used), more);
  }

  // ---- The machine: previews that wait and tokens that live ----

  datatype Machine = Machine(waiting: seq<Preview>, live: seq<Token>)

  function LatestSelected(ps: seq<Preview>, wanted: Option<string>): Option<Preview> {
    if ps == [] then None
    else if Selects(wanted, ps[|ps| - 1]) then Some(ps[|ps| - 1])
    else LatestSelected(ps[..|ps| - 1], wanted)
  }

  function Without(ps: seq<Preview>, txId: string): seq<Preview> {
    if ps == [] then []
    else
      var rest := Without(ps[..|ps| - 1], txId);
      if ps[|ps| - 1].txId == txId then rest else rest + [ps[|ps| - 1]]
  }

  function Unused(ts: seq<Token>, tokenId: string): seq<Token> {
    if ts == [] then []
    else
      var rest := Unused(ts[..|ts| - 1], tokenId);
      if ts[|ts| - 1].tokenId == tokenId then rest else rest + [ts[|ts| - 1]]
  }

  function MachineStep(m: Machine, seal: Preview -> Seal, s: Step): Machine {
    match s
    case Create(p) => m.(waiting := m.waiting + [p])
    case Issue(wanted, tokenId, now) =>
      (match LatestSelected(m.waiting, wanted)
       case None => m
       case Some(p) => Machine(Without(m.waiting, p.txId), m.live + [TokenFor(p, tokenId, seal(p), now)]))
    case Use(tokenId, _) => m.(live := Unused(m.live, tokenId))
    case Record(_) => m
  }

  function MachineRun(seal: Preview -> Seal, steps: seq<Step>): Machine {
    if steps == [] then Machine([], [])
    else MachineStep(MachineRun(seal, steps[..|steps| - 1]), seal, steps[|steps| - 1])
  }

  function Waiting(ps: seq<Preview>, decided: set<string>): seq<Preview> {
    if ps == [] then []
    else
      var rest := Waiting(ps[..|ps| - 1], decided);
      if ps[|ps| - 1].txId in decided then rest else rest + [ps[|ps| - 1]]
  }

  function Live(ts: seq<Token>, consumed: set<string>): seq<Token> {
    if ts == [] then []
    else
      var rest := Live(ts[..|ts| - 1], consumed);
      if ts[|ts| - 1].tokenId in consumed then rest else rest + [ts[|ts| - 1]]
  }

  /** The machine that the log stands for. */
  function Abstract(f: Facts): Machine {
    Machine(Waiting(f.created, f.decided), Live(f.issued, f.consumed))
  }

  lemma {:induction false} LatestOpenIsLatestWaiting(f: Facts, ps: seq<Preview>, wanted: Option<string>)
    ensures LatestSelected(Waiting(ps, f.decided), wanted) == LatestOpen(f, ps, wanted)
    decreases |ps|
  {
    if ps != [] {
      var init, p := ps[..|ps| - 1], ps[|ps| - 1];
      LatestOpenIsLatestWaiting(f, init, wanted);
      var open := Waiting(init, f.decided);
      assert (open + [p])[..|open|] == open;
    }
  }

  lemma {:induction false} WithoutDecided(ps: seq<Preview>, decided: set<string>, txId: string)
    ensures Waiting(ps, decided + {txId}) == Without(Waiting(ps, decided), txId)
    decreases |ps|
  {
    if ps != [] {
      var init, p := ps[..|ps| - 1], ps[|ps| - 1];
      WithoutDecided(init, decided, txId);
      var open := Waiting(init, decided);
      assert (open + [p])[..|open|] == open;
    }
  }

  lemma {:induction false} UnusedConsumed(ts: seq<Token>, consumed: set<string>, tokenId: string)
    ensures Live(ts, consumed + {tokenId}) == Unused(Live(ts, consumed), tokenId)
    decreases |ts|
  {
    if ts != [] {
      var init, t := ts[..|ts| - 1], ts[|ts| - 1];
      UnusedConsumed(init, consumed, tokenId);
      var live := Live(init, consumed);
      assert (live + [t])[..|live|] == live;
    }
  }

  // ---- The invariant of runs with fresh ids ----

  predicate DistinctPreviews(ps: seq<Preview>) {
    forall i, j :: 0 <= i < j < |ps| ==> ps[i].txId != ps[j].txId && ps[i].previewId != ps[j].previewId
  }

  predicate DistinctTokens(ts: seq<Token>) {
    forall i, j :: 0 <= i < j < |ts| ==> ts[i].tokenId != ts[j].tokenId
  }

  predicate CreatedFor(ps: seq<Preview>, t: Token) {
    exists p :: p in ps && p.txId == t.txId && p.previewId == t.previewId
  }

  /** Every token belongs to a created preview; what is decided or closed is carried by a token. */
  ghost predicate Linked(f: Facts) {
    && (forall t :: t in f.issued ==> CreatedFor(f.created, t))
    && (forall tx :: tx in f.decided <==> exists t :: t in f.issued && t.txId == tx)
    && (forall id :: id in f.closedPreviews ==> exists t :: t in f.issued && t.previewId == id)
  }

  /** Token ids are distinct and not empty, and using a token has closed its transaction. */
  predicate TokensSound(f: Facts) {
    && DistinctTokens(f.issued)
    && (forall t :: t in f.issued ==> t.tokenId != "")
    && (forall t :: t in f.issued && t.tokenId in f.consumed ==> t.txId == "" || t.txId in f.closedTxs)
  }

  predicate AllApprovable(ps: seq<Preview>, seal: Preview -> Seal) {
    forall p :: p in ps ==> Approvable(seal(p))
  }

  /** A created preview has a scope; those that the runtime records always do (CreatedIsApprovable). */
  predicate Prepared(s: Step, seal: Preview -> Seal) {
    s.Create? ==> Approvable(seal(s.preview))
  }

  predicate AllPrepared(steps: seq<Step>, seal: Preview -> Seal) {
    forall s :: s in steps ==> Prepared(s, seal)
  }

  lemma CreateKeepsLinked(f: Facts, p: Preview)
    requires Linked(f)
    ensures Linked(f.(created := f.created + [p]))
  {
    forall t | t in f.issued ensures CreatedFor(f.created + [p], t) {
      var q :| q in f.created && q.txId == t.txId && q.previewId == t.previewId;
      assert q in f.created + [p];
    }
  }

  lemma IssueKeepsLinked(f: Facts, p: Preview, t: Token)
    requires Linked(f) && p in f.created && t.txId == p.txId && t.previewId == p.previewId
    ensures Linked(f.(issued := f.issued + [t], decided := f.decided + {p.txId}))
  {
    var issued := f.issued + [t];
    assert t in issued && forall u :: u in f.issued ==> u in issued;
  }

  lemma StepKeepsLinked(f: Facts, seal: Preview -> Seal, s: Step)
    requires Linked(f)
    ensures Linked(NextFacts(f, seal, s))
  {
    match s
    case Create(p) => CreateKeepsLinked(f, p);
    case Issue(wanted, tokenId, now) =>
      match LatestOpen(f, f.created, wanted) {
        case None =>
        case Some(p) =>
          LatestOpenIsOpen(f, f.created, wanted);
          IssueKeepsLinked(f, p, TokenFor(p, tokenId, seal(p), now));
      }
    case _ =>
  }

  lemma CreateKeepsInvariant(f: Facts, p: Preview)
    requires DistinctPreviews(f.created) && Linked(f) && TokensSound(f)
    requires forall q :: q in f.created ==> q.previewId != p.previewId && q.txId != p.txId
    ensures var g := f.(created := f.created + [p]);
            DistinctPreviews(g.created) && Linked(g) && TokensSound(g)
  {
    var g := f.(created := f.created + [p]);
    forall i, j | 0 <= i < j < |g.created|
      ensures g.created[i].txId != g.created[j].txId && g.created[i].previewId != g.created[j].previewId
    {
      assert g.created[i] in f.created;
    }
    CreateKeepsLinked(f, p);
  }

  lemma IssueKeepsInvariant(f: Facts, p: Preview, t: Token)
    requires Linked(f) && TokensSound(f)
    requires p in f.created && t.txId == p.txId && t.previewId == p.previewId
    requires t.tokenId != "" && t.tokenId !in f.consumed && forall u :: u in f.issued ==> u.tokenId != t.tokenId
    ensures var g := f.(issued := f.issued + [t], decided := f.decided + {p.txId});
            Linked(g) && TokensSound(g)
  {
    var g := f.(issued := f.issued + [t], decided := f.decided + {p.txId});
    IssueKeepsLinked(f, p, t);
    forall i, j | 0 <= i < j < |g.issued| ensures g.issued[i].tokenId != g.issued[j].tokenId {
      assert g.issued[i] in f.issued;
    }
  }

  lemma SameToken(ts: seq<Token>, t: Token, u: Token)
    requires DistinctTokens(ts) && t in ts && u in ts && t.tokenId == u.tokenId
    ensures t == u
  {
    var i :| 0 <= i < |ts| && ts[i] == t;
    var j :| 0 <= j < |ts| && ts[j] == u;
    assert !(i < j) && !(j < i);
  }

  lemma UseKeepsInvariant(f: Facts, tokenId: string)
    requires Linked(f) && TokensSound(f)
    ensures Linked(UseFacts(f, tokenId)) && TokensSound(UseFacts(f, tokenId))
  {
    var g := UseFacts(f, tokenId);
    forall t | t in g.issued && t.tokenId in g.consumed ensures t.txId == "" || t.txId in g.closedTxs {
      if t.tokenId == tokenId {
        SameToken(f.issued, t, LastIssued(f.issued, tokenId).value);
      }
    }
  }

  ghost predicate Invariant(f: Facts, seal: Preview -> Seal) {
    DistinctPreviews(f.created) && AllApprovable(f.created, seal) && Linked(f) && TokensSound(f)
  }

  lemma StepKeepsInvariant(f: Facts, seal: Preview -> Seal, s: Step)
    requires Invariant(f, seal) && FreshStep(f, s) && Prepared(s, seal)
    ensures Invariant(NextFacts(f, seal, s), seal)
  {
    match s
    case Create(p) => CreateKeepsInvariant(f, p);
    case Issue(wanted, tokenId, now) =>
      match LatestOpen(f, f.created, wanted) {
        case None =>
        case Some(p) =>
          LatestOpenIsOpen(f, f.created, wanted);
          IssueKeepsInvariant(f, p, TokenFor(p, tokenId, seal(p), now));
      }
    case Use(tokenId, _) => UseKeepsInvariant(f, tokenId);
    case Record(_) =>
  }

  /** In every run, fresh ids or not. */
  lemma {:induction false} RunIsLinked(seal: Preview -> Seal, steps: seq<Step>)
    ensures Linked(FactsOf(RunLog(seal, steps)))
    decreases |steps|
  {
    if steps != [] {
      var before, s := steps[..|steps| - 1], steps[|steps| - 1];
      RunIsLinked(seal, before);
      StepEffect(RunLog(seal, before), seal, s);
      StepKeepsLinked(FactsOf(RunLog(seal, before)), seal, s);
    }
  }

  lemma {:induction false} FreshRunKeepsInvariant(seal: Preview -> Seal, steps: seq<Step>)
    requires FreshRun(seal, steps) && AllPrepared(steps, seal)
    ensures Invariant(FactsOf(RunLog(seal, steps)), seal)
    decreases |steps|
  {
    if steps != [] {
      var before, s := steps[..|steps| - 1], steps[|steps| - 1];
      FreshRunKeepsInvariant(seal, before);
      StepEffect(RunLog(seal, before), seal, s);
      StepKeepsInvariant(FactsOf(RunLog(seal, before)), seal, s);
    }
  }

  // ---- A created preview can always be approved ----

  /** An operation as the runtime records it. */
  predicate Recorded(op: Operation) {
    && !IsBlank(op.capabilityId) && op.targetPaths != []
    && forall path :: path in op.targetPaths ==> path != "" && path != WILDCARD && Clean(path) == path
  }

  predicate AllRecorded(ops: seq<Operation>) {
    forall op :: op in ops ==> Recorded(op)
  }

  lemma ScopeIsClean(items: seq<string>)
    requires NormalizePreviewScope(items).Ok?
    ensures var kept := NormalizePreviewScope(items).value;
            kept != [] && forall x :: x in kept ==> x != "" && x != WILDCARD && Clean(x) == x
  {
    var values := Cleaned(items);
    forall x | x in Kept(values) ensures x != "" && x != WILDCARD && Clean(x) == x {
      var k :| 0 <= k < |values| && values[k] == x;
      CleanIdempotent(items[k]);
    }
  }

  lemma {:induction false} NormalizedAreRecorded(ops: seq<Operation>)
    requires NormalizeOperations(ops).Ok?
    ensures |NormalizeOperations(ops).value| == |ops|
    ensures AllRecorded(NormalizeOperations(ops).value)
  {
    if ops != [] {
      NormalizedAreRecorded(ops[1..]);
      ScopeIsClean(ops[0].targetPaths);
    }
  }

  lemma {:induction false} AllPathsMembers(ops: seq<Operation>, path: string)
    ensures path in AllPaths(ops) <==> exists op :: op in ops && path in op.targetPaths
  {
    if ops != [] {
      AllPathsMembers(ops[1..], path);
      assert ops == [ops[0]] + ops[1..];
    }
  }

  lemma CleanedClean(items: seq<string>)
    requires forall x :: x in items ==> Clean(x) == x
    ensures Cleaned(items) == items
  {
  }

  /** The path scope of a token is exactly the target paths of its preview's operations. */
  lemma TargetPathsMeaning(ops: seq<Operation>, path: string)
    requires AllRecorded(ops)
    ensures path in TargetPaths(ops) <==> exists op :: op in ops && path in op.targetPaths
  {
    var paths := AllPaths(ops);
    forall x | x in paths ensures x != "" && x != WILDCARD && Clean(x) == x {
      AllPathsMembers(ops, x);
    }
    CleanedClean(paths);
    AllPathsMembers(ops, path);
  }

  lemma {:induction false} CapabilityIdsMeaning(ops: seq<Operation>, id: string)
    ensures id in CapabilityIds(ops) <==> exists op :: op in ops && op.capabilityId == id
    decreases |ops|
  {
    if ops != [] {
      var init := ops[..|ops| - 1];
      CapabilityIdsMeaning(init, id);
      assert ops == init + [ops[|ops| - 1]];
    }
  }

  /** Approving a preview that the runtime created never fails on an empty scope. */
  lemma CreatedIsApprovable(ops: seq<Operation>, previewId: string, txId: string, hash: Preview -> string)
    requires CreatedPreview(ops, previewId, txId).Ok?
    ensures var p := CreatedPreview(ops, previewId, txId).value;
            AllRecorded(p.operations) && Prepared(Create(p), SealOf(hash))
  {
    var p := CreatedPreview(ops, previewId, txId).value;
    hide Clean, CapabilityIds, TargetPaths;
    NormalizedAreRecorded(ops);
    assert Recorded(p.operations[0]);
    CapabilityIdsMeaning(p.operations, p.operations[0].capabilityId);
    TargetPathsMeaning(p.operations, p.operations[0].targetPaths[0]);
  }

  // ---- The log refines the machine ----

  lemma {:induction false} UnchangedByFresh(ts: seq<Token>, consumed: set<string>, t: Token)
    requires t.tokenId !in consumed
    ensures Live(ts + [t], consumed) == Live(ts, consumed) + [t]
  {
    assert (ts + [t])[..|ts|] == ts;
  }

  lemma WaitingMore(ps: seq<Preview>, decided: set<string>, p: Preview)
    requires p.txId !in decided
    ensures Waiting(ps + [p], decided) == Waiting(ps, decided) + [p]
  {
    assert (ps + [p])[..|ps|] == ps;
  }

  /** One step of the runtime is the same step of the machine, when the invariant holds and the step's ids are fresh. */
  lemma StepRefines(f: Facts, seal: Preview -> Seal, s: Step)
    requires Invariant(f, seal) && FreshStep(f, s) && Prepared(s, seal)
    ensures Abstract(NextFacts(f, seal, s)) == MachineStep(Abstract(f), seal, s)
  {
    match s
    case Create(p) =>
      FreshIsOpen(f, p.txId);
      WaitingMore(f.created, f.decided, p);
    case Issue(wanted, tokenId, now) =>
      LatestOpenIsLatestWaiting(f, f.created, wanted);
      match LatestOpen(f, f.created, wanted) {
        case None =>
        case Some(p) =>
          LatestOpenIsOpen(f, f.created, wanted);
          WithoutDecided(f.created, f.decided, p.txId);
          UnchangedByFresh(f.issued, f.consumed, TokenFor(p, tokenId, seal(p), now));
      }
    case Use(tokenId, _) =>
      UnusedConsumed(f.issued, f.consumed, tokenId);
      UseDecidesNothing(f, tokenId);
    case Record(_) =>
  }

  lemma FreshIsOpen(f: Facts, txId: string)
    requires Linked(f) && forall p :: p in f.created ==> p.txId != txId
    ensures txId !in f.decided
  {
    forall t | t in f.issued ensures t.txId != txId {
      var p :| p in f.created && p.txId == t.txId && p.previewId == t.previewId;
    }
  }

  lemma UseDecidesNothing(f: Facts, tokenId: string)
    requires Linked(f)
    ensures UseFacts(f, tokenId).decided == f.decided
  {
  }

  /** In every run with fresh ids, the log stands for the machine's state. */
  lemma {:induction false} RunRefinesMachine(seal: Preview -> Seal, steps: seq<Step>)
    requires FreshRun(seal, steps) && AllPrepared(steps, seal)
    ensures Abstract(FactsOf(RunLog(seal, steps))) == MachineRun(seal, steps)
    decreases |steps|
  {
    if steps != [] {
      var before, s := steps[..|steps| - 1], steps[|steps| - 1];
      RunRefinesMachine(seal, before);
      FreshRunKeepsInvariant(seal, before);
      StepEffect(RunLog(seal, before), seal, s);
      StepRefines(FactsOf(RunLog(seal, before)), seal, s);
    }
  }

  // ---- What a token permits ----

  /** t was issued for p. */
  predicate Grants(p: Preview, t: Token, seal: Preview -> Seal) {
    var s := seal(p);
    t == Token(t.tokenId, p.txId, p.previewId, s.operationScope, s.pathScope, s.opsHash, t.expiresAtMs)
  }

  predicate GrantedBy(ps: seq<Preview>, t: Token, seal: Preview -> Seal) {
    exists p :: p in ps && Grants(p, t, seal)
  }

  predicate Provenance(f: Facts, seal: Preview -> Seal) {
    && (forall t :: t in f.issued ==> GrantedBy(f.created, t, seal))
  }

  lemma MorePreviewsGrant(ps: seq<Preview>, p: Preview, t: Token, seal: Preview -> Seal)
    requires GrantedBy(ps, t, seal)
    ensures GrantedBy(ps + [p], t, seal)
  {
    var q :| q in ps && Grants(q, t, seal);
    assert q in ps + [p];
  }

  lemma TokenForGrants(ps: seq<Preview>, p: Preview, tokenId: string, seal: Preview -> Seal, now: nat)
    requires p in ps
    ensures GrantedBy(ps, TokenFor(p, tokenId, seal(p), now), seal)
  {
    assert Grants(p, TokenFor(p, tokenId, seal(p), now), seal);
  }

  lemma StepKeepsProvenance(f: Facts, seal: Preview -> Seal, s: Step)
    requires Provenance(f, seal)
    ensures Provenance(NextFacts(f, seal, s), seal)
  {
    match s
    case Create(p) =>
      forall t | t in f.issued ensures GrantedBy(f.created + [p], t, seal) {
        MorePreviewsGrant(f.created, p, t, seal);
      }
    case Issue(wanted, tokenId, now) =>
      match LatestOpen(f, f.created, wanted) {
        case None =>
        case Some(p) =>
          LatestOpenIsOpen(f, f.created, wanted);
          TokenForGrants(f.created, p, tokenId, seal, now);
      }
    case _ =>
  }

  lemma {:induction false} RunKeepsProvenance(seal: Preview -> Seal, steps: seq<Step>)
    ensures Provenance(FactsOf(RunLog(seal, steps)), seal)
    decreases |steps|
  {
    if steps != [] {
      var before, s := steps[..|steps| - 1], steps[|steps| - 1];
      RunKeepsProvenance(seal, before);
      StepEffect(RunLog(seal, before), seal, s);
      StepKeepsProvenance(FactsOf(RunLog(seal, before)), seal, s);
    }
  }

  predicate AllowsOperation(p: Preview, capabilityId: string) {
    exists op :: op in p.operations && Slashed(op.capabilityId) == capabilityId
  }

  /** The target is one of the preview's paths, with slashes normalised, or lies below one. */
  predicate AllowsTarget(p: Preview, target: string) {
    exists op :: op in p.operations && exists path :: path in op.targetPaths && UnderScope(path, Slashed(target))
  }

  lemma OperationScopeMeaning(p: Preview, capabilityId: string)
    requires AllRecorded(p.operations)
    ensures OperationInScope(CapabilityIds(p.operations), capabilityId) <==> AllowsOperation(p, capabilityId)
  {
    forall id ensures id in CapabilityIds(p.operations) <==> exists op :: op in p.operations && op.capabilityId == id {
      CapabilityIdsMeaning(p.operations, id);
    }
    if AllowsOperation(p, capabilityId) {
      var op :| op in p.operations && Slashed(op.capabilityId) == capabilityId;
      assert Recorded(op) && op.capabilityId in CapabilityIds(p.operations);
    }
  }

  lemma CleanPath(path: string)
    requires path != "" && Clean(path) == path
    ensures !IsBlank(path) && Slashed(path) == path
  {
    assert !IsWhitespace(path[0]);
    SlashedKeeps(path);
    TrimKeeps(Slashed(path), '\\');
  }

  lemma PathScopeMeaning(p: Preview, target: string)
    requires AllRecorded(p.operations)
    ensures TargetInScope(TargetPaths(p.operations), target) <==> AllowsTarget(p, target)
  {
    var scope := TargetPaths(p.operations);
    if TargetInScope(scope, target) {
      var s :| s in scope && !IsBlank(s) && UnderScope(Slashed(s), Slashed(target));
      TargetPathsMeaning(p.operations, s);
      var op :| op in p.operations && s in op.targetPaths;
      assert Recorded(op);
      CleanPath(s);
    }
    if AllowsTarget(p, target) {
      var op :| op in p.operations && exists path :: path in op.targetPaths && UnderScope(path, Slashed(target));
      var path :| path in op.targetPaths && UnderScope(path, Slashed(target));
      assert Recorded(op);
      CleanPath(path);
      TargetPathsMeaning(p.operations, path);
    }
  }

  /** The preview allows this call, whatever its operations pair with which paths. */
  predicate Allows(p: Preview, capabilityId: string, targets: seq<string>) {
    AllowsOperation(p, capabilityId) && forall i :: 0 <= i < |targets| ==> AllowsTarget(p, targets[i])
  }

  /** The previews of a run are those that its steps create. */
  predicate AllFromRuntime(steps: seq<Step>) {
    forall s :: s in steps && s.Create? ==> AllRecorded(s.preview.operations)
  }

  lemma {:induction false} CreatedByRun(seal: Preview -> Seal, steps: seq<Step>)
    requires AllFromRuntime(steps)
    ensures forall p :: p in FactsOf(RunLog(seal, steps)).created ==> AllRecorded(p.operations)
    decreases |steps|
  {
    hide Recorded;
    if steps != [] {
      var before, s := steps[..|steps| - 1], steps[|steps| - 1];
      CreatedByRun(seal, before);
      StepEffect(RunLog(seal, before), seal, s);
    }
  }

  lemma ScopeMeaning(p: Preview, t: Token, hash: Preview -> string, capabilityId: string, targets: seq<string>)
    requires AllRecorded(p.operations) && Grants(p, t, SealOf(hash))
    ensures InScope(t, capabilityId, targets) <==> Allows(p, capabilityId, targets)
  {
    OperationScopeMeaning(p, capabilityId);
    forall i | 0 <= i < |targets|
      ensures TargetInScope(t.pathScope, targets[i]) <==> AllowsTarget(p, targets[i])
    {
      PathScopeMeaning(p, targets[i]);
    }
  }

  /** What a token permits: some preview it was issued for allows the call. */
  predicate Permits(created: seq<Preview>, t: Token, seal: Preview -> Seal, capabilityId: string, targets: seq<string>)
  {
    exists p :: p in created && Grants(p, t, seal) && Allows(p, capabilityId, targets)
  }

  lemma PermitsIff(created: seq<Preview>, t: Token, hash: Preview -> string, capabilityId: string, targets: seq<string>)
    requires GrantedBy(created, t, SealOf(hash)) && forall p :: p in created ==> AllRecorded(p.operations)
    ensures HashMatches(created, SealOf(hash), t)
    ensures InScope(t, capabilityId, targets) <==> Permits(created, t, SealOf(hash), capabilityId, targets)
  {
    var q :| q in created && Grants(q, t, SealOf(hash));
    forall p | p in created && Grants(p, t, SealOf(hash))
      ensures InScope(t, capabilityId, targets) <==> Allows(p, capabilityId, targets)
    {
      ScopeMeaning(p, t, hash, capabilityId, targets);
    }
  }

  /**
    * In every run: a token validates exactly when its id is not blank, it was issued for a created preview, it is
    * neither used nor expired, and that preview allows the call. The hash check never refuses.
    */
  lemma ValidatesIff(hash: Preview -> string, steps: seq<Step>, now: nat, tokenId: string, capabilityId: string,
                     targets: seq<string>)
    requires AllFromRuntime(steps)
    ensures var f := FactsOf(RunLog(SealOf(hash), steps));
            Validates(f, SealOf(hash), now, tokenId, capabilityId, targets) <==>
            (!IsBlank(tokenId) && tokenId !in f.consumed
             && LastIssued(f.issued, tokenId).Some?
             && now <= LastIssued(f.issued, tokenId).value.expiresAtMs
             && Permits(f.created, LastIssued(f.issued, tokenId).value, SealOf(hash), capabilityId, targets))
  {
    var f := FactsOf(RunLog(SealOf(hash), steps));
    RunKeepsProvenance(SealOf(hash), steps);
    CreatedByRun(SealOf(hash), steps);
    if LastIssued(f.issued, tokenId).Some? {
      PermitsIff(f.created, LastIssued(f.issued, tokenId).value, hash, capabilityId, targets);
    }
  }
}
