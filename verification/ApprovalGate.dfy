/** The closure gate and the approval runtime read the same log in different ways; here is where they agree. */
module ApprovalGate {
  import opened Text
  import opened ProcessTruth
  import opened Approval
  import opened ApprovalRuns
  import opened ClosureGate

  lemma {:induction false} WaitingMeaning(ps: seq<Preview>, decided: set<string>, p: Preview)
    ensures p in Waiting(ps, decided) <==> p in ps && p.txId !in decided
    decreases |ps|
  {
    if ps != [] {
      WaitingMeaning(ps[..|ps| - 1], decided, p);
      assert ps == ps[..|ps| - 1] + [ps[|ps| - 1]];
    }
  }

  lemma SamePreview(ps: seq<Preview>, p: Preview, q: Preview)
    requires DistinctPreviews(ps) && p in ps && q in ps && (p.previewId == q.previewId || p.txId == q.txId)
    ensures p == q
  {
    var i :| 0 <= i < |ps| && ps[i] == p;
    var j :| 0 <= j < |ps| && ps[j] == q;
    assert !(i < j) && !(j < i);
  }

  lemma CarriedIffDecided(f: Facts, seal: Preview -> Seal, p: Preview)
    requires Invariant(f, seal) && p in f.created
    ensures p.txId in f.decided <==> exists t :: t in f.issued && t.previewId == p.previewId
    ensures p.previewId in f.closedPreviews ==> p.txId in f.decided
  {
    forall t | t in f.issued ensures t.txId == p.txId <==> t.previewId == p.previewId {
      assert CreatedFor(f.created, t);
      var q :| q in f.created && q.txId == t.txId && q.previewId == t.previewId;
      if q.txId == p.txId || q.previewId == p.previewId {
        SamePreview(f.created, p, q);
      }
    }
  }

  lemma PendingApprovalsAreWaiting(f: Facts, seal: Preview -> Seal, id: string)
    requires Invariant(f, seal)
    ensures id in PendingApprovals(f) <==> exists p :: p in Abstract(f).waiting && p.previewId == id
  {
    forall p | p in f.created
      ensures p in Abstract(f).waiting <==> p.previewId in PendingApprovals(f)
    {
      WaitingMeaning(f.created, f.decided, p);
      CarriedIffDecided(f, seal, p);
    }
    forall p | p in Abstract(f).waiting ensures p in f.created {
      WaitingMeaning(f.created, f.decided, p);
    }
  }

  lemma {:induction false} UnfinishedAreLive(f: Facts, ts: seq<Token>)
    requires TokensSound(f) && forall t :: t in ts ==> t in f.issued
    ensures UnfinishedTokens(f, ts) == Live(ts, f.consumed)
    decreases |ts|
  {
    if ts != [] {
      UnfinishedAreLive(f, ts[..|ts| - 1]);
    }
  }

  /**
    * In every run with fresh ids, the approvals that the gate finds pending are those of the previews created and not
    * yet approved, and the tokens it finds unfinished are those issued and not yet used, in order of issue.
    */
  lemma GateReadsTheMachine(seal: Preview -> Seal, steps: seq<Step>, f: Facts, machine: Machine)
    requires FreshRun(seal, steps) && AllPrepared(steps, seal)
    requires f == FactsOf(RunLog(seal, steps)) && machine == MachineRun(seal, steps)
    ensures forall id :: id in PendingApprovals(f) <==> exists p :: p in machine.waiting && p.previewId == id
    ensures UnfinishedTokens(f, f.issued) == machine.live
  {
    FreshRunKeepsInvariant(seal, steps);
    RunRefinesMachine(seal, steps);
    forall id ensures id in PendingApprovals(f) <==> exists p :: p in machine.waiting && p.previewId == id {
      PendingApprovalsAreWaiting(f, seal, id);
    }
    UnfinishedAreLive(f, f.issued);
  }

  lemma OneMoreStep(seal: Preview -> Seal, steps: seq<Step>, s: Step)
    ensures FactsOf(RunLog(seal, steps + [s])) == NextFacts(FactsOf(RunLog(seal, steps)), seal, s)
  {
    assert (steps + [s])[..|steps|] == steps;
    StepEffect(RunLog(seal, steps), seal, s);
  }

  // ---- Agreement in every run, fresh ids or not ----

  predicate Carried(f: Facts, previewId: string) {
    exists t :: t in f.issued && t.previewId == previewId
  }

  predicate IsCreated(f: Facts, previewId: string) {
    exists p :: p in f.created && p.previewId == previewId
  }

  /** A preview under this id can still be approved. */
  predicate Awaits(f: Facts, previewId: string) {
    exists p :: p in f.created && p.previewId == previewId && IsOpen(f, p)
  }

  /** The gate finds pending exactly what the runtime can still approve. */
  ghost predicate Agree(f: Facts) {
    forall id: string :: id in PendingApprovals(f) <==> Awaits(f, id)
  }

  lemma PendingMeaning(f: Facts, id: string)
    requires Linked(f)
    ensures id in PendingApprovals(f) <==> IsCreated(f, id) && !Carried(f, id)
  {
  }

  /** Gate and runtime agree exactly when the ids carried by tokens are those of which no preview is open. */
  lemma AgreeIff(f: Facts)
    requires Linked(f)
    ensures Agree(f) <==> forall p :: p in f.created ==> (Carried(f, p.previewId) <==> !Awaits(f, p.previewId))
  {
    forall id: string ensures id in PendingApprovals(f) <==> IsCreated(f, id) && !Carried(f, id) {
      PendingMeaning(f, id);
    }
    if forall p :: p in f.created ==> (Carried(f, p.previewId) <==> !Awaits(f, p.previewId)) {
      forall id: string ensures id in PendingApprovals(f) <==> Awaits(f, id) {
        if IsCreated(f, id) {
          var p :| p in f.created && p.previewId == id;
        }
      }
    }
    if Agree(f) {
      forall p | p in f.created ensures Carried(f, p.previewId) <==> !Awaits(f, p.previewId) {
        assert p.previewId in PendingApprovals(f) <==> Awaits(f, p.previewId);
      }
    }
  }

  /** In every run, whatever its ids. */
  lemma RunAgreesIff(seal: Preview -> Seal, steps: seq<Step>, f: Facts)
    requires f == FactsOf(RunLog(seal, steps))
    ensures Agree(f) <==> forall p :: p in f.created ==> (Carried(f, p.previewId) <==> !Awaits(f, p.previewId))
  {
    RunIsLinked(seal, steps);
    AgreeIff(f);
  }

  /** In particular they agree when a created preview and an approved one share both their ids or neither. */
  lemma AgreeIfIdsMatch(f: Facts)
    requires Linked(f)
    requires forall p, t :: p in f.created && t in f.issued ==> (p.previewId == t.previewId <==> p.txId == t.txId)
    ensures Agree(f)
  {
    forall p | p in f.created ensures Carried(f, p.previewId) <==> !Awaits(f, p.previewId) {
      if Awaits(f, p.previewId) {
        var q :| q in f.created && q.previewId == p.previewId && IsOpen(f, q);
        assert q.txId !in f.decided;
      } else {
        assert !IsOpen(f, p);
      }
    }
    AgreeIff(f);
  }

  // ---- Which steps keep the agreement ----

  /** Approving p leaves no other preview of its id open, and takes no id's last open preview without carrying it. */
  predicate ApprovesCleanly(f: Facts, p: Preview) {
    && (forall q :: q in f.created && q.previewId == p.previewId ==> q.txId == p.txId || !IsOpen(f, q))
    && (forall q :: q in f.created && q.txId == p.txId && q.previewId != p.previewId && !Carried(f, q.previewId) ==>
          AwaitsOther(f, q.previewId, p.txId))
  }

  predicate AwaitsOther(f: Facts, previewId: string, txId: string) {
    exists r :: r in f.created && r.previewId == previewId && r.txId != txId && IsOpen(f, r)
  }

  /** What must hold before a step for gate and runtime to agree after it. */
  predicate KeepsAgreement(f: Facts, seal: Preview -> Seal, s: Step) {
    match s
    case Create(q) => if q.txId in f.decided then IsCreated(f, q.previewId) else !Carried(f, q.previewId)
    case Issue(wanted, _, _) =>
      (match LatestOpen(f, f.created, wanted)
       case None => true
       case Some(p) => Approvable(seal(p)) ==> ApprovesCleanly(f, p))
    case _ => true
  }

  /** Agreement about one id, once the log is linked. */
  predicate AgreeOn(f: Facts, id: string) {
    IsCreated(f, id) && !Carried(f, id) <==> Awaits(f, id)
  }

  lemma AgreeIdById(f: Facts)
    requires Linked(f)
    ensures Agree(f) <==> forall id: string :: AgreeOn(f, id)
  {
    forall id: string ensures id in PendingApprovals(f) <==> IsCreated(f, id) && !Carried(f, id) {
      PendingMeaning(f, id);
    }
    if Agree(f) {
      forall id: string ensures AgreeOn(f, id) {
        assert id in PendingApprovals(f) <==> Awaits(f, id);
      }
    }
    if forall id: string :: AgreeOn(f, id) {
      forall id: string ensures id in PendingApprovals(f) <==> Awaits(f, id) {
        assert AgreeOn(f, id);
      }
    }
  }

  function AfterCreate(f: Facts, q: Preview): Facts {
    f.(created := f.created + [q])
  }

  lemma CreateSeen(f: Facts, q: Preview, id: string)
    ensures var g := AfterCreate(f, q);
            && (IsCreated(g, id) <==> IsCreated(f, id) || id == q.previewId)
            && (Carried(g, id) <==> Carried(f, id))
            && (Awaits(g, id) <==> Awaits(f, id) || (id == q.previewId && IsOpen(f, q)))
  {
    var g := AfterCreate(f, q);
    assert q in g.created && forall p :: p in f.created ==> p in g.created;
    if Awaits(g, id) {
      var p :| p in g.created && p.previewId == id && IsOpen(g, p);
      assert p in f.created || p == q;
    }
    if Awaits(f, id) {
      var p :| p in f.created && p.previewId == id && IsOpen(f, p);
      assert IsOpen(g, p);
    }
    if IsOpen(f, q) { assert IsOpen(g, q); }
  }

  lemma CreateAgreesOn(f: Facts, q: Preview, id: string)
    requires Linked(f) && AgreeOn(f, id)
    ensures id != q.previewId ==> AgreeOn(AfterCreate(f, q), id)
    ensures id == q.previewId ==>
              (AgreeOn(AfterCreate(f, q), id) <==> if q.txId in f.decided then IsCreated(f, id) else !Carried(f, id))
  {
    CreateSeen(f, q, id);
    if Carried(f, id) { CarriedIsCreated(f, id); }
  }

  lemma CreateAgreesIff(f: Facts, q: Preview)
    requires Linked(f) && Agree(f)
    ensures Agree(AfterCreate(f, q)) <==>
            if q.txId in f.decided then IsCreated(f, q.previewId) else !Carried(f, q.previewId)
  {
    CreateKeepsLinked(f, q);
    AgreeIdById(f);
    AgreeIdById(AfterCreate(f, q));
    forall id: string
      ensures id != q.previewId ==> AgreeOn(AfterCreate(f, q), id)
      ensures id == q.previewId ==>
                (AgreeOn(AfterCreate(f, q), id) <==> if q.txId in f.decided then IsCreated(f, id) else !Carried(f, id))
    {
      assert AgreeOn(f, id);
      CreateAgreesOn(f, q, id);
    }
  }

  lemma CarriedIsCreated(f: Facts, id: string)
    requires Linked(f) && Carried(f, id)
    ensures IsCreated(f, id)
  {
    var t :| t in f.issued && t.previewId == id;
    assert CreatedFor(f.created, t);
  }

  function AfterApproval(f: Facts, p: Preview, t: Token): Facts {
    f.(issued := f.issued + [t], decided := f.decided + {p.txId})
  }

  lemma ApprovalSeen(f: Facts, p: Preview, t: Token, id: string)
    requires t.previewId == p.previewId
    ensures var g := AfterApproval(f, p, t);
            && (IsCreated(g, id) <==> IsCreated(f, id))
            && (Carried(g, id) <==> Carried(f, id) || id == p.previewId)
            && (Awaits(g, id) <==> AwaitsOther(f, id, p.txId))
  {
    var g := AfterApproval(f, p, t);
    assert t in g.issued && forall u :: u in f.issued ==> u in g.issued;
    if AwaitsOther(f, id, p.txId) {
      var r :| r in f.created && r.previewId == id && r.txId != p.txId && IsOpen(f, r);
      assert IsOpen(g, r);
    }
    if Awaits(g, id) {
      var r :| r in g.created && r.previewId == id && IsOpen(g, r);
      assert IsOpen(f, r);
    }
  }

  /** What approving p does to one id: its own must await nothing else, another not carried must await something
      else. */
  predicate ApprovesCleanlyOn(f: Facts, p: Preview, id: string) {
    if id == p.previewId then !AwaitsOther(f, id, p.txId)
    else IsCreated(f, id) && !Carried(f, id) ==> AwaitsOther(f, id, p.txId)
  }

  lemma ApprovalAgreesOn(f: Facts, p: Preview, t: Token, id: string)
    requires Linked(f) && AgreeOn(f, id) && p in f.created && t.previewId == p.previewId
    ensures AgreeOn(AfterApproval(f, p, t), id) <==> ApprovesCleanlyOn(f, p, id)
  {
    ApprovalSeen(f, p, t, id);
    if AwaitsOther(f, id, p.txId) {
      var r :| r in f.created && r.previewId == id && r.txId != p.txId && IsOpen(f, r);
      assert Awaits(f, id) && IsCreated(f, id);
    }
  }

  lemma ApprovesCleanlyIdById(f: Facts, p: Preview)
    requires Linked(f) && p in f.created && forall id: string :: AgreeOn(f, id)
    ensures ApprovesCleanly(f, p) <==> forall id: string :: ApprovesCleanlyOn(f, p, id)
  {
    if ApprovesCleanly(f, p) {
      forall id: string ensures ApprovesCleanlyOn(f, p, id) {
        CleanOn(f, p, id);
      }
    }
    if forall id: string :: ApprovesCleanlyOn(f, p, id) {
      assert ApprovesCleanlyOn(f, p, p.previewId);
      forall q | q in f.created && q.txId == p.txId && q.previewId != p.previewId && !Carried(f, q.previewId)
        ensures AwaitsOther(f, q.previewId, p.txId)
      {
        assert ApprovesCleanlyOn(f, p, q.previewId);
      }
      forall q | q in f.created && q.previewId == p.previewId ensures q.txId == p.txId || !IsOpen(f, q) {
        assert !AwaitsOther(f, p.previewId, p.txId);
      }
    }
  }

  lemma CleanOn(f: Facts, p: Preview, id: string)
    requires ApprovesCleanly(f, p) && AgreeOn(f, id)
    ensures ApprovesCleanlyOn(f, p, id)
  {
    if id != p.previewId && IsCreated(f, id) && !Carried(f, id) {
      var q :| q in f.created && q.previewId == id && IsOpen(f, q);
      if q.txId != p.txId {
        assert AwaitsOther(f, id, p.txId);
      }
    }
  }

  lemma ApprovalAgreesIff(f: Facts, p: Preview, t: Token)
    requires Linked(f) && Agree(f) && p in f.created && t.txId == p.txId && t.previewId == p.previewId
    ensures Agree(AfterApproval(f, p, t)) <==> ApprovesCleanly(f, p)
  {
    IssueKeepsLinked(f, p, t);
    AgreeIdById(f);
    AgreeIdById(AfterApproval(f, p, t));
    ApprovesCleanlyIdById(f, p);
    forall id: string ensures AgreeOn(AfterApproval(f, p, t), id) <==> ApprovesCleanlyOn(f, p, id) {
      assert AgreeOn(f, id);
      ApprovalAgreesOn(f, p, t, id);
    }
  }

  lemma AgreementStepIff(f: Facts, seal: Preview -> Seal, s: Step)
    requires Linked(f) && Agree(f)
    ensures Agree(NextFacts(f, seal, s)) <==> KeepsAgreement(f, seal, s)
  {
    match s
    case Create(q) => CreateAgreesIff(f, q);
    case Issue(wanted, tokenId, now) =>
      match LatestOpen(f, f.created, wanted) {
        case None =>
        case Some(p) =>
          LatestOpenIsOpen(f, f.created, wanted);
          ApprovalAgreesIff(f, p, TokenFor(p, tokenId, seal(p), now));
      }
    case Use(tokenId, _) => UseAgrees(f, tokenId);
    case Record(_) =>
  }

  lemma UseSeen(f: Facts, tokenId: string, id: string)
    requires Linked(f)
    ensures var g := UseFacts(f, tokenId);
            && (id in PendingApprovals(g) <==> id in PendingApprovals(f))
            && (Awaits(g, id) <==> Awaits(f, id))
  {
    var g := UseFacts(f, tokenId);
    UseDecidesNothing(f, tokenId);
    PendingMeaning(f, id);
    PendingMeaning(g, id);
    assert Carried(g, id) <==> Carried(f, id);
  }

  lemma UseAgrees(f: Facts, tokenId: string)
    requires Linked(f) && Agree(f)
    ensures Agree(UseFacts(f, tokenId))
  {
    hide PendingApprovals, Awaits, UseFacts, Linked;
    forall id: string ensures id in PendingApprovals(UseFacts(f, tokenId)) <==> Awaits(UseFacts(f, tokenId), id) {
      UseSeen(f, tokenId, id);
    }
  }

  /** Gate and runtime agree at the start and after each step. */
  ghost predicate AgreeThroughout(seal: Preview -> Seal, steps: seq<Step>) {
    Agree(FactsOf(RunLog(seal, steps))) && (steps == [] || AgreeThroughout(seal, steps[..|steps| - 1]))
  }

  /** Each step meets its condition on the log before it. */
  predicate EachKeepsAgreement(seal: Preview -> Seal, steps: seq<Step>) {
    steps == [] ||
    (var before := steps[..|steps| - 1];
     EachKeepsAgreement(seal, before) && KeepsAgreement(FactsOf(RunLog(seal, before)), seal, steps[|steps| - 1]))
  }

  /**
    * In every run, whatever its ids: gate and runtime agree after each step exactly when each step meets a condition
    * on the log before it. A created preview must not reopen a carried id, nor bring a new id under a decided
    * transaction; approving must leave no other preview of the id open, and no other id without an open preview.
    */
  lemma {:induction false} AgreeThroughoutIff(seal: Preview -> Seal, steps: seq<Step>)
    ensures AgreeThroughout(seal, steps) <==> EachKeepsAgreement(seal, steps)
    decreases |steps|
  {
    if steps == [] {
      AgreeAtStart(seal);
    } else {
      AgreeThroughoutIff(seal, steps[..|steps| - 1]);
      if AgreeThroughout(seal, steps[..|steps| - 1]) {
        LastStepAgrees(seal, steps);
      }
    }
  }

  lemma AgreeAtStart(seal: Preview -> Seal)
    ensures Agree(FactsOf(RunLog(seal, [])))
  {
  }

  lemma LastStepAgrees(seal: Preview -> Seal, steps: seq<Step>)
    requires steps != [] && Agree(FactsOf(RunLog(seal, steps[..|steps| - 1])))
    ensures var f := FactsOf(RunLog(seal, steps[..|steps| - 1]));
            Agree(FactsOf(RunLog(seal, steps))) <==> KeepsAgreement(f, seal, steps[|steps| - 1])
  {
    var before, s := steps[..|steps| - 1], steps[|steps| - 1];
    RunIsLinked(seal, before);
    StepEffect(RunLog(seal, before), seal, s);
    AgreementStepIff(FactsOf(RunLog(seal, before)), seal, s);
  }

  /** In every run, the unfinished tokens are the unused ones exactly when every used one has closed its transaction. */
  lemma {:induction false} UnfinishedAreLiveIff(f: Facts, ts: seq<Token>)
    ensures UnfinishedTokens(f, ts) == Live(ts, f.consumed) <==>
            forall t :: t in ts ==> (IsUnfinished(f, t) <==> t.tokenId !in f.consumed)
  {
    forall t | t in ts
      ensures t in UnfinishedTokens(f, ts) <==> IsUnfinished(f, t)
      ensures t in Live(ts, f.consumed) <==> t.tokenId !in f.consumed
    {
      UnfinishedHas(f, ts, t);
      LiveMeaning(ts, f.consumed, t);
    }
    if forall t :: t in ts ==> (IsUnfinished(f, t) <==> t.tokenId !in f.consumed) {
      SameFilter(f, ts);
    }
  }

  lemma {:induction false} LiveMeaning(ts: seq<Token>, consumed: set<string>, t: Token)
    ensures t in Live(ts, consumed) <==> t in ts && t.tokenId !in consumed
    decreases |ts|
  {
    if ts != [] {
      LiveMeaning(ts[..|ts| - 1], consumed, t);
      assert ts == ts[..|ts| - 1] + [ts[|ts| - 1]];
    }
  }

  lemma {:induction false} SameFilter(f: Facts, ts: seq<Token>)
    requires forall t :: t in ts ==> (IsUnfinished(f, t) <==> t.tokenId !in f.consumed)
    ensures UnfinishedTokens(f, ts) == Live(ts, f.consumed)
    decreases |ts|
  {
    if ts != [] {
      SameFilter(f, ts[..|ts| - 1]);
    }
  }

  // ---- Ids generated in one millisecond ----

  lemma OpenOfTwo(f: Facts, p: Preview, q: Preview)
    ensures LatestOpen(f, [p, q], None) ==
            if IsOpen(f, q) then Some(q) else if IsOpen(f, p) then Some(p) else None
    ensures Waiting([p, q], f.decided) == (if IsOpen(f, p) then [p] else []) + (if IsOpen(f, q) then [q] else [])
  {
    assert [p, q][..1] == [p] && [p][..0] == [];
    assert LatestOpen(f, [p], None) == if IsOpen(f, p) then Some(p) else None;
    assert Waiting([p], f.decided) == if IsOpen(f, p) then [p] else [];
  }

  lemma EmptyRun(seal: Preview -> Seal, steps: seq<Step>)
    requires steps == []
    ensures FactsOf(RunLog(seal, steps)) == NO_FACTS
  {
  }

  lemma AfterOneMore(seal: Preview -> Seal, steps: seq<Step>, f: Facts, s: Step, more: seq<Step>)
    requires FactsOf(RunLog(seal, steps)) == f && more == steps + [s]
    ensures FactsOf(RunLog(seal, more)) == NextFacts(f, seal, s)
  {
    OneMoreStep(seal, steps, s);
  }

  /** Two previews created and the second approved. */
  lemma SecondApproved(seal: Preview -> Seal, p: Preview, q: Preview, tokenId: string, now: nat, steps: seq<Step>)
    requires Approvable(seal(q)) && steps == [Create(p), Create(q), Issue(None, tokenId, now)]
    ensures FactsOf(RunLog(seal, steps))
         == NO_FACTS.(created := [p, q], issued := [TokenFor(q, tokenId, seal(q), now)], decided := {q.txId})
  {
    var f, g := NO_FACTS.(created := [p]), NO_FACTS.(created := [p, q]);
    EmptyRun(seal, steps[..0]);
    AfterOneMore(seal, steps[..0], NO_FACTS, Create(p), steps[..1]);
    AfterOneMore(seal, steps[..1], f, Create(q), steps[..2]);
    assert f.created + [q] == [p, q];
    OpenOfTwo(g, p, q);
    AfterOneMore(seal, steps[..2], g, steps[2], steps);
    assert NO_FACTS.decided + {q.txId} == {q.txId};
  }

  lemma CarriedIdIsNotPending(f: Facts, q: Preview, t: Token)
    requires |f.created| == 2 && f.created[1] == q && f.issued == [t]
    requires t.previewId == q.previewId == f.created[0].previewId
    ensures PendingApprovals(f) == {}
  {
    assert t in f.issued;
  }

  /**
    * The preview id and the transaction id come from two clock readings. When only the preview ids fall into one
    * millisecond, approving the second preview hides the first from the gate, while the runtime would still approve it.
    */
  lemma SharedPreviewIdHidesAnOpenPreview(seal: Preview -> Seal, p: Preview, q: Preview, tokenId: string, now: nat)
    requires p.previewId == q.previewId && p.txId != q.txId && Approvable(seal(q))
    ensures var f := FactsOf(RunLog(seal, [Create(p), Create(q), Issue(None, tokenId, now)]));
            && PendingApprovals(f) == {}
            && Abstract(f).waiting == [p]
            && LatestOpen(f, f.created, None) == Some(p)
  {
    var steps := [Create(p), Create(q), Issue(None, tokenId, now)];
    var f := FactsOf(RunLog(seal, steps));
    var t := TokenFor(q, tokenId, seal(q), now);
    SecondApproved(seal, p, q, tokenId, now, steps);
    CarriedIdIsNotPending(f, q, t);
    OpenOfTwo(f, p, q);
  }

  /** When both ids fall into one millisecond, gate and runtime lose the first preview together. */
  lemma SharedIdsHideAPreview(seal: Preview -> Seal, p: Preview, q: Preview, tokenId: string, now: nat)
    requires p.previewId == q.previewId && p.txId == q.txId && Approvable(seal(q))
    ensures var f := FactsOf(RunLog(seal, [Create(p), Create(q), Issue(None, tokenId, now)]));
            && f.created == [p, q] && f.issued == [TokenFor(q, tokenId, seal(q), now)]
            && PendingApprovals(f) == {} && Abstract(f).waiting == [] && LatestOpen(f, f.created, None) == None
  {
    var steps := [Create(p), Create(q), Issue(None, tokenId, now)];
    var f := FactsOf(RunLog(seal, steps));
    SecondApproved(seal, p, q, tokenId, now, steps);
    CarriedIdIsNotPending(f, q, TokenFor(q, tokenId, seal(q), now));
    OpenOfTwo(f, p, q);
  }

  // ---- What using a token does to the verification failures ----

  /** The event carries at most a receipt of this capability that has not failed and names no artifact. */
  predicate IsUseOf(e: Event, used: Capability) {
    match Payload(e)
    case None => true
    case Some(r) => r.capability == used && !HasFailed(r) && ArtifactPath(r) == UNKNOWN_ARTIFACT
  }

  function Cleared(failures: map<string, Receipt>, used: Capability): map<string, Receipt> {
    if used.NotVerifying? then failures else failures - {Key(used, UNKNOWN_ARTIFACT)}
  }

  lemma UseEventClears(log: Log, e: Event, used: Capability)
    requires IsUseOf(e, used)
    ensures Failures(log + [e]) == if Payload(e).Some? then Cleared(Failures(log), used) else Failures(log)
  {
    hide Failures, Key;
    match Payload(e) {
      case None => OtherEventsKeepFailures(log, e);
      case Some(r) =>
        if used.NotVerifying? {
          OtherEventsKeepFailures(log, e);
        } else {
          LaterReceiptReplacesOwnKey(log, e, r);
        }
    }
  }

  lemma {:induction false} UseEventsClear(log: Log, es: seq<Event>, used: Capability)
    requires es != [] && Payload(es[0]).Some? && forall e :: e in es ==> IsUseOf(e, used)
    ensures Failures(log + es) == Cleared(Failures(log), used)
    decreases |es|
  {
    hide Failures, Payload, IsUseOf, Key;
    var init, e := es[..|es| - 1], es[|es| - 1];
    assert log + es == log + init + [e];
    UseEventClears(log + init, e, used);
    if init == [] {
      assert log + init == log;
    } else {
      assert init[0] == es[0];
      UseEventsClear(log, init, used);
    }
  }

  lemma UseEventsAreUses(f: Facts, tokenId: string, used: Capability)
    ensures var es := UseEvents(f, tokenId, used);
            es != [] && Payload(es[0]).Some? && forall e :: e in es ==> IsUseOf(e, used)
  {
    hide LastIssued;
  }

  /** Using a token clears the failure of its capability about an unnamed artifact and nothing else: the failures stay
      as they are exactly when the capability verifies nothing or has no such failure. */
  lemma TokenUseClearsUnknownArtifact(log: Log, tokenId: string, used: Capability)
    ensures var next := log + UseEvents(FactsOf(log), tokenId, used);
            && Failures(next) == Cleared(Failures(log), used)
            && (Failures(next) == Failures(log) <==>
                used.NotVerifying? || Key(used, UNKNOWN_ARTIFACT) !in Failures(log))
  {
    hide Failures, FactsOf, UseEvents, Payload, IsUseOf, Key;
    UseEventsAreUses(FactsOf(log), tokenId, used);
    UseEventsClear(log, UseEvents(FactsOf(log), tokenId, used), used);
  }
}
