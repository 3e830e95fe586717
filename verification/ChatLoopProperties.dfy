/** What the provider loop's contract means for the transcript protocol. */
module ChatLoopProperties {
  import opened Saturating
  import opened Text
  import opened Transcript
  import opened ChatLoop

  function UsedIds(replies: seq<Reply>): set<string> {
    if replies == [] then {} else UsedIds(replies[..|replies| - 1]) + IdSet(Ids(replies[|replies| - 1].calls))
  }

  /** Each batch has distinct, non-blank ids that occur neither in used nor in an earlier batch. */
  predicate FreshReplies(used: set<string>, replies: seq<Reply>) {
    replies == [] ||
    (var before := replies[..|replies| - 1];
     FreshReplies(used, before) && FreshBatch(Ids(replies[|replies| - 1].calls), used + UsedIds(before)))
  }

  lemma BatchIsClosed(a: seq<Message>, reply: Reply, ran: nat)
    requires Closed(a)
    ensures var ms := a + Batch(reply, ran);
            && CalledIds(ms) == CalledIds(a) + IdSet(Ids(reply.calls))
            && (OpenStepwise(ms) <==> FreshBatch(Ids(reply.calls), CalledIds(a)))
            && (Closed(ms) <==> OpenStepwise(ms))
  {
    var ids := Ids(reply.calls);
    assert ids[..|ids|] == ids;
    BatchKeepsClosed(a, reply.content, ids, BatchResults(reply.calls, ran));
  }

  /** Starting from a closed transcript, every completely processed reply leaves it closed exactly as long as the ids
      are fresh: executed, skipped and limit-exceeded calls are all answered. */
  lemma {:induction false} BatchesClosed(start: seq<Message>, replies: seq<Reply>, ran: seq<nat>)
    requires Closed(start) && |replies| == |ran|
    ensures var ms := start + Batches(replies, ran);
            && (OpenStepwise(ms) <==> FreshReplies(CalledIds(start), replies))
            && (OpenStepwise(ms) ==> Closed(ms) && CalledIds(ms) == CalledIds(start) + UsedIds(replies))
  {
    hide FreshBatch, AnsweredIds, Batch, Ids;
    var ms := start + Batches(replies, ran);
    if replies == [] {
      assert ms == start;
    } else {
      var n := |replies| - 1;
      var before := start + Batches(replies[..n], ran[..n]);
      BatchesClosed(start, replies[..n], ran[..n]);
      assert ms == before + Batch(replies[n], ran[n]);
      if FreshReplies(CalledIds(start), replies[..n]) {
        BatchIsClosed(before, replies[n], ran[n]);
      } else if OpenStepwise(ms) {
        OpenPrefix(before, Batch(replies[n], ran[n]));
      }
    }
  }

  /** The transcript in a turn after its user message and the given replies, processed completely. */
  function InTurn(start: seq<Message>, user: Message, replies: seq<Reply>, ran: seq<nat>): seq<Message>
    requires |replies| == |ran|
  {
    start + [user] + Batches(replies, ran)
  }

  lemma InTurnStep(start: seq<Message>, user: Message, replies: seq<Reply>, ran: seq<nat>, reply: Reply, stopped: nat)
    requires |replies| == |ran|
    ensures InTurn(start, user, replies + [reply], ran + [stopped]) ==
            InTurn(start, user, replies, ran) + Batch(reply, stopped)
  {
    assert (replies + [reply])[..|replies|] == replies && (ran + [stopped])[..|ran|] == ran;
    Associative(start + [user], Batches(replies, ran), Batch(reply, stopped));
  }

  /** The first n results of a batch: each call's own result if it was executed, else the word skipped. */
  lemma ResultsMeaning(calls: seq<ToolCall>, ran: nat, n: nat)
    requires n <= |calls|
    ensures |Results(calls, ran, n)| == n
    ensures forall j :: 0 <= j < n ==>
              Results(calls, ran, n)[j]
              == Message("tool", if j < ran then calls[j].result else "skipped", [], Some(calls[j].id))
  {
  }

  /** A batch: the model's message with the ids of its calls, and one result per call. */
  lemma BatchMeaning(reply: Reply, ran: nat)
    ensures var ms := Batch(reply, ran);
            && |ms| == 1 + |reply.calls|
            && ms[0] == Message("assistant", reply.content, ms[0].toolCalls, None)
            && |ms[0].toolCalls| == |reply.calls|
            && forall j :: 0 <= j < |reply.calls| ==>
                 && ms[0].toolCalls[j] == reply.calls[j].id
                 && ms[1 + j] == Message("tool", if j < ran then reply.calls[j].result else "skipped", [],
                                         Some(reply.calls[j].id))
  {
    IdsMeaning(reply.calls);
    ResultsMeaning(reply.calls, ran, |reply.calls|);
    hide Results, Ids;
    var first, results := Assistant(reply.content, Ids(reply.calls)), BatchResults(reply.calls, ran);
    assert Batch(reply, ran)[0] == first;
    assert forall j :: 0 <= j < |results| ==> Batch(reply, ran)[1 + j] == results[j];
  }

  lemma IdsMeaning(calls: seq<ToolCall>)
    ensures forall j :: 0 <= j < |calls| ==> Ids(calls)[j] == calls[j].id
  {
  }

  /** Every completely processed reply is in the transcript with one result per call, after the turn's user message. */
  lemma {:induction false} BeforeMeaning(start: seq<Message>, replies: seq<Reply>, prompts: seq<Message>,
                                         ran: seq<nat>, k: nat)
    requires k <= |ran| && k <= |replies| == |prompts|
    ensures ChatTurn.Before(start, replies, prompts, ran, k) ==
            if k == 0 then start else InTurn(start, prompts[0], replies[..k], ran[..k])
    decreases k, 1
  {
    if k > 0 {
      var reply, n := replies[k - 1], ran[k - 1];
      OpenedBefore(start, replies, prompts, ran, k - 1);
      assert replies[..k] == replies[..k - 1] + [reply] && ran[..k] == ran[..k - 1] + [n];
      InTurnStep(start, prompts[0], replies[..k - 1], ran[..k - 1], reply, n);
      Associative(InTurn(start, prompts[0], replies[..k - 1], ran[..k - 1]),
                  [Assistant(reply.content, Ids(reply.calls))], BatchResults(reply.calls, n));
    }
  }

  /** With the user message, the transcript before each subturn has the same form. */
  lemma OpenedBefore(start: seq<Message>, replies: seq<Reply>, prompts: seq<Message>, ran: seq<nat>, k: nat)
    requires k <= |ran| && k < |replies| == |prompts|
    ensures Opened(ChatTurn.Before(start, replies, prompts, ran, k), k == 0, prompts[k]) ==
            InTurn(start, prompts[0], replies[..k], ran[..k])
    decreases k, 2
  {
    BeforeMeaning(start, replies, prompts, ran, k);
  }

  lemma InTurnClosed(start: seq<Message>, user: Message, replies: seq<Reply>, ran: seq<nat>)
    requires Closed(start) && user.role == "user" && FieldsOk(user) && |replies| == |ran|
    ensures var ms := InTurn(start, user, replies, ran);
            && (Closed(ms) <==> FreshReplies(CalledIds(start), replies))
            && (Closed(ms) ==> CalledIds(ms) == CalledIds(start) + UsedIds(replies))
  {
    PlainKeepsClosed(start, user, []);
    BatchesClosed(start + [user], replies, ran);
  }

  lemma {:induction false} BatchesUsers(replies: seq<Reply>, ran: seq<nat>)
    requires |replies| == |ran|
    ensures Users(Batches(replies, ran)) == []
  {
    if replies != [] {
      var n := |replies| - 1;
      BatchesUsers(replies[..n], ran[..n]);
      UsersConcat(Batches(replies[..n], ran[..n]), Batch(replies[n], ran[n]));
      UsersEmpty(Batch(replies[n], ran[n]));
    }
  }

  lemma UsersOfOne(user: Message)
    requires user.role == "user"
    ensures Users([user]) == [user]
  {
    assert [user][1..] == [];
  }

  lemma EndsWithToolAfter(before: seq<Message>, ms: seq<Message>)
    requires EndsWithTool(ms)
    ensures EndsWithTool(before + ms)
  {
  }

  lemma BatchesEndWithTool(replies: seq<Reply>, ran: seq<nat>)
    requires |replies| == |ran| > 0 && replies[|replies| - 1].calls != []
    ensures EndsWithTool(Batches(replies, ran))
  {
    var n := |replies| - 1;
    var results := BatchResults(replies[n].calls, ran[n]);
    assert results[|results| - 1].role == "tool";
    EndsWithToolAfter([Assistant(replies[n].content, Ids(replies[n].calls))], results);
    EndsWithToolAfter(Batches(replies[..n], ran[..n]), Batch(replies[n], ran[n]));
  }

  /** Once a batch has been answered, the turn's user message is in the transcript, which ends with a tool result. */
  lemma InTurnUsers(start: seq<Message>, user: Message, replies: seq<Reply>, ran: seq<nat>)
    requires user.role == "user" && |replies| == |ran| > 0 && replies[|replies| - 1].calls != []
    ensures Users(InTurn(start, user, replies, ran)) == Users(start) + [user]
    ensures EndsWithTool(InTurn(start, user, replies, ran))
  {
    BatchesUsers(replies, ran);
    UsersConcat(start + [user], Batches(replies, ran));
    UsersConcat(start, [user]);
    UsersOfOne(user);
    BatchesEndWithTool(replies, ran);
    EndsWithToolAfter(start + [user], Batches(replies, ran));
  }

  // ---- What a turn adds to a transcript ----

  lemma ResultsAreFor(reply: Reply, ran: nat, n: nat)
    requires n <= |reply.calls|
    ensures |Results(reply.calls, ran, n)| == n && ResultsFor(Results(reply.calls, ran, n), Ids(reply.calls)[..n])
  {
  }

  lemma BatchAnswersItself(reply: Reply, ran: nat)
    ensures AnswersOwnCalls(Batch(reply, ran))
  {
    ResultsAreFor(reply, ran, |reply.calls|);
    BatchAnswersOwnCalls(reply.content, Ids(reply.calls), BatchResults(reply.calls, ran));
  }

  lemma {:induction false} BatchesAnswerThemselves(replies: seq<Reply>, ran: seq<nat>)
    requires |replies| == |ran|
    ensures AnswersOwnCalls(Batches(replies, ran))
  {
    if replies != [] {
      var n := |replies| - 1;
      BatchesAnswerThemselves(replies[..n], ran[..n]);
      BatchAnswersItself(replies[n], ran[n]);
      OwnCallsConcat(Batches(replies[..n], ran[..n]), Batch(replies[n], ran[n]));
    }
  }

  lemma PlainAnswersNothing(m: Message)
    requires m.role == "user"
    ensures AnswersOwnCalls([m])
  {
  }

  /** Whatever the replies, a transcript that is valid during a turn was valid when the turn began. */
  lemma InTurnNeverRepairs(start: seq<Message>, user: Message, replies: seq<Reply>, ran: seq<nat>)
    requires user.role == "user" && |replies| == |ran|
    ensures Protocol(InTurn(start, user, replies, ran)) ==> Protocol(start)
  {
    PlainAnswersNothing(user);
    BatchesAnswerThemselves(replies, ran);
    OwnCallsNeverRepair(start + [user], Batches(replies, ran));
    OwnCallsNeverRepair(start, [user]);
  }

  /** The transcript during a turn, from whatever the turn began with. */
  lemma InTurnValidIff(start: seq<Message>, user: Message, replies: seq<Reply>, ran: seq<nat>)
    requires user.role == "user" && FieldsOk(user) && |replies| == |ran|
    ensures var ms := InTurn(start, user, replies, ran);
            && (Protocol(ms) <==> Protocol(start) && FreshReplies(CalledIds(start), replies))
            && (Protocol(ms) ==> CalledIds(ms) == CalledIds(start) + UsedIds(replies))
  {
    ProtocolIffClosed(start);
    ProtocolIffClosed(InTurn(start, user, replies, ran));
    InTurnNeverRepairs(start, user, replies, ran);
    if Closed(start) { InTurnClosed(start, user, replies, ran); }
  }

  lemma BeforeValidIff(start: seq<Message>, replies: seq<Reply>, prompts: seq<Message>, ran: seq<nat>, k: nat)
    requires k <= |ran| && k <= |replies| == |prompts|
    requires prompts != [] ==> prompts[0].role == "user" && FieldsOk(prompts[0])
    ensures Protocol(ChatTurn.Before(start, replies, prompts, ran, k)) <==>
            Protocol(start) && FreshReplies(CalledIds(start), replies[..k])
  {
    BeforeMeaning(start, replies, prompts, ran, k);
    if k > 0 { InTurnValidIff(start, prompts[0], replies[..k], ran[..k]); }
  }

  lemma RequestValid(turn: ChatTurn, start: seq<Message>, replies: seq<Reply>, prompts: seq<Message>, ran: seq<nat>,
                     k: nat)
    requires k <= |ran| && k < |replies| == |prompts|
    requires turn.system.role == "system" && FieldsOk(turn.system)
    requires forall j :: 0 <= j < |prompts| ==> prompts[j].role == "user" && FieldsOk(prompts[j])
    ensures Protocol(turn.RequestFor(start, replies, prompts, ran, k)) <==>
            (turn.config.toolsOffered ==> Protocol(start) && FreshReplies(CalledIds(start), replies[..k]))
  {
    var transcript := if turn.config.toolsOffered then ChatTurn.Before(start, replies, prompts, ran, k) else [];
    RenderedValid(turn.system, prompts[k], transcript, k == 0);
    BeforeValidIff(start, replies, prompts, ran, k);
    if !turn.config.toolsOffered { ProtocolIffClosed([]); }
  }

  /** Each request that a turn sends (the k-th of the n of RunProviderLoop) is protocol-valid exactly when the turn
      began with a valid transcript and the ids of the batches answered so far are fresh, or no transcript is sent
      because no tools are offered. */
  lemma RequestsValid(turn: ChatTurn, start: seq<Message>, replies: seq<Reply>, prompts: seq<Message>, ran: seq<nat>,
                      n: nat, k: nat)
    requires k < n <= |ran| + 1 && n <= |replies| == |prompts|
    requires turn.system.role == "system" && FieldsOk(turn.system)
    requires forall j :: 0 <= j < |prompts| ==> prompts[j].role == "user" && FieldsOk(prompts[j])
    ensures Protocol(turn.Sent(start, replies, prompts, ran, n)[k]) <==>
            (turn.config.toolsOffered ==> Protocol(start) && FreshReplies(CalledIds(start), replies[..k]))
  {
    turn.SentAt(start, replies, prompts, ran, n, k);
    RequestValid(turn, start, replies, prompts, ran, k);
  }

  lemma RequestCarriesUserOnce(turn: ChatTurn, start: seq<Message>, replies: seq<Reply>, prompts: seq<Message>,
                               ran: seq<nat>, k: nat)
    requires k <= |ran| && k < |replies| == |prompts| && turn.system.role == "system"
    requires forall j :: 0 <= j < |prompts| ==> prompts[j].role == "user"
    requires forall j :: 0 <= j < k ==> replies[j].calls != []
    ensures Users(turn.RequestFor(start, replies, prompts, ran, k)) ==
            if turn.config.toolsOffered then Users(start) + [prompts[0]] else [prompts[k]]
  {
    var transcript := if turn.config.toolsOffered then ChatTurn.Before(start, replies, prompts, ran, k) else [];
    RenderedUsers(turn.system, prompts[k], transcript, k == 0);
    BeforeMeaning(start, replies, prompts, ran, k);
    if turn.config.toolsOffered && k > 0 {
      InTurnUsers(start, prompts[0], replies[..k], ran[..k]);
    }
  }

  /** Every request carries the user messages of the transcript it sends and exactly one user message of this turn:
      the first subturn's, which later subturns find in the transcript. */
  lemma RequestsCarryUserOnce(turn: ChatTurn, start: seq<Message>, replies: seq<Reply>, prompts: seq<Message>,
                              ran: seq<nat>, n: nat, k: nat)
    requires k < n <= |ran| + 1 && n <= |replies| == |prompts|
    requires turn.system.role == "system"
    requires forall j :: 0 <= j < |prompts| ==> prompts[j].role == "user"
    requires forall j :: 0 <= j < k ==> replies[j].calls != []
    ensures Users(turn.Sent(start, replies, prompts, ran, n)[k]) ==
            if turn.config.toolsOffered then Users(start) + [prompts[0]] else [prompts[k]]
  {
    turn.SentAt(start, replies, prompts, ran, n, k);
    RequestCarriesUserOnce(turn, start, replies, prompts, ran, k);
  }

  // ---- How a turn leaves the transcript ----

  /** A reply with its first results. */
  function EndOfTurn(reply: Reply, ran: nat, n: nat): seq<Message>
    requires n <= |reply.calls|
  {
    [Assistant(reply.content, Ids(reply.calls))] + Results(reply.calls, ran, n)
  }

  lemma RecordedIsInTurn(start: seq<Message>, replies: seq<Reply>, prompts: seq<Message>, ran: seq<nat>, last: nat,
                         n: nat)
    requires |ran| < |replies| == |prompts| && n <= |replies[|ran|].calls|
    ensures var k := |ran|;
            ChatTurn.Final(start, replies, prompts, ran, KeptReply(last, n)) ==
            InTurn(start, prompts[0], replies[..k], ran) + EndOfTurn(replies[k], last, n)
  {
    var k := |ran|;
    var first := Assistant(replies[k].content, Ids(replies[k].calls));
    OpenedBefore(start, replies, prompts, ran, k);
    assert ran[..k] == ran;
    Associative(InTurn(start, prompts[0], replies[..k], ran), [first], Results(replies[k].calls, last, n));
  }

  /** A reply with its first results, after whatever transcript. */
  lemma BatchValidIff(before: seq<Message>, reply: Reply, ran: nat, n: nat)
    requires n <= |reply.calls|
    ensures Protocol(before + EndOfTurn(reply, ran, n)) <==>
            Protocol(before) && FreshBatch(Ids(reply.calls), CalledIds(before)) && n == |reply.calls|
  {
    var ids, results := Ids(reply.calls), Results(reply.calls, ran, n);
    ResultsAreFor(reply, ran, n);
    BatchAnswersOwnCalls(reply.content, ids, results);
    OwnCallsNeverRepair(before, EndOfTurn(reply, ran, n));
    ProtocolIffClosed(before);
    ProtocolIffClosed(before + EndOfTurn(reply, ran, n));
    if Closed(before) { BatchKeepsClosed(before, reply.content, ids, results); }
  }

  lemma FreshOneMore(used: set<string>, replies: seq<Reply>, k: nat)
    requires k < |replies|
    ensures FreshReplies(used, replies[..k + 1]) <==>
            FreshReplies(used, replies[..k]) && FreshBatch(Ids(replies[k].calls), used + UsedIds(replies[..k]))
  {
    assert replies[..k + 1][..k] == replies[..k];
  }

  /** The replies that a turn with this many complete ones recorded. */
  function RecordedReplies(replies: seq<Reply>, done: nat, kept: Kept): seq<Reply>
    requires done <= |replies|
  {
    if done < |replies| && kept.KeptReply? then replies[..done + 1] else replies[..done]
  }

  predicate LastIsAnswered(replies: seq<Reply>, done: nat, kept: Kept) {
    done < |replies| && kept.KeptReply? ==> kept.results == |replies[done].calls|
  }

  lemma RecordedTurnValidIff(start: seq<Message>, replies: seq<Reply>, prompts: seq<Message>, ran: seq<nat>,
                             last: nat, n: nat)
    requires |ran| < |replies| == |prompts| && n <= |replies[|ran|].calls|
    requires prompts[0].role == "user" && FieldsOk(prompts[0])
    ensures var k := |ran|;
            Protocol(ChatTurn.Final(start, replies, prompts, ran, KeptReply(last, n))) <==>
            Protocol(start) && FreshReplies(CalledIds(start), replies[..k + 1]) && n == |replies[k].calls|
  {
    hide Protocol;
    var k := |ran|;
    RecordedIsInTurn(start, replies, prompts, ran, last, n);
    InTurnValidIff(start, prompts[0], replies[..k], ran);
    BatchValidIff(InTurn(start, prompts[0], replies[..k], ran), replies[k], last, n);
    FreshOneMore(CalledIds(start), replies, k);
  }

  /** Whatever a turn keeps, also when a write fails or a result is refused: it leaves a valid transcript exactly when
      it began with one, the ids of all recorded replies are fresh, and the last of them has a result for every call. */
  lemma TurnValidIff(start: seq<Message>, replies: seq<Reply>, prompts: seq<Message>, ran: seq<nat>, kept: Kept,
                     left: seq<Message>)
    requires |ran| <= |replies| == |prompts| && KeptFits(replies, |ran|, kept)
    requires prompts != [] ==> prompts[0].role == "user" && FieldsOk(prompts[0])
    requires left == ChatTurn.Final(start, replies, prompts, ran, kept)
    ensures Protocol(left) <==>
            && Protocol(start)
            && FreshReplies(CalledIds(start), RecordedReplies(replies, |ran|, kept))
            && LastIsAnswered(replies, |ran|, kept)
  {
    hide Protocol;
    var k := |ran|;
    if k < |replies| && kept.KeptReply? {
      RecordedTurnValidIff(start, replies, prompts, ran, kept.ran, kept.results);
    } else if k < |replies| && kept == KeptPrompt {
      InTurnValidIff(start, prompts[0], replies[..k], ran);
      OpenedBefore(start, replies, prompts, ran, k);
      assert ran[..k] == ran;
    } else {
      BeforeValidIff(start, replies, prompts, ran, k);
    }
  }

  /** A turn never repairs the transcript it starts from, whatever the model answers and whatever fails. */
  lemma TurnNeverRepairs(start: seq<Message>, replies: seq<Reply>, prompts: seq<Message>, ran: seq<nat>, kept: Kept,
                         left: seq<Message>)
    requires |ran| <= |replies| == |prompts| && KeptFits(replies, |ran|, kept)
    requires prompts != [] ==> prompts[0].role == "user"
    requires left == ChatTurn.Final(start, replies, prompts, ran, kept)
    ensures Protocol(left) ==> Protocol(start)
  {
    var k := |ran|;
    if k < |replies| && kept != KeptNothing {
      InTurnNeverRepairs(start, prompts[0], replies[..k], ran);
      if kept.KeptReply? {
        RecordedIsInTurn(start, replies, prompts, ran, kept.ran, kept.results);
        BatchValidIff(InTurn(start, prompts[0], replies[..k], ran), replies[k], kept.ran, kept.results);
      } else {
        OpenedBefore(start, replies, prompts, ran, k);
        assert ran[..k] == ran;
      }
    } else {
      BeforeMeaning(start, replies, prompts, ran, k);
      assert ran[..k] == ran;
      if k > 0 { InTurnNeverRepairs(start, prompts[0], replies[..k], ran); }
    }
  }

  // ---- A repeated call id ----

  /** A recorded reply that repeats a call id leaves an invalid transcript, however the turn ends. */
  lemma RepeatedIdBreaks(start: seq<Message>, replies: seq<Reply>, prompts: seq<Message>, ran: seq<nat>, kept: Kept,
                         left: seq<Message>)
    requires |ran| < |replies| == |prompts| && kept.KeptReply? && Fits(kept, replies[|ran|])
    requires !NoDup(Ids(replies[|ran|].calls))
    requires prompts != [] ==> prompts[0].role == "user" && FieldsOk(prompts[0])
    requires left == ChatTurn.Final(start, replies, prompts, ran, kept)
    ensures !Protocol(left)
  {
    hide Protocol;
    RecordedTurnValidIff(start, replies, prompts, ran, kept.ran, kept.results);
    FreshOneMore(CalledIds(start), replies, |ran|);
  }

  /** A turn that fails although no write failed leaves an invalid transcript: the model alone can cause that. */
  lemma RefusedTurnBreaks(start: seq<Message>, replies: seq<Reply>, prompts: seq<Message>, ran: seq<nat>, kept: Kept,
                          left: seq<Message>)
    requires |ran| < |replies| == |prompts| && Fits(kept, replies[|ran|]) && RepeatsNext(replies[|ran|], kept)
    requires prompts != [] ==> prompts[0].role == "user" && FieldsOk(prompts[0])
    requires left == ChatTurn.Final(start, replies, prompts, ran, kept)
    ensures !Protocol(left)
  {
    var calls, n := replies[|ran|].calls, kept.results;
    var j :| 0 <= j < n && calls[j].id == calls[n].id;
    assert Ids(calls)[j] == Ids(calls)[n];
    RepeatedIdBreaks(start, replies, prompts, ran, kept, left);
  }

  // ---- A control call in mid-batch ----

  /** The model answers and asks to read in one reply. The turn ends at the answer, and the reading is left open. */
  lemma MidBatchAnswerBreaks(config: Config, answer: ToolCall, read: ToolCall, content: string, prompt: Message)
    requires answer.decision == Registered(ChatAnswer)
    requires answer.id != read.id && !IsBlank(answer.id) && !IsBlank(read.id)
    requires config.maxToolCalls >= 2 && answer.bytes <= config.maxReadBytes && answer.tokens <= config.maxReadTokens
    requires answer.bytes <= U64_MAX && answer.tokens <= U64_MAX && prompt.role == "user" && FieldsOk(prompt)
    ensures var replies := [Reply(true, true, content, [answer, read])];
            && FreshReplies({}, replies)
            && TurnOutcome(config, replies, 0, 0, 0, 0) == TurnResult(EndedByTool(Status.Answered), 0, 1)
            && ChatTurn.Final([], replies, [prompt], [], KeptReply(1, 1)) ==
               [prompt, Assistant(content, [answer.id, read.id]), ToolResult(answer.id, answer.result)]
            && !Protocol(ChatTurn.Final([], replies, [prompt], [], KeptReply(1, 1)))
  {
    var calls := [answer, read];
    var replies := [Reply(true, true, content, calls)];
    assert Ids(calls) == [answer.id, read.id];
    assert replies[..0] == [];
    assert FreshReplies({}, replies[..0]);
    assert Results(calls, 1, 1) == [ToolResult(answer.id, answer.result)];
    RecordedTurnValidIff([], replies, [prompt], [], 1, 1);
  }

  /** No call of the reply is left without a result when it ends the turn like this. */
  predicate LeavesNoCall(end: TurnEnd, reply: Reply) {
    match end
    case EndedByTool(_) =>
      forall j :: 0 <= j < |reply.calls| - 1 ==> ExecutionStatus(reply.calls[j].decision) == Continue
    case InvalidReply => reply.calls == []
    case _ => true
  }

  lemma KeptAllIff(config: Config, replies: seq<Reply>, end: TurnEnd, done: nat, last: nat)
    requires TurnResult(end, done, last) == TurnOutcome(config, replies, 0, 0, 0, 0) && done < |replies|
    ensures var kept := KeptAtEnd(replies, done, end, last);
            && Fits(kept, replies[done])
            && (kept.KeptReply? <==> end != ModelFailed)
            && (kept.KeptReply? ==> (kept.results == |replies[done].calls| <==> LeavesNoCall(end, replies[done])))
  {
    TurnOutcomeMeaning(config, replies, 0, 0, 0, 0);
    if end.EndedByTool? {
      var calls := replies[done].calls;
      assert IsTerminal(ExecutionStatus(calls[last - 1].decision));
    }
  }

  /** In terms of what the model answers: a turn in which no write fails leaves a valid transcript exactly when it began
      with one, the ids of the recorded replies are fresh, and the reply that ended it calls nothing after a control
      call and, if it is invalid, nothing at all. */
  lemma EndedTurnValidIff(config: Config, start: seq<Message>, replies: seq<Reply>, prompts: seq<Message>,
                          ran: seq<nat>, end: TurnEnd, last: nat, kept: Kept, left: seq<Message>)
    requires TurnResult(end, |ran|, last) == TurnOutcome(config, replies, 0, 0, 0, 0)
    requires |ran| <= |replies| == |prompts| && KeptFits(replies, |ran|, kept)
    requires prompts != [] ==> prompts[0].role == "user" && FieldsOk(prompts[0])
    requires kept == KeptAtEnd(replies, |ran|, end, last)
    requires left == ChatTurn.Final(start, replies, prompts, ran, kept)
    ensures Protocol(left) <==>
            && Protocol(start)
            && FreshReplies(CalledIds(start), RecordedReplies(replies, |ran|, kept))
            && (|ran| < |replies| ==> LeavesNoCall(end, replies[|ran|]))
  {
    hide Protocol;
    if |ran| < |replies| { KeptAllIff(config, replies, end, |ran|, last); }
    TurnValidIff(start, replies, prompts, ran, kept, left);
  }

  // ---- A turn has one course ----

  lemma {:induction false} QuietUpTo(config: Config, u: Used, calls: seq<ToolCall>, n: nat, k: nat)
    requires k < n <= |calls| && Quiet(config, u, calls, n)
    ensures ExecutionStatus(calls[k].decision) == Continue && !OverBudget(config, Plus(u, calls, k + 1))
  {
    if k < n - 1 { QuietUpTo(config, u, calls, n - 1, k); }
  }

  /** A reply stops at one place and in one way. */
  lemma CompletedOnce(config: Config, u: Used, reply: Reply, a: nat, b: nat)
    requires Completed(config, u, reply, a) && Completed(config, u, reply, b)
    ensures a == b
  {
    hide Plus, OverBudget, ExecutionStatus;
    if 1 <= a < b { QuietUpTo(config, u, reply.calls, b - 1, a - 1); }
    if 1 <= b < a { QuietUpTo(config, u, reply.calls, a - 1, b - 1); }
  }

  lemma CompletedOrEnds(config: Config, u: Used, reply: Reply, a: nat, end: TurnEnd, last: nat)
    requires Completed(config, u, reply, a)
    ensures !EndsTurn(config, u, reply, end, last)
  {
    hide Plus, OverBudget, ExecutionStatus;
    if EndsTurn(config, u, reply, end, last) {
      if last < a { QuietUpTo(config, u, reply.calls, a - 1, last - 1); }
      if a < last { QuietUpTo(config, u, reply.calls, last - 1, a - 1); }
    }
  }

  lemma EndsOnce(config: Config, u: Used, reply: Reply, e: TurnEnd, a: nat, f: TurnEnd, b: nat)
    requires EndsTurn(config, u, reply, e, a) && EndsTurn(config, u, reply, f, b)
    ensures e == f && a == b
  {
    hide Plus, OverBudget, ExecutionStatus;
    if 1 <= a < b { QuietUpTo(config, u, reply.calls, b - 1, a - 1); }
    if 1 <= b < a { QuietUpTo(config, u, reply.calls, a - 1, b - 1); }
  }

  lemma CoursePrefix(config: Config, replies: seq<Reply>, ran: seq<nat>, k: nat)
    requires k < |ran| <= |replies| && AllCompleted(config, replies, ran) && Executable(replies, ran)
    ensures AllCompleted(config, replies, ran[..k]) && Executable(replies, ran[..k])
    ensures Completed(config, UsedBy(replies, ran[..k]), replies[k], ran[k])
  {
    hide Completed, Plus;
    if k < |ran| - 1 {
      assert ran[..|ran| - 1][..k] == ran[..k];
      CoursePrefix(config, replies, ran[..|ran| - 1], k);
    }
  }

  lemma {:induction false} CoursesAgree(config: Config, replies: seq<Reply>, a: seq<nat>, b: seq<nat>, k: nat)
    requires k <= |a| <= |replies| && k <= |b| <= |replies|
    requires AllCompleted(config, replies, a) && Executable(replies, a)
    requires AllCompleted(config, replies, b) && Executable(replies, b)
    ensures a[..k] == b[..k]
  {
    hide Completed, AllCompleted, Executable, UsedBy;
    if k > 0 {
      CoursesAgree(config, replies, a, b, k - 1);
      CoursePrefix(config, replies, a, k - 1);
      CoursePrefix(config, replies, b, k - 1);
      CompletedOnce(config, UsedBy(replies, a[..k - 1]), replies[k - 1], a[k - 1], b[k - 1]);
      assert a[..k] == a[..k - 1] + [a[k - 1]] && b[..k] == b[..k - 1] + [b[k - 1]];
    }
  }

  lemma CourseNotShorter(config: Config, replies: seq<Reply>, a: seq<nat>, e: TurnEnd, m: nat, b: seq<nat>)
    requires IsCourse(config, replies, a, e, m)
    requires |b| <= |replies| && AllCompleted(config, replies, b) && Executable(replies, b)
    ensures |b| <= |a|
  {
    hide Completed, EndsTurn, AllCompleted, Executable, UsedBy;
    if |a| < |b| {
      CoursesAgree(config, replies, a, b, |a|);
      CoursePrefix(config, replies, b, |a|);
      assert a[..|a|] == a;
      CompletedOrEnds(config, UsedBy(replies, a), replies[|a|], b[|a|], e, m);
    }
  }

  /** The replies and the limits fix how a turn goes: which replies it completes, how many calls it executes of each,
      and how it ends. */
  lemma CourseUnique(config: Config, replies: seq<Reply>, a: seq<nat>, e: TurnEnd, m: nat, b: seq<nat>, f: TurnEnd,
                     n: nat)
    requires IsCourse(config, replies, a, e, m) && IsCourse(config, replies, b, f, n)
    ensures a == b && e == f && m == n
  {
    hide Completed, EndsTurn, AllCompleted, Executable, UsedBy;
    CourseNotShorter(config, replies, a, e, m, b);
    CourseNotShorter(config, replies, b, f, n, a);
    CoursesAgree(config, replies, a, b, |a|);
    assert a[..|a|] == a && b[..|b|] == b;
    if |a| < |replies| { EndsOnce(config, UsedBy(replies, a), replies[|a|], e, m, f, n); }
  }
}
