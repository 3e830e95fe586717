/** The read-only tool loop of a chat turn (chat_runtime.rs) over the provider transcript. */
module ChatLoop {
  import opened Saturating
  import opened Text
  import opened Transcript

  datatype Status =
    | Continue | Answered | Clarifying | NeedsTask | Running | WaitingUser | WaitingApproval | Blocked | Failed
    | Interrupted

  /** The capability ids that the loop tells apart. */
  datatype Capability =
    | ChatAnswer
    | ChatClarify
    | ChatNeedsTask
    | MutationApply(id: string)
    | ProcessPreview(suffix: string)
    | ProcessRequestPreview
    | ProcessComplete
    | TerminalRunCommand
    | ReadOnly(id: string)

  /** What the tool registry decides for a call. */
  datatype Decision = Unregistered | Registered(capability: Capability)

  /** A requested tool call, with the result that executing it yields and the read usage of that result. */
  datatype ToolCall = ToolCall(id: string, decision: Decision, result: string, bytes: nat, tokens: nat)

  /** What the model returns for one subturn; a reply that is not valid fails the schema check after it is recorded. */
  datatype Reply = Reply(success: bool, valid: bool, content: string, calls: seq<ToolCall>)

  datatype Config = Config(maxSubturns: nat, maxToolCalls: nat, maxReadBytes: nat, maxReadTokens: nat,
      toolsOffered: bool)

  datatype TurnEnd =
    | ModelFailed
    | InvalidReply
    | AnsweredByModel
    | EndedByTool(status: Status)
    | OutOfSubturns
    | IoError

  datatype BatchEnd = AllAnswered | Ended(status: Status) | Fault

  /** How a batch ends, how many of its calls are executed, and the read counters then. */
  datatype Outcome = Outcome(end: BatchEnd, ran: nat, bytes: nat, tokens: nat)

  /** The status of an executed call. It is never Blocked or Failed, so that arm of the loop is dead. */
  function ExecutionStatus(d: Decision): (s: Status)
    ensures s == Continue || IsTerminal(s)
    ensures s == Continue <==> d.Registered? && d.capability.ReadOnly?
    ensures s == Answered <==> d == Registered(ChatAnswer)
    ensures s == Clarifying <==> d == Registered(ChatClarify)
  {
    match d
    case Unregistered => NeedsTask
    case Registered(MutationApply(_)) => NeedsTask
    case Registered(ProcessPreview(_)) => NeedsTask
    case Registered(ProcessRequestPreview) => NeedsTask
    case Registered(TerminalRunCommand) => NeedsTask
    case Registered(ProcessComplete) => NeedsTask
    case Registered(ChatAnswer) => Answered
    case Registered(ChatClarify) => Clarifying
    case Registered(ChatNeedsTask) => NeedsTask
    case Registered(ReadOnly(_)) => Continue
  }

  predicate IsTerminal(s: Status) { s == Answered || s == Clarifying || s == NeedsTask }

  function Ids(calls: seq<ToolCall>): (ids: seq<string>)
    ensures |ids| == |calls|
  {
    seq(|calls|, k requires 0 <= k < |calls| => calls[k].id)
  }

  const SKIPPED := "skipped"

  /** The results of the first n calls of a batch of which the first ran calls were executed and the others skipped. */
  function Results(calls: seq<ToolCall>, ran: nat, n: nat): seq<Message>
    requires n <= |calls|
  {
    seq(n, k requires 0 <= k < n => ToolResult(calls[k].id, if k < ran then calls[k].result else SKIPPED))
  }

  function BatchResults(calls: seq<ToolCall>, ran: nat): seq<Message> {
    Results(calls, ran, |calls|)
  }

  lemma NextResult(calls: seq<ToolCall>, ran: nat, n: nat)
    requires n < |calls|
    ensures Results(calls, ran, n + 1) ==
            Results(calls, ran, n) + [ToolResult(calls[n].id, if n < ran then calls[n].result else SKIPPED)]
  {
  }

  lemma NothingRecorded(calls: seq<ToolCall>, ran: nat, ms: seq<Message>)
    ensures ms + Results(calls, ran, 0) == ms && NoDup(Ids(calls)[..0])
  {
  }

  lemma OneMoreRan(calls: seq<ToolCall>, n: nat)
    requires n < |calls|
    ensures Results(calls, n + 1, n + 1) == Results(calls, n, n) + [ToolResult(calls[n].id, calls[n].result)]
  {
  }

  /** Where the loop over a batch stops, from call i on with these read counters, if no write fails:
      at the first call that exceeds the read budget or, failing that, has a terminal status. */
  function BatchOutcome(config: Config, calls: seq<ToolCall>, i: nat, bytes: nat, tokens: nat): Outcome
    requires i <= |calls|
    decreases |calls| - i
  {
    if i == |calls| then Outcome(AllAnswered, i, bytes, tokens)
    else
      var bytes', tokens' := SaturatingAdd(bytes, calls[i].bytes), SaturatingAdd(tokens, calls[i].tokens);
      var status := ExecutionStatus(calls[i].decision);
      if bytes' > config.maxReadBytes || tokens' > config.maxReadTokens
          then Outcome(AllAnswered, i + 1, bytes', tokens')
      else if status != Continue then Outcome(Ended(status), i + 1, bytes', tokens')
      else BatchOutcome(config, calls, i + 1, bytes', tokens')
  }

  function AnswerOutcome(config: Config, calls: seq<ToolCall>, executed: nat, bytes: nat, tokens: nat): Outcome {
    if executed + |calls| > config.maxToolCalls then Outcome(AllAnswered, 0, bytes, tokens)
    else BatchOutcome(config, calls, 0, bytes, tokens)
  }

  /** What one reply does if no write fails: how it ends the turn, if it does, how many of its calls are executed, and
      the read counters then. */
  datatype ReplyOutcome = ReplyOutcome(end: Option<TurnEnd>, ran: nat, bytes: nat, tokens: nat)

  function OutcomeOfReply(config: Config, reply: Reply, executed: nat, bytes: nat, tokens: nat): ReplyOutcome {
    if !reply.success then ReplyOutcome(Some(ModelFailed), 0, bytes, tokens)
    else if !reply.valid then ReplyOutcome(Some(InvalidReply), 0, bytes, tokens)
    else if reply.calls == [] then ReplyOutcome(Some(AnsweredByModel), 0, bytes, tokens)
    else
      var o := AnswerOutcome(config, reply.calls, executed, bytes, tokens);
      ReplyOutcome(if o.end.Ended? then Some(EndedByTool(o.end.status)) else None, o.ran, o.bytes, o.tokens)
  }

  datatype TurnResult = TurnResult(end: TurnEnd, done: nat, last: nat)

  /** How a turn ends from subturn k on if no write fails, the replies it processes completely, and the executed calls
      of a reply that ends it. */
  function TurnOutcome(config: Config, replies: seq<Reply>, k: nat, executed: nat, bytes: nat, tokens: nat)
    : TurnResult
    requires k <= |replies|
    decreases |replies| - k
  {
    if k == |replies| then TurnResult(OutOfSubturns, k, 0)
    else
      var o := OutcomeOfReply(config, replies[k], executed, bytes, tokens);
      match o.end
      case Some(end) => TurnResult(end, k, o.ran)
      case None => TurnOutcome(config, replies, k + 1, executed + o.ran, o.bytes, o.tokens)
  }

  lemma TurnStep(config: Config, replies: seq<Reply>, k: nat, executed: nat, bytes: nat, tokens: nat)
    requires k < |replies|
    ensures var o := OutcomeOfReply(config, replies[k], executed, bytes, tokens);
            TurnOutcome(config, replies, k, executed, bytes, tokens) ==
            if o.end.Some? then TurnResult(o.end.value, k, o.ran)
            else TurnOutcome(config, replies, k + 1, executed + o.ran, o.bytes, o.tokens)
  {
  }

  // ---- What a turn does, call by call ----

  /** What executed calls have used, in plain sums. */
  datatype Used = Used(calls: nat, bytes: nat, tokens: nat)

  const NOTHING_USED := Used(0, 0, 0)

  /** With the first n of these calls executed too. */
  function Plus(u: Used, calls: seq<ToolCall>, n: nat): (v: Used)
    requires n <= |calls|
    ensures v.calls == u.calls + n
  {
    if n == 0 then u
    else
      var before := Plus(u, calls, n - 1);
      Used(u.calls + n, before.bytes + calls[n - 1].bytes, before.tokens + calls[n - 1].tokens)
  }

  /** The counters hold 64 bits, so a limit at their maximum is never exceeded. */
  predicate OverBudget(config: Config, u: Used) {
    || (u.bytes > config.maxReadBytes && U64_MAX > config.maxReadBytes)
    || (u.tokens > config.maxReadTokens && U64_MAX > config.maxReadTokens)
  }

  /** None of the first n calls ends the batch. */
  predicate Quiet(config: Config, u: Used, calls: seq<ToolCall>, n: nat)
    requires n <= |calls|
  {
    n == 0 ||
    (&& Quiet(config, u, calls, n - 1) && ExecutionStatus(calls[n - 1].decision) == Continue
     && !OverBudget(config, Plus(u, calls, n)))
  }

  /** After u, this reply is processed completely with ran of its calls executed: none if they would exceed the total
      limit, else up to the first that exceeds the turn's read budget, else all. */
  predicate Completed(config: Config, u: Used, reply: Reply, ran: nat) {
    var calls := reply.calls;
    && reply.success && reply.valid && calls != [] && ran <= |calls|
    && if u.calls + |calls| > config.maxToolCalls then ran == 0
       else
         && 1 <= ran && Quiet(config, u, calls, ran - 1)
         && (OverBudget(config, Plus(u, calls, ran)) || (ran == |calls| && Quiet(config, u, calls, ran)))
  }

  /** After u, this reply ends the turn like this, with last of its calls executed. */
  predicate EndsTurn(config: Config, u: Used, reply: Reply, end: TurnEnd, last: nat) {
    var calls := reply.calls;
    match end
    case ModelFailed => !reply.success && last == 0
    case InvalidReply => reply.success && !reply.valid && last == 0
    case AnsweredByModel => reply.success && reply.valid && calls == [] && last == 0
    case EndedByTool(status) =>
      && reply.success && reply.valid && u.calls + |calls| <= config.maxToolCalls
      && 1 <= last <= |calls| && Quiet(config, u, calls, last - 1) && !OverBudget(config, Plus(u, calls, last))
      && status == ExecutionStatus(calls[last - 1].decision) && status != Continue
    case _ => false
  }

  /** What the turn has used after |ran| replies. */
  function UsedBy(replies: seq<Reply>, ran: seq<nat>): Used
    requires |ran| <= |replies| && Executable(replies, ran)
  {
    if ran == [] then NOTHING_USED
    else
      var n := |ran| - 1;
      Plus(UsedBy(replies, ran[..n]), replies[n].calls, ran[n])
  }

  predicate Executable(replies: seq<Reply>, ran: seq<nat>)
    requires |ran| <= |replies|
  {
    ran == [] || (Executable(replies, ran[..|ran| - 1]) && ran[|ran| - 1] <= |replies[|ran| - 1].calls|)
  }

  predicate AllCompleted(config: Config, replies: seq<Reply>, ran: seq<nat>)
    requires |ran| <= |replies|
  {
    ran == [] ||
    (var n := |ran| - 1;
     && AllCompleted(config, replies, ran[..n]) && Executable(replies, ran)
     && Completed(config, UsedBy(replies, ran[..n]), replies[n], ran[n]))
  }

  /** The turn's whole course: the replies completed, with the calls executed of each, and how the next one ends it. */
  predicate IsCourse(config: Config, replies: seq<Reply>, ran: seq<nat>, end: TurnEnd, last: nat) {
    && |ran| <= |replies| && AllCompleted(config, replies, ran) && Executable(replies, ran)
    && if |ran| == |replies| then end == OutOfSubturns && last == 0
       else EndsTurn(config, UsedBy(replies, ran), replies[|ran|], end, last)
  }

  /** What the turn has used in all. */
  function UsedAt(replies: seq<Reply>, ran: seq<nat>, last: nat): Used
    requires |ran| <= |replies| && Executable(replies, ran)
  {
    var u := UsedBy(replies, ran);
    if |ran| < |replies| && last <= |replies[|ran|].calls| then Plus(u, replies[|ran|].calls, last) else u
  }

  /** The counters of the loop stand for these sums. */
  predicate CountersShow(u: Used, executed: nat, bytes: nat, tokens: nat) {
    executed == u.calls && bytes == Min(u.bytes, U64_MAX) && tokens == Min(u.tokens, U64_MAX)
  }

  /** The counters, after one more call, and whether they exceed a limit. */
  lemma NextCall(config: Config, u: Used, calls: seq<ToolCall>, i: nat, bytes: nat, tokens: nat)
    requires i < |calls| && CountersShow(Plus(u, calls, i), u.calls + i, bytes, tokens)
    ensures var b, t := SaturatingAdd(bytes, calls[i].bytes), SaturatingAdd(tokens, calls[i].tokens);
            && CountersShow(Plus(u, calls, i + 1), u.calls + i + 1, b, t)
            && (OverBudget(config, Plus(u, calls, i + 1)) <==> b > config.maxReadBytes || t > config.maxReadTokens)
  {
  }

  /** The outcome of a batch, in the sums of the whole turn. */
  lemma {:induction false} BatchInTurn(config: Config, u: Used, calls: seq<ToolCall>, i: nat, bytes: nat, tokens: nat)
    requires i <= |calls| && Quiet(config, u, calls, i) && CountersShow(Plus(u, calls, i), u.calls + i, bytes, tokens)
    ensures var o := BatchOutcome(config, calls, i, bytes, tokens);
            && i <= o.ran <= |calls| && (i < |calls| ==> i < o.ran)
            && CountersShow(Plus(u, calls, o.ran), u.calls + o.ran, o.bytes, o.tokens)
            && (o.ran > 0 ==> Quiet(config, u, calls, o.ran - 1))
            && match o.end
               case AllAnswered =>
                 || (o.ran > 0 && OverBudget(config, Plus(u, calls, o.ran)))
                 || (o.ran == |calls| && Quiet(config, u, calls, o.ran))
               case Ended(status) =>
                 && o.ran > 0 && !OverBudget(config, Plus(u, calls, o.ran))
                 && status == ExecutionStatus(calls[o.ran - 1].decision) && status != Continue
               case Fault => false
    decreases |calls| - i
  {
    hide Plus, OverBudget, CountersShow, SaturatingAdd, ExecutionStatus;
    if i < |calls| {
      var b, t := SaturatingAdd(bytes, calls[i].bytes), SaturatingAdd(tokens, calls[i].tokens);
      NextCall(config, u, calls, i, bytes, tokens);
      if !OverBudget(config, Plus(u, calls, i + 1)) && ExecutionStatus(calls[i].decision) == Continue {
        BatchInTurn(config, u, calls, i + 1, b, t);
      }
    }
  }

  lemma ReplyInTurn(config: Config, u: Used, reply: Reply, executed: nat, bytes: nat, tokens: nat)
    requires CountersShow(u, executed, bytes, tokens)
    ensures var o := OutcomeOfReply(config, reply, executed, bytes, tokens);
            && o.ran <= |reply.calls|
            && CountersShow(Plus(u, reply.calls, o.ran), executed + o.ran, o.bytes, o.tokens)
            && (o.end.None? ==> Completed(config, u, reply, o.ran))
            && (o.end.Some? ==> EndsTurn(config, u, reply, o.end.value, o.ran))
  {
    hide BatchOutcome, OverBudget, ExecutionStatus;
    BatchInTurn(config, u, reply.calls, 0, bytes, tokens);
  }

  lemma UsedByKeeps(replies: seq<Reply>, ran: seq<nat>, stopped: nat)
    requires |ran| < |replies| && Executable(replies, ran) && stopped <= |replies[|ran|].calls|
    ensures Executable(replies, ran + [stopped])
    ensures UsedBy(replies, ran + [stopped]) == Plus(UsedBy(replies, ran), replies[|ran|].calls, stopped)
  {
    assert (ran + [stopped])[..|ran|] == ran;
  }

  lemma CompletedKeeps(config: Config, replies: seq<Reply>, ran: seq<nat>, stopped: nat)
    requires |ran| < |replies| && Executable(replies, ran) && AllCompleted(config, replies, ran)
    requires Completed(config, UsedBy(replies, ran), replies[|ran|], stopped)
    ensures Executable(replies, ran + [stopped]) && AllCompleted(config, replies, ran + [stopped])
    ensures UsedBy(replies, ran + [stopped]) == Plus(UsedBy(replies, ran), replies[|ran|].calls, stopped)
  {
    UsedByKeeps(replies, ran, stopped);
    assert (ran + [stopped])[..|ran|] == ran;
  }

  /** The bytes read once the calls from i on and before n have been executed, starting from this count. */
  function BytesUsed(calls: seq<ToolCall>, i: nat, n: nat, bytes: nat): nat
    requires n <= |calls|
    decreases n - i
  {
    if i >= n then bytes else BytesUsed(calls, i + 1, n, SaturatingAdd(bytes, calls[i].bytes))
  }

  function TokensUsed(calls: seq<ToolCall>, i: nat, n: nat, tokens: nat): nat
    requires n <= |calls|
    decreases n - i
  {
    if i >= n then tokens else TokensUsed(calls, i + 1, n, SaturatingAdd(tokens, calls[i].tokens))
  }

  /** Executing the calls from i on and before n exceeds the read budget. */
  predicate Exceeds(config: Config, calls: seq<ToolCall>, i: nat, n: nat, bytes: nat, tokens: nat)
    requires n <= |calls|
  {
    BytesUsed(calls, i, n, bytes) > config.maxReadBytes || TokensUsed(calls, i, n, tokens) > config.maxReadTokens
  }

  /** A batch stops after its first call that exceeds the read budget or, within it, has a terminal status. */
  lemma {:induction false} BatchOutcomeMeaning(config: Config, calls: seq<ToolCall>, i: nat, bytes: nat, tokens: nat)
    requires i <= |calls|
    ensures var o := BatchOutcome(config, calls, i, bytes, tokens);
            && i <= o.ran <= |calls|
            && (i < |calls| ==> i < o.ran)
            && o.bytes == BytesUsed(calls, i, o.ran, bytes) && o.tokens == TokensUsed(calls, i, o.ran, tokens)
            && (forall k :: i <= k < o.ran - 1 ==> ExecutionStatus(calls[k].decision) == Continue)
            && (forall k :: i < k < o.ran ==> !Exceeds(config, calls, i, k, bytes, tokens))
            && match o.end
               case AllAnswered =>
                 || (o.ran > i && Exceeds(config, calls, i, o.ran, bytes, tokens))
                 || (&& o.ran == |calls|
                     && forall k :: i <= k < |calls| ==> ExecutionStatus(calls[k].decision) == Continue)
               case Ended(status) =>
                 && o.ran > i && !Exceeds(config, calls, i, o.ran, bytes, tokens)
                 && status == ExecutionStatus(calls[o.ran - 1].decision) && IsTerminal(status)
               case Fault => false
    decreases |calls| - i
  {
    if i < |calls| {
      var b, t := SaturatingAdd(bytes, calls[i].bytes), SaturatingAdd(tokens, calls[i].tokens);
      BatchOutcomeMeaning(config, calls, i + 1, b, t);
      forall k | i < k <= |calls|
        ensures Exceeds(config, calls, i, k, bytes, tokens) <==> Exceeds(config, calls, i + 1, k, b, t)
      {
      }
      assert !Exceeds(config, calls, i + 1, i + 1, b, t) <==> b <= config.maxReadBytes && t <= config.maxReadTokens;
    }
  }

  /** The calls that the recorded results leave unanswered, as the recorder replays them. */
  function PendingIds(ms: seq<Message>): set<string> {
    if ms == [] then {}
    else
      var m, before := ms[|ms| - 1], PendingIds(ms[..|ms| - 1]);
      if m.role == "tool" && m.toolCallId.Some? then before - {m.toolCallId.value} else before + IdsOf(m)
  }

  lemma PendingAppend(ms: seq<Message>, m: Message)
    ensures PendingIds(ms + [m]) ==
            if m.role == "tool" && m.toolCallId.Some? then PendingIds(ms) - {m.toolCallId.value}
                else PendingIds(ms) + IdsOf(m)
  {
    assert (ms + [m])[..|ms|] == ms;
  }

  /** Message j calls the id, and no message after it answers it. */
  predicate CalledLast(ms: seq<Message>, j: nat, id: string)
    requires j < |ms|
  {
    Calls(ms[j], id) && forall k :: j < k < |ms| ==> !Answers(ms[k], id)
  }

  lemma CalledLastStep(ms: seq<Message>, j: nat, id: string)
    requires j < |ms| - 1
    ensures CalledLast(ms, j, id) <==> CalledLast(ms[..|ms| - 1], j, id) && !Answers(ms[|ms| - 1], id)
  {
    hide Calls, Answers;
    var before := ms[..|ms| - 1];
    assert forall k :: 0 <= k < |before| ==> before[k] == ms[k];
  }

  /** An id is pending exactly when some message calls it and none after that one answers it. */
  lemma {:induction false} PendingIdsMeaning(ms: seq<Message>, id: string)
    ensures id in PendingIds(ms) <==> exists j :: 0 <= j < |ms| && CalledLast(ms, j, id)
    decreases |ms|
  {
    if ms != [] {
      var n := |ms| - 1;
      PendingIdsMeaning(ms[..n], id);
      CalledOrAnswered(ms[n], id);
      assert CalledLast(ms, n, id) <==> Calls(ms[n], id);
      hide CalledLast, Calls, Answers, IdsOf;
      forall j | 0 <= j < n
        ensures CalledLast(ms, j, id) <==> CalledLast(ms[..n], j, id) && !Answers(ms[n], id)
      {
        CalledLastStep(ms, j, id);
      }
      RoleDecides(ms[n], id);
    }
  }

  lemma RoleDecides(m: Message, id: string)
    ensures Answers(m, id) ==> !Calls(m, id)
  {
  }

  lemma Associative<T>(a: seq<T>, b: seq<T>, c: seq<T>)
    ensures a + b + c == a + (b + c)
  {
  }

  lemma FirstIds(calls: seq<ToolCall>, n: nat)
    requires n < |calls|
    ensures Ids(calls)[..n + 1] == Ids(calls)[..n] + [calls[n].id]
  {
  }

  /** Each recorded result takes its id off the pending ones. */
  lemma {:induction false} PendingAfterResults(ms: seq<Message>, calls: seq<ToolCall>, ran: nat, n: nat, id: string)
    requires n <= |calls|
    ensures id in PendingIds(ms + Results(calls, ran, n)) <==> id in PendingIds(ms) && id !in Ids(calls)[..n]
  {
    hide Results, Ids, IdsOf, PendingIds, NoDup;
    if n == 0 {
      NothingRecorded(calls, ran, ms);
    } else {
      var result := ToolResult(calls[n - 1].id, if n - 1 < ran then calls[n - 1].result else SKIPPED);
      PendingAfterResults(ms, calls, ran, n - 1, id);
      NextResult(calls, ran, n - 1);
      PendingAppend(ms + Results(calls, ran, n - 1), result);
      Associative(ms, Results(calls, ran, n - 1), [result]);
      FirstIds(calls, n - 1);
    }
  }

  /** A result that the recorder takes is for an id that no earlier call of the batch had. */
  lemma TakenIsNew(ms: seq<Message>, calls: seq<ToolCall>, ran: nat, n: nat)
    requires n < |calls| && calls[n].id in PendingIds(ms + Results(calls, ran, n)) && NoDup(Ids(calls)[..n])
    ensures NoDup(Ids(calls)[..n + 1])
  {
    PendingAfterResults(ms, calls, ran, n, calls[n].id);
    FirstIds(calls, n);
    NoDupAppend(Ids(calls)[..n], calls[n].id);
  }

  /** The recorder takes no result of the n-th call. */
  predicate Refused(calls: seq<ToolCall>, n: nat, ms: seq<Message>) {
    n < |calls| && calls[n].id !in PendingIds(ms)
  }

  /** The results of calls[i..] can all be recorded while these ids are pending. */
  predicate Recordable(calls: seq<ToolCall>, i: nat, pending: set<string>)
    requires i <= |calls|
    decreases |calls| - i
  {
    i == |calls| || (calls[i].id in pending && Recordable(calls, i + 1, pending - {calls[i].id}))
  }

  lemma {:induction false} RecordableIff(calls: seq<ToolCall>, i: nat, pending: set<string>)
    requires i <= |calls|
    ensures Recordable(calls, i, pending) <==> NoDup(Ids(calls)[i..]) && IdSet(Ids(calls)[i..]) <= pending
    decreases |calls| - i
  {
    if i < |calls| {
      RecordableIff(calls, i + 1, pending - {calls[i].id});
      var rest := Ids(calls)[i..];
      assert rest == [calls[i].id] + Ids(calls)[i + 1..];
      NoDupPrepend(calls[i].id, Ids(calls)[i + 1..]);
      assert IdSet(rest) == {calls[i].id} + IdSet(Ids(calls)[i + 1..]);
    }
  }

  lemma RecordableNext(calls: seq<ToolCall>, i: nat, ms: seq<Message>, content: string)
    requires i < |calls| && Recordable(calls, i, PendingIds(ms))
    ensures calls[i].id in PendingIds(ms)
    ensures Recordable(calls, i + 1, PendingIds(ms + [ToolResult(calls[i].id, content)]))
  {
    PendingAppend(ms, ToolResult(calls[i].id, content));
  }

  lemma NoDupPrepend(id: string, ids: seq<string>)
    ensures NoDup([id] + ids) <==> NoDup(ids) && id !in ids
  {
    var longer := [id] + ids;
    assert forall k :: 0 <= k < |ids| ==> longer[k + 1] == ids[k];
    if NoDup(longer) {
      forall k | 0 <= k < |ids|
        ensures id != ids[k]
      {
        assert longer[0] != longer[k + 1];
      }
      forall i, j | 0 <= i < j < |ids|
        ensures ids[i] != ids[j]
      {
        assert longer[i + 1] != longer[j + 1];
      }
    }
  }

  /** The assistant messages of the given replies, each followed by its batch's results. */
  function Batches(replies: seq<Reply>, ran: seq<nat>): seq<Message>
    requires |replies| == |ran|
  {
    if replies == [] then []
    else
      var n := |replies| - 1;
      Batches(replies[..n], ran[..n]) + Batch(replies[n], ran[n])
  }

  function Batch(reply: Reply, ran: nat): seq<Message> {
    [Assistant(reply.content, Ids(reply.calls))] + BatchResults(reply.calls, ran)
  }

  /** The first successful reply records the user message too. */
  function Opened(ms: seq<Message>, first: bool, prompt: Message): seq<Message> {
    if first then ms + [prompt] else ms
  }

  function Recorded(ms: seq<Message>, first: bool, prompt: Message, reply: Reply): seq<Message> {
    Opened(ms, first, prompt) + [Assistant(reply.content, Ids(reply.calls))]
  }

  lemma {:induction false} TurnOutcomeMeaning(config: Config, replies: seq<Reply>, k: nat, executed: nat, bytes: nat,
                                              tokens: nat)
    requires k <= |replies|
    ensures var TurnResult(end, done, last) := TurnOutcome(config, replies, k, executed, bytes, tokens);
            && k <= done <= |replies|
            && (forall j :: k <= j < done ==> replies[j].success && replies[j].valid && replies[j].calls != [])
            && match end
               case OutOfSubturns => done == |replies|
               case ModelFailed => done < |replies| && !replies[done].success
               case InvalidReply => done < |replies| && replies[done].success && !replies[done].valid
               case AnsweredByModel =>
                 done < |replies| && replies[done].success && replies[done].valid && replies[done].calls == []
               case EndedByTool(status) =>
                 && done < |replies| && 0 < last <= |replies[done].calls| && IsTerminal(status)
                 && status == ExecutionStatus(replies[done].calls[last - 1].decision)
                 && forall j :: 0 <= j < last - 1 ==> ExecutionStatus(replies[done].calls[j].decision) == Continue
               case IoError => false
    decreases |replies| - k
  {
    hide BatchOutcome, BytesUsed, TokensUsed, Exceeds, ExecutionStatus, IsTerminal;
    if k < |replies| && replies[k].success && replies[k].valid && replies[k].calls != [] {
      var calls := replies[k].calls;
      BatchOutcomeMeaning(config, calls, 0, bytes, tokens);
      var o := AnswerOutcome(config, calls, executed, bytes, tokens);
      if o.end == AllAnswered {
        TurnOutcomeMeaning(config, replies, k + 1, executed + o.ran, o.bytes, o.tokens);
      }
    }
  }

  /** What a reply leaves in the transcript: nothing, the user message only, or the reply with the results of its first
      calls, of which the first ran were executed. */
  datatype Kept = KeptNothing | KeptPrompt | KeptReply(ran: nat, results: nat)

  predicate Fits(kept: Kept, reply: Reply) { kept.KeptReply? ==> kept.results <= |reply.calls| }

  /** What is kept when no write fails. */
  function KeptBy(end: Option<TurnEnd>, ran: nat, reply: Reply): Kept {
    match end
    case None => KeptReply(ran, |reply.calls|)
    case Some(EndedByTool(_)) => KeptReply(ran, ran)
    case Some(InvalidReply) => KeptReply(0, 0)
    case Some(AnsweredByModel) => KeptReply(0, 0)
    case _ => KeptNothing
  }

  /** What may be kept when a write fails or a result is refused: the result of one more call than were counted. */
  predicate KeptByFault(kept: Kept, counted: nat) {
    kept.KeptReply? ==> counted <= kept.ran <= counted + 1 && kept.ran <= kept.results
  }

  /** No id has two results among those kept. */
  predicate TookEachOnce(reply: Reply, kept: Kept)
    requires Fits(kept, reply)
  {
    kept.KeptReply? ==> NoDup(Ids(reply.calls)[..kept.results])
  }

  /** The first call without a result repeats the id of one with a result. */
  predicate RepeatsNext(reply: Reply, kept: Kept) {
    && kept.KeptReply? && kept.results < |reply.calls|
    && exists j :: 0 <= j < kept.results && reply.calls[j].id == reply.calls[kept.results].id
  }

  lemma RefusedIsRepeat(recorded: seq<Message>, reply: Reply, kept: Kept)
    requires kept.KeptReply? && Fits(kept, reply) && IdSet(Ids(reply.calls)) <= PendingIds(recorded)
    requires Refused(reply.calls, kept.results, recorded + Results(reply.calls, kept.ran, kept.results))
    ensures RepeatsNext(reply, kept)
  {
    var n := kept.results;
    PendingAfterResults(recorded, reply.calls, kept.ran, n, reply.calls[n].id);
    assert Ids(reply.calls)[n] in Ids(reply.calls)[..n];
    var j :| 0 <= j < n && Ids(reply.calls)[..n][j] == Ids(reply.calls)[n];
    assert reply.calls[j].id == reply.calls[n].id;
  }

  /** The transcript after one reply that came when it was ms. */
  function Left(ms: seq<Message>, first: bool, prompt: Message, reply: Reply, kept: Kept): seq<Message>
    requires Fits(kept, reply)
  {
    match kept
    case KeptNothing => ms
    case KeptPrompt => Opened(ms, first, prompt)
    case KeptReply(ran, n) => Recorded(ms, first, prompt, reply) + Results(reply.calls, ran, n)
  }

  /** The reply has calls, and each id once. */
  predicate Answerable(reply: Reply) { reply.calls != [] && NoDup(Ids(reply.calls)) }

  lemma AllTookOnce(reply: Reply, kept: Kept)
    requires kept.KeptReply? && kept.results == |reply.calls| && TookEachOnce(reply, kept)
    ensures NoDup(Ids(reply.calls))
  {
    assert Ids(reply.calls)[..kept.results] == Ids(reply.calls);
  }

  /** The most writes that leave no more than this of a reply: the call's event, the messages kept, and the events that
      go with them, three writes for an executed call and two for a skipped one. */
  function MostWrites(first: bool, kept: Kept): int {
    match kept
    case KeptNothing => 1
    case KeptPrompt => 2
    case KeptReply(ran, n) => (if first then 5 else 4) + 3 * ran + 2 * (n - ran)
  }

  /** The same for replies processed completely. */
  function MostWritesBefore(replies: seq<Reply>, ran: seq<nat>): int
    requires |ran| <= |replies|
  {
    if ran == [] then 0
    else
      var k := |ran| - 1;
      MostWritesBefore(replies, ran[..k]) + MostWrites(k == 0, KeptReply(ran[k], |replies[k].calls|))
  }

  lemma NothingDone(config: Config, replies: seq<Reply>)
    ensures MostWritesBefore(replies, []) == 0
    ensures AllCompleted(config, replies, []) && Executable(replies, []) && UsedBy(replies, []) == NOTHING_USED
  {
  }

  lemma MostWritesStep(replies: seq<Reply>, ran: seq<nat>, stopped: nat)
    requires |ran| < |replies|
    ensures MostWritesBefore(replies, ran + [stopped]) ==
            MostWritesBefore(replies, ran) + MostWrites(|ran| == 0, KeptReply(stopped, |replies[|ran|].calls|))
  {
    assert (ran + [stopped])[..|ran|] == ran;
  }

  /** kept is what the reply after done complete ones may leave. */
  predicate KeptFits(replies: seq<Reply>, done: nat, kept: Kept) {
    done < |replies| ==> Fits(kept, replies[done])
  }

  /** What is kept of the reply that ended the turn, if one did and no write failed. */
  function KeptAtEnd(replies: seq<Reply>, done: nat, end: TurnEnd, last: nat): Kept {
    if done < |replies| then KeptBy(Some(end), last, replies[done]) else KeptNothing
  }

  class ChatTurn {
    const config: Config
    const system: Message
    /** The provider transcript of the thread. */
    var transcript: seq<Message>
    /** Every request rendered for the model in this turn. */
    var requests: seq<seq<Message>>
    var executed: nat
    var readBytes: nat
    var readTokens: nat
    /** How many more writes succeed; it makes every write a possible failure point. */
    var writesLeft: nat

    constructor (config: Config, system: Message, transcript: seq<Message>, writesLeft: nat)
      ensures this.config == config && this.system == system && this.transcript == transcript &&
              this.writesLeft == writesLeft
      ensures requests == [] && executed == readBytes == readTokens == 0
    {
      this.config, this.system, this.transcript, this.writesLeft := config, system, transcript, writesLeft;
      requests, executed, readBytes, readTokens := [], 0, 0, 0;
    }

    method AppendEvent() returns (ok: bool)
      modifies this`writesLeft
      ensures ok <==> old(writesLeft) > 0
      ensures writesLeft == if ok then old(writesLeft) - 1 else old(writesLeft)
    {
      ok := writesLeft > 0;
      if ok { writesLeft := writesLeft - 1; }
    }

    /** record_provider_user_message and record_provider_assistant_response */
    method RecordMessage(m: Message) returns (ok: bool)
      modifies this`writesLeft, this`transcript
      ensures ok <==> old(writesLeft) > 0
      ensures writesLeft == if ok then old(writesLeft) - 1 else 0
      ensures transcript == if ok then old(transcript) + [m] else old(transcript)
    {
      ok := AppendEvent();
      if ok { transcript := transcript + [m]; }
    }

    /** record_provider_tool_result_with_metadata: it refuses an id that is not pending. */
    method RecordToolResult(id: string, content: string) returns (ok: bool)
      modifies this`writesLeft, this`transcript
      ensures ok <==> old(writesLeft) > 0 && id in PendingIds(old(transcript))
      ensures transcript == if ok then old(transcript) + [ToolResult(id, content)] else old(transcript)
      ensures writesLeft == if ok then old(writesLeft) - 1 else old(writesLeft)
      ensures !ok && writesLeft > 0 ==> id !in PendingIds(old(transcript))
    {
      ok := id in PendingIds(transcript);
      if ok { ok := RecordMessage(ToolResult(id, content)); }
    }

    /** append_chat_provider_tool_skipped_results_from, after the results of the first start calls were recorded.
        When it ends, whether or not a write failed, those of the first n calls are. */
    method AppendSkippedResultsFrom(calls: seq<ToolCall>, start: nat, ghost before: seq<Message>)
      returns (ok: bool, ghost n: nat)
      requires start <= |calls| && transcript == before + Results(calls, start, start) && NoDup(Ids(calls)[..start])
      modifies this`writesLeft, this`transcript
      ensures start <= n <= |calls| && (ok ==> n == |calls|)
      ensures transcript == before + Results(calls, start, n) && NoDup(Ids(calls)[..n])
      ensures old(writesLeft) <= writesLeft + 2 * (n - start)
      ensures !ok && Recordable(calls, start, PendingIds(old(transcript))) ==> writesLeft == 0
      ensures !ok && writesLeft > 0 ==> Refused(calls, n, transcript)
    {
      hide NoDup, Ids, Results, PendingIds, Recordable, ToolResult;
      ghost var fits := Recordable(calls, start, PendingIds(transcript));
      var index := start;
      n := index;
      while index < |calls|
        invariant start <= index == n <= |calls|
        invariant transcript == before + Results(calls, start, index) && NoDup(Ids(calls)[..index])
        invariant old(writesLeft) <= writesLeft + 2 * (index - start)
        invariant fits ==> Recordable(calls, index, PendingIds(transcript))
      {
        if fits { RecordableNext(calls, index, transcript, SKIPPED); }
        ok := RecordToolResult(calls[index].id, SKIPPED);
        if !ok { return; }
        NextResult(calls, start, index);
        TakenIsNew(before, calls, start, index);
        n := index + 1;
        Associative(before, Results(calls, start, index), [ToolResult(calls[index].id, SKIPPED)]);
        ok := AppendEvent();
        if !ok { return; }
        index := index + 1;
      }
      ok := true;
    }

    predicate OverReadBudget()
      reads this
    {
      readBytes > config.maxReadBytes || readTokens > config.maxReadTokens
    }

    /** execute_chat_tool_call and the accounting that follows it. */
    method ExecuteCall(call: ToolCall) returns (ok: bool, overBudget: bool)
      modifies this`writesLeft, this`transcript, this`executed, this`readBytes, this`readTokens
      ensures ok ==> transcript != old(transcript)
      ensures old(writesLeft) <= writesLeft + if transcript == old(transcript) then 1 else 3
      ensures transcript == old(transcript) || transcript == old(transcript) + [ToolResult(call.id, call.result)]
      ensures transcript != old(transcript) ==> call.id in PendingIds(old(transcript))
      ensures !ok && writesLeft > 0 ==> transcript == old(transcript) && call.id !in PendingIds(transcript)
      ensures readBytes == if ok then SaturatingAdd(old(readBytes), call.bytes) else old(readBytes)
      ensures readTokens == if ok then SaturatingAdd(old(readTokens), call.tokens) else old(readTokens)
      ensures executed == old(executed) + if ok then 1 else 0
      ensures overBudget <==> ok && OverReadBudget()
    {
      overBudget := false;
      ok := AppendEvent();
      if !ok { return; }
      ok := RecordToolResult(call.id, call.result);
      if ok { ok := AppendEvent(); }
      if !ok { return; }
      readBytes := SaturatingAdd(readBytes, call.bytes);
      readTokens := SaturatingAdd(readTokens, call.tokens);
      executed := executed + 1;
      overBudget := OverReadBudget();
    }

    /** The read budget is exceeded: the calls from ran on are skipped. */
    method SkipRest(calls: seq<ToolCall>, ran: nat, ghost start: seq<Message>) returns (ok: bool, ghost n: nat)
      requires ran <= |calls| && transcript == start + Results(calls, ran, ran) && NoDup(Ids(calls)[..ran])
      modifies this`writesLeft, this`transcript
      ensures ran <= n <= |calls| && (ok ==> n == |calls|)
      ensures transcript == start + Results(calls, ran, n) && NoDup(Ids(calls)[..n])
      ensures old(writesLeft) <= writesLeft + 2 * (n - ran) + 1
      ensures !ok && Recordable(calls, ran, PendingIds(old(transcript))) ==> writesLeft == 0
      ensures !ok && writesLeft > 0 ==> Refused(calls, n, transcript)
    {
      ok, n := AppendSkippedResultsFrom(calls, ran, start);
      if ok { ok := AppendEvent(); }
    }

    /** The body of the loop over the calls of one reply: it executes call i and says whether the batch ends there. */
    method ExecuteNext(calls: seq<ToolCall>, i: nat, ghost start: seq<Message>)
      returns (end: Option<BatchEnd>, ghost ran: nat, ghost n: nat)
      requires i < |calls| && transcript == start + Results(calls, i, i) && NoDup(Ids(calls)[..i])
      modifies this`writesLeft, this`transcript, this`executed, this`readBytes, this`readTokens
      ensures i <= ran <= i + 1 && ran <= n <= |calls| && old(executed) <= executed <= old(executed) + 1
      ensures end != Some(Fault) ==> executed == old(executed) + 1 && ran == i + 1
      ensures end == Some(Fault) ==> executed <= old(executed) + ran - i
      ensures old(writesLeft) <= writesLeft + 3 * (ran - i) + 2 * (n - ran) + if end == None then 0 else 1
      ensures transcript == start + Results(calls, ran, n) && NoDup(Ids(calls)[..n])
      ensures end == None ==>
                && n == i + 1
                && BatchOutcome(config, calls, i, old(readBytes), old(readTokens)) ==
                   BatchOutcome(config, calls, i + 1, readBytes, readTokens)
                && (Recordable(calls, i, PendingIds(old(transcript))) ==>
                   Recordable(calls, i + 1, PendingIds(transcript)))
      ensures end.Some? && end.value != Fault ==>
                && n == (if end.value.Ended? then i + 1 else |calls|)
                && BatchOutcome(config, calls, i, old(readBytes), old(readTokens)) ==
                   Outcome(end.value, i + 1, readBytes, readTokens)
      ensures end == Some(Fault) && Recordable(calls, i, PendingIds(old(transcript))) ==> writesLeft == 0
      ensures end == Some(Fault) && writesLeft > 0 ==> Refused(calls, n, transcript)
    {
      hide NoDup, Ids, Results, PendingIds, Recordable, ToolResult;
      var call := calls[i];
      if Recordable(calls, i, PendingIds(transcript)) { RecordableNext(calls, i, transcript, call.result); }
      OneMoreRan(calls, i);
      var ok, overBudget := ExecuteCall(call);
      ran, n := i, i;
      if transcript != old(transcript) {
        TakenIsNew(start, calls, i, i);
        ran, n := i + 1, i + 1;
        assert transcript == start + Results(calls, ran, n);
      }
      if !ok { end := Some(Fault); return; }
      if overBudget {
        ok, n := SkipRest(calls, i + 1, start);
        end := Some(if ok then AllAnswered else Fault);
        return;
      }
      var status := ExecutionStatus(call.decision);
      end := if status != Continue then Some(Ended(status)) else None;
    }

    /** The loop over the calls of one reply. It stops after stopped calls; the results recorded are those of the first
        n calls, of which the first ran were executed. */
    method ExecuteBatch(calls: seq<ToolCall>) returns (end: BatchEnd, stopped: nat, ghost ran: nat, ghost n: nat)
      modifies this`writesLeft, this`transcript, this`executed, this`readBytes, this`readTokens
      ensures executed == old(executed) + stopped && stopped <= ran <= stopped + 1 && ran <= n <= |calls|
      ensures transcript == old(transcript) + Results(calls, ran, n) && NoDup(Ids(calls)[..n])
      ensures old(writesLeft) <= writesLeft + 3 * ran + 2 * (n - ran) + 1
      ensures end != Fault ==>
                && ran == stopped && n == (if end.Ended? then ran else |calls|)
                && Outcome(end, stopped, readBytes, readTokens)
                   == BatchOutcome(config, calls, 0, old(readBytes), old(readTokens))
      ensures end == Fault && Recordable(calls, 0, PendingIds(old(transcript))) ==> writesLeft == 0
      ensures end == Fault && writesLeft > 0 ==> Refused(calls, n, transcript)
    {
      hide NoDup, Ids;
      ghost var start, fits := transcript, Recordable(calls, 0, PendingIds(transcript));
      ghost var outcome := BatchOutcome(config, calls, 0, readBytes, readTokens);
      var before := executed;
      stopped, ran, n := 0, 0, 0;
      NothingRecorded(calls, 0, transcript);
      while stopped < |calls|
        invariant stopped <= |calls| && executed == before + stopped && ran == n == stopped
        invariant outcome == BatchOutcome(config, calls, stopped, readBytes, readTokens)
        invariant transcript == start + Results(calls, stopped, stopped) && NoDup(Ids(calls)[..stopped])
        invariant old(writesLeft) <= writesLeft + 3 * stopped
        invariant fits ==> Recordable(calls, stopped, PendingIds(transcript))
      {
        var stop;
        stop, ran, n := ExecuteNext(calls, stopped, start);
        stopped := executed - before;
        if stop.Some? { end := stop.value; return; }
      }
      end := AllAnswered;
    }

    /** The tool calls of one recorded reply: skipped if they would exceed the total limit, else executed. */
    method AnswerBatch(calls: seq<ToolCall>) returns (end: BatchEnd, stopped: nat, ghost ran: nat, ghost n: nat)
      requires executed <= config.maxToolCalls
      modifies this`writesLeft, this`transcript, this`executed, this`readBytes, this`readTokens
      ensures executed == old(executed) + stopped <= config.maxToolCalls
      ensures stopped <= ran <= stopped + 1 && ran <= n <= |calls|
      ensures transcript == old(transcript) + Results(calls, ran, n) && NoDup(Ids(calls)[..n])
      ensures old(writesLeft) <= writesLeft + 3 * ran + 2 * (n - ran) + 1
      ensures end != Fault ==>
                && ran == stopped && n == (if end.Ended? then ran else |calls|)
                && Outcome(end, stopped, readBytes, readTokens)
                   == AnswerOutcome(config, calls, old(executed), old(readBytes), old(readTokens))
      ensures end == Fault && Recordable(calls, 0, PendingIds(old(transcript))) ==> writesLeft == 0
      ensures end == Fault && writesLeft > 0 ==> Refused(calls, n, transcript)
    {
      hide NoDup, Ids;
      if executed + |calls| > config.maxToolCalls {
        var ok;
        NothingRecorded(calls, 0, transcript);
        ok, n := SkipRest(calls, 0, transcript);
        return if ok then AllAnswered else Fault, 0, 0, n;
      }
      end, stopped, ran, n := ExecuteBatch(calls);
    }

    /** One round of the provider loop: a model call and, if it asks for tools, its batch.
        stopped says how many calls were executed, kept what the reply left in the transcript. */
    method Subturn(first: bool, reply: Reply, prompt: Message)
      returns (end: Option<TurnEnd>, stopped: nat, ghost kept: Kept)
      requires executed <= config.maxToolCalls
      modifies this
      ensures executed == old(executed) + stopped <= config.maxToolCalls
      ensures requests == old(requests)
              || requests == old(requests) +
                 [Rendered(system, prompt, if config.toolsOffered then old(transcript) else [], first)]
      ensures requests == old(requests) ==> end == Some(IoError)
      ensures end != Some(OutOfSubturns) && (end == None ==> reply.calls != [])
      ensures end != Some(IoError) ==>
                OutcomeOfReply(config, reply, old(executed), old(readBytes), old(readTokens))
                == ReplyOutcome(end, stopped, readBytes, readTokens)
      ensures Fits(kept, reply) && transcript == Left(old(transcript), first, prompt, reply, kept)
      ensures if end == Some(IoError) then KeptByFault(kept, stopped) else kept == KeptBy(end, stopped, reply)
      ensures TookEachOnce(reply, kept)
      ensures old(writesLeft) <= writesLeft + MostWrites(first, kept)
      ensures end == Some(IoError) ==> writesLeft == 0 || RepeatsNext(reply, kept)
    {
      hide NoDup, Ids, Rendered;
      stopped, kept := 0, KeptNothing;
      var ok := AppendEvent();
      if !ok { end := Some(IoError); return; }
      var request := RenderDeepseekMessages(system, prompt, if config.toolsOffered then transcript else [], first);
      requests := requests + [request];
      if !reply.success { end := Some(ModelFailed); return; }
      ok, kept := RecordReply(first, prompt, reply);
      if !ok { end := Some(IoError); return; }
      if !reply.valid { end := Some(InvalidReply); return; }
      if reply.calls == [] { end := Some(AnsweredByModel); return; }
      ghost var recorded := transcript;
      NothingRecorded(reply.calls, 0, Recorded(old(transcript), first, prompt, reply));
      var batchEnd: BatchEnd;
      ghost var ran, n;
      batchEnd, stopped, ran, n := AnswerBatch(reply.calls);
      kept := KeptReply(ran, n);
      match batchEnd {
        case AllAnswered => end := None;
        case Ended(status) => end := Some(EndedByTool(status));
        case Fault =>
          end := Some(IoError);
          if writesLeft > 0 { RefusedIsRepeat(recorded, reply, kept); }
      }
    }

    /** The transcript part of a successful model call: the user message in the first subturn, then the reply. */
    method RecordReply(first: bool, prompt: Message, reply: Reply) returns (ok: bool, ghost kept: Kept)
      modifies this`writesLeft, this`transcript
      ensures kept == KeptNothing || kept == KeptPrompt || kept == KeptReply(0, 0)
      ensures transcript == Left(old(transcript), first, prompt, reply, kept) && TookEachOnce(reply, kept)
      ensures ok ==> kept == KeptReply(0, 0)
      ensures old(writesLeft) < writesLeft + MostWrites(first, kept)
      ensures ok ==> old(writesLeft) == writesLeft + if first then 3 else 2
      ensures ok && NoDup(Ids(reply.calls)) ==> Recordable(reply.calls, 0, PendingIds(transcript))
      ensures ok ==> IdSet(Ids(reply.calls)) <= PendingIds(transcript)
      ensures !ok ==> writesLeft == 0
    {
      hide NoDup, Ids;
      kept := KeptNothing;
      if first {
        ok := RecordMessage(prompt);
        if !ok { return; }
        kept := KeptPrompt;
      }
      PendingAppend(transcript, Assistant(reply.content, Ids(reply.calls)));
      ok := RecordMessage(Assistant(reply.content, Ids(reply.calls)));
      NothingRecorded(reply.calls, 0, transcript);
      RecordableIff(reply.calls, 0, PendingIds(transcript));
      assert Ids(reply.calls)[0..] == Ids(reply.calls);
      if ok {
        kept := KeptReply(0, 0);
        ok := AppendEvent();
      }
    }

    /** run_provider_loop. replies[k] is what the model answers in subturn k, prompts[k] the user message that its
        request would carry. done counts the replies processed completely, ran[k] the executed calls of the k-th of
        them, last those of a reply that ended the turn, and kept is what that reply left in the transcript. */
    method RunProviderLoop(replies: seq<Reply>, prompts: seq<Message>)
      returns (end: TurnEnd, ghost done: nat, ghost ran: seq<nat>, ghost last: nat, ghost kept: Kept)
      requires |replies| == |prompts| == config.maxSubturns
      requires requests == [] && executed == readBytes == readTokens == 0
      modifies this
      ensures |ran| == done <= |requests| <= done + 1 && |requests| <= |replies|
      // how it ends
      ensures end != IoError ==> TurnResult(end, done, last) == TurnOutcome(config, replies, 0, 0, 0, 0)
      ensures forall k :: 0 <= k < done ==> Answerable(replies[k])
      // what it executes and reads
      ensures AllCompleted(config, replies, ran) && Executable(replies, ran)
      ensures end != IoError ==>
                && IsCourse(config, replies, ran, end, last)
                && CountersShow(UsedAt(replies, ran, last), executed, readBytes, readTokens)
      // what the model is sent in each subturn
      ensures requests == Sent(old(transcript), replies, prompts, ran, |requests|)
      // what the turn leaves behind, whatever fails
      ensures KeptFits(replies, done, kept) && transcript == Final(old(transcript), replies, prompts, ran, kept)
      ensures end != IoError ==> kept == KeptAtEnd(replies, done, end, last)
      ensures done < |replies| ==> TookEachOnce(replies[done], kept)
      // and no message that was written is lost: what is kept accounts for every write
      ensures old(writesLeft) <= writesLeft + MostWritesBefore(replies, ran)
                                 + if done < |replies| then MostWrites(done == 0, kept) else 0
      // the total tool-call limit holds, and an error needs a failed write or a call that repeats an id
      ensures executed <= config.maxToolCalls
      ensures end == IoError ==>
                && done < |replies| && KeptByFault(kept, last)
                && (writesLeft == 0 || RepeatsNext(replies[done], kept))
    {
      NothingDone(config, replies);
      hide Left, Rendered, OutcomeOfReply, NoDup, Ids, KeptByFault, TookEachOnce, KeptBy, Completed, EndsTurn, Plus,
        MostWrites, MostWritesBefore, AllCompleted, Executable, UsedBy;
      ghost var start, outcome := transcript, TurnOutcome(config, replies, 0, 0, 0, 0);
      done, ran, last, kept := 0, [], 0, KeptNothing;
      var k := 0;
      while k < config.maxSubturns
        invariant 0 <= k <= config.maxSubturns && done == k == |ran|
        invariant transcript == Before(start, replies, prompts, ran, k)
        invariant last == 0 && outcome == TurnOutcome(config, replies, k, executed, readBytes, readTokens)
        invariant forall j :: 0 <= j < k ==> Answerable(replies[j])
        invariant requests == Sent(start, replies, prompts, ran, k)
        invariant executed <= config.maxToolCalls && kept == KeptNothing
        invariant AllCompleted(config, replies, ran) && Executable(replies, ran)
        invariant CountersShow(UsedBy(replies, ran), executed, readBytes, readTokens)
        invariant old(writesLeft) <= writesLeft + MostWritesBefore(replies, ran)
      {
        TurnStep(config, replies, k, executed, readBytes, readTokens);
        ReplyInTurn(config, UsedBy(replies, ran), replies[k], executed, readBytes, readTokens);
        var stop, stopped;
        ghost var left;
        stop, stopped, left := Round(k, replies, prompts, start, ran);
        if stop.Some? {
          last, kept := stopped, left;
          end := stop.value;
          return;
        }
        CompletedKeeps(config, replies, ran, stopped);
        MostWritesStep(replies, ran, stopped);
        ran := ran + [stopped];
        done := done + 1;
        k := k + 1;
      }
      end := OutOfSubturns;
    }

    /** The body of the loop over subturns. */
    method Round(k: nat, replies: seq<Reply>, prompts: seq<Message>, ghost start: seq<Message>, ghost ran: seq<nat>)
      returns (end: Option<TurnEnd>, stopped: nat, ghost kept: Kept)
      requires k == |ran| < |replies| == |prompts| && executed <= config.maxToolCalls
      requires transcript == Before(start, replies, prompts, ran, k)
      requires requests == Sent(start, replies, prompts, ran, k)
      modifies this
      ensures executed == old(executed) + stopped <= config.maxToolCalls
      ensures requests == Sent(start, replies, prompts, ran, k) || requests == Sent(start, replies, prompts, ran, k + 1)
      ensures Fits(kept, replies[k]) && TookEachOnce(replies[k], kept)
      ensures end == None ==>
                && Answerable(replies[k]) && kept == KeptReply(stopped, |replies[k].calls|)
                && transcript == Before(start, replies, prompts, ran + [stopped], k + 1)
                && requests == Sent(start, replies, prompts, ran + [stopped], k + 1)
      ensures end.Some? ==> end.value != OutOfSubturns && transcript == Final(start, replies, prompts, ran, kept)
      ensures if end == Some(IoError) then KeptByFault(kept, stopped) else kept == KeptBy(end, stopped, replies[k])
      ensures old(writesLeft) <= writesLeft + MostWrites(k == 0, kept)
      ensures end != Some(IoError) ==>
                OutcomeOfReply(config, replies[k], old(executed), old(readBytes), old(readTokens))
                == ReplyOutcome(end, stopped, readBytes, readTokens)
      ensures end == Some(IoError) ==> writesLeft == 0 || RepeatsNext(replies[k], kept)
    {
      hide Left, Rendered, OutcomeOfReply, NoDup, Ids, KeptByFault;
      end, stopped, kept := Subturn(k == 0, replies[k], prompts[k]);
      if end == None {
        AllTookOnce(replies[k], kept);
        BeforeKeeps(start, replies, prompts, ran, k, stopped);
        SentKeeps(start, replies, prompts, ran, k + 1, stopped);
      }
    }

    /** The transcript a turn leaves behind after |ran| complete replies, if the next one leaves that much. */
    static ghost function Final(start: seq<Message>, replies: seq<Reply>, prompts: seq<Message>, ran: seq<nat>,
                                kept: Kept): seq<Message>
      requires |ran| <= |replies| == |prompts| && KeptFits(replies, |ran|, kept)
    {
      var k := |ran|;
      var before := Before(start, replies, prompts, ran, k);
      if k < |replies| then Left(before, k == 0, prompts[k], replies[k], kept) else before
    }

    /** The transcript before subturn k: each earlier reply has been recorded and all its calls answered. */
    static ghost function Before(start: seq<Message>, replies: seq<Reply>, prompts: seq<Message>, ran: seq<nat>,
                                 k: nat): seq<Message>
      requires k <= |ran| && k <= |replies| == |prompts|
    {
      if k == 0 then start
      else
        var reply := replies[k - 1];
        Left(Before(start, replies, prompts, ran, k - 1), k == 1, prompts[k - 1], reply,
             KeptReply(ran[k - 1], |reply.calls|))
    }

    ghost function RequestFor(start: seq<Message>, replies: seq<Reply>, prompts: seq<Message>, ran: seq<nat>,
                              k: nat): seq<Message>
      requires k <= |ran| && k < |replies| == |prompts|
    {
      Rendered(system, prompts[k], if config.toolsOffered then Before(start, replies, prompts, ran, k) else [], k == 0)
    }

    static lemma {:induction false} BeforeKeeps(start: seq<Message>, replies: seq<Reply>, prompts: seq<Message>,
                                                ran: seq<nat>, k: nat, stopped: nat)
      requires k <= |ran| && k <= |replies| == |prompts|
      ensures Before(start, replies, prompts, ran + [stopped], k) == Before(start, replies, prompts, ran, k)
    {
      if k > 0 { BeforeKeeps(start, replies, prompts, ran, k - 1, stopped); }
    }

    /** The requests of the first n subturns. */
    ghost function Sent(start: seq<Message>, replies: seq<Reply>, prompts: seq<Message>, ran: seq<nat>,
                        n: nat): (sent: seq<seq<Message>>)
      requires n <= |ran| + 1 && n <= |replies| == |prompts|
      ensures |sent| == n
    {
      if n == 0 then []
      else Sent(start, replies, prompts, ran, n - 1) + [RequestFor(start, replies, prompts, ran, n - 1)]
    }

    lemma {:induction false} SentKeeps(start: seq<Message>, replies: seq<Reply>, prompts: seq<Message>, ran: seq<nat>,
                                       n: nat, stopped: nat)
      requires n <= |ran| + 1 && n <= |replies| == |prompts|
      ensures Sent(start, replies, prompts, ran + [stopped], n) == Sent(start, replies, prompts, ran, n)
    {
      hide Left, Rendered;
      if n > 0 {
        SentKeeps(start, replies, prompts, ran, n - 1, stopped);
        BeforeKeeps(start, replies, prompts, ran, n - 1, stopped);
      }
    }

    lemma {:induction false} SentAt(start: seq<Message>, replies: seq<Reply>, prompts: seq<Message>, ran: seq<nat>,
                                    n: nat, k: nat)
      requires k < n <= |ran| + 1 && n <= |replies| == |prompts|
      ensures Sent(start, replies, prompts, ran, n)[k] == RequestFor(start, replies, prompts, ran, k)
    {
      hide Rendered;
      if k < n - 1 { SentAt(start, replies, prompts, ran, n - 1, k); }
    }
  }
}
