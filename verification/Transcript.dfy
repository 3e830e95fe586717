/** The provider transcript protocol: its validator (context_compaction.rs) and the messages
    a request is rendered to (deepseek_provider.rs). */
module Transcript {
  import opened Text

  /** A transcript message; of a tool call only the id matters to the protocol. */
  datatype Message = Message(role: string, content: string, toolCalls: seq<string>, toolCallId: Option<string>)

  datatype ValidationError =
    | AssistantCarriesToolCallId(index: nat)
    | EmptyToolCallId(index: nat)
    | DuplicateToolCallId(id: string)
    | MissingToolCallId(index: nat)
    | OrphanToolMessage(id: string)
    | NestedToolCalls(index: nat)
    | ToolFieldsOnPlainMessage(index: nat)
    | UnsupportedRole(role: string)

  datatype Receipt = Receipt(valid: bool, messageCount: nat, pendingToolCallIds: set<string>,
      errors: seq<ValidationError>)

  // ---- The protocol, declaratively ----

  predicate Calls(m: Message, id: string) { m.role == "assistant" && id in m.toolCalls }

  predicate Answers(m: Message, id: string) { m.role == "tool" && m.toolCallId == Some(id) }

  predicate IsPlain(m: Message) { m.role == "system" || m.role == "user" }

  /** A known role with only the tool fields that role may carry. */
  predicate FieldsOk(m: Message) {
    match m.role
    case "assistant" => m.toolCallId == None && NoDup(m.toolCalls) && forall id :: id in m.toolCalls ==> !IsBlank(id)
    case "tool" => m.toolCallId.Some? && m.toolCalls == []
    case _ => IsPlain(m) && m.toolCallId == None && m.toolCalls == []
  }

  ghost predicate CalledIn(ms: seq<Message>, id: string) {
    exists j :: 0 <= j < |ms| && Calls(ms[j], id)
  }

  ghost predicate AnsweredIn(ms: seq<Message>, id: string) {
    exists j :: 0 <= j < |ms| && Answers(ms[j], id)
  }

  /** The messages follow the protocol, except that calls may still be unanswered: fields are well formed,
      ids are globally unique, and each tool message answers an earlier call that no other one answers. */
  ghost predicate Open(ms: seq<Message>) {
    && (forall i :: 0 <= i < |ms| ==> FieldsOk(ms[i]))
    && (forall i, j, id :: 0 <= i < j < |ms| ==> !(Calls(ms[i], id) && Calls(ms[j], id)))
    && (forall i, j, id :: 0 <= i < j < |ms| ==> !(Answers(ms[i], id) && Answers(ms[j], id)))
    && (forall k, id :: 0 <= k < |ms| && Answers(ms[k], id) ==> CalledIn(ms[..k], id))
  }

  /** The protocol: an open transcript whose every call is answered. */
  ghost predicate Protocol(ms: seq<Message>) {
    Open(ms) && forall id :: CalledIn(ms, id) ==> AnsweredIn(ms, id)
  }

  // ---- The same protocol, one message at a time ----

  function IdsOf(m: Message): set<string> {
    if m.role == "assistant" then set id | id in m.toolCalls else {}
  }

  function CalledIds(ms: seq<Message>): set<string> {
    if ms == [] then {} else CalledIds(ms[..|ms| - 1]) + IdsOf(ms[|ms| - 1])
  }

  /** The ids that a tool message answers after their call. */
  function AnsweredIds(ms: seq<Message>): set<string> {
    if ms == [] then {}
    else
      var m, before := ms[|ms| - 1], ms[..|ms| - 1];
      AnsweredIds(before) +
      (if m.role == "tool" && m.toolCallId.Some? && m.toolCallId.value in CalledIds(before) then {m.toolCallId.value}
          else {})
  }

  /** What m must satisfy after messages that called and answered these ids. */
  predicate MessageOk(m: Message, called: set<string>, answered: set<string>) {
    && FieldsOk(m)
    && IdsOf(m) !! called
    && (m.role == "tool" ==> m.toolCallId.value in called - answered)
  }

  predicate OpenStepwise(ms: seq<Message>) {
    ms == [] ||
    (var before := ms[..|ms| - 1];
     OpenStepwise(before) && MessageOk(ms[|ms| - 1], CalledIds(before), AnsweredIds(before)))
  }

  lemma {:induction false} CalledIdsMeaning(ms: seq<Message>)
    ensures forall id :: id in CalledIds(ms) <==> CalledIn(ms, id)
  {
    if ms != [] {
      var before := ms[..|ms| - 1];
      CalledIdsMeaning(before);
      forall id
        ensures id in CalledIds(ms) <==> CalledIn(ms, id)
      {
        if CalledIn(before, id) {
          var j :| 0 <= j < |before| && Calls(before[j], id);
          assert Calls(ms[j], id);
        }
        if Calls(ms[|before|], id) { assert CalledIn(ms, id); }
        if CalledIn(ms, id) {
          var j :| 0 <= j < |ms| && Calls(ms[j], id);
          assert j < |before| ==> Calls(before[j], id);
        }
      }
    }
  }

  lemma OpenAppend(before: seq<Message>, m: Message)
    ensures Open(before + [m]) <==>
            && Open(before) && FieldsOk(m)
            && (forall id :: Calls(m, id) ==> !CalledIn(before, id))
            && (forall id :: Answers(m, id) ==> CalledIn(before, id) && !AnsweredIn(before, id))
  {
    var ms := before + [m];
    assert ms[|before|] == m && ms[..|before|] == before;
    assert forall i :: 0 <= i < |before| ==> ms[i] == before[i] && ms[..i] == before[..i];
    if Open(ms) {
      forall i | 0 <= i < |before|
        ensures FieldsOk(before[i])
      {
        assert FieldsOk(ms[i]);
      }
      forall k, id | 0 <= k < |before| && Answers(before[k], id)
        ensures CalledIn(before[..k], id)
      {
        assert Answers(ms[k], id);
      }
    }
  }

  lemma AnsweredAppend(before: seq<Message>, m: Message, id: string)
    ensures AnsweredIn(before + [m], id) <==> AnsweredIn(before, id) || Answers(m, id)
  {
    var ms := before + [m];
    if AnsweredIn(before, id) {
      var j :| 0 <= j < |before| && Answers(before[j], id);
      assert Answers(ms[j], id);
    }
    if Answers(m, id) { assert Answers(ms[|before|], id); }
  }

  /** The stepwise definitions, for a list given with its last message. */
  lemma Extend(before: seq<Message>, m: Message)
    ensures AnsweredIds(before + [m]) == AnsweredIds(before) +
              (if m.role == "tool" && m.toolCallId.Some? && m.toolCallId.value in CalledIds(before)
                  then {m.toolCallId.value} else {})
    ensures CalledIds(before + [m]) == CalledIds(before) + IdsOf(m)
    ensures OpenStepwise(before + [m]) <==> OpenStepwise(before) && MessageOk(m, CalledIds(before), AnsweredIds(before))
  {
    assert (before + [m])[..|before|] == before;
  }

  lemma CalledOrAnswered(m: Message, id: string)
    ensures id in IdsOf(m) <==> Calls(m, id)
    ensures m.role == "tool" && m.toolCallId == Some(id) <==> Answers(m, id)
  {
  }

  lemma {:induction false} CalledNotBlank(ms: seq<Message>)
    requires OpenStepwise(ms)
    ensures forall id :: id in CalledIds(ms) ==> !IsBlank(id)
  {
    hide IsBlank, NoDup;
    if ms != [] { CalledNotBlank(ms[..|ms| - 1]); }
  }

  /** In an open transcript every answer follows its call, and no called id is blank. */
  lemma {:induction false} OpenIffStepwise(ms: seq<Message>)
    ensures Open(ms) <==> OpenStepwise(ms)
    ensures Open(ms) ==>
              forall id :: (id in AnsweredIds(ms) <==> AnsweredIn(ms, id)) && (id in CalledIds(ms) ==> !IsBlank(id))
    ensures AnsweredIds(ms) <= CalledIds(ms)
  {
    if OpenStepwise(ms) { CalledNotBlank(ms); }
    hide FieldsOk, IsBlank, Open;
    if ms == [] {
      NothingOpen(ms);
    } else {
      var before, m := ms[..|ms| - 1], ms[|ms| - 1];
      assert ms == before + [m];
      OpenIffStepwise(before);
      OpenAppend(before, m);
      CalledIdsMeaning(before);
      Extend(before, m);
      forall id
        ensures AnsweredIn(ms, id) <==> AnsweredIn(before, id) || Answers(m, id)
        ensures id in IdsOf(m) <==> Calls(m, id)
        ensures m.role == "tool" && m.toolCallId == Some(id) <==> Answers(m, id)
      {
        AnsweredAppend(before, m, id);
        CalledOrAnswered(m, id);
      }
    }
  }

  lemma NothingOpen(ms: seq<Message>)
    requires ms == []
    ensures Open(ms)
  {
  }

  /** The protocol in terms of the two id sets. */
  predicate Closed(ms: seq<Message>) {
    OpenStepwise(ms) && CalledIds(ms) == AnsweredIds(ms)
  }

  lemma ProtocolIffClosed(ms: seq<Message>)
    ensures Protocol(ms) <==> Closed(ms)
  {
    OpenIffStepwise(ms);
    CalledIdsMeaning(ms);
  }

  // ---- The validator ----

  ghost function NonBlank(ids: set<string>): set<string> {
    set id | id in ids && !IsBlank(id)
  }

  /** What is wrong with the calls of one assistant message, when these ids are known already. */
  function CallFaults(calls: seq<string>, index: nat, known: set<string>): seq<ValidationError> {
    if calls == [] then []
    else
      var n := |calls| - 1;
      CallFaults(calls[..n], index, known) +
      (if IsBlank(calls[n]) then [EmptyToolCallId(index)]
       else if calls[n] in known || calls[n] in calls[..n] then [DuplicateToolCallId(calls[n])]
       else [])
  }

  /** What is wrong with one message, when these ids await an answer and these have one. */
  function FaultsOf(m: Message, index: nat, pending: set<string>, completed: set<string>): seq<ValidationError> {
    match m.role
    case "assistant" =>
      (if m.toolCallId.Some? then [AssistantCarriesToolCallId(index)] else [])
      + CallFaults(m.toolCalls, index, pending + completed)
    case "tool" =>
      if m.toolCallId.None? then [MissingToolCallId(index)]
      else
        (if m.toolCallId.value in pending then [] else [OrphanToolMessage(m.toolCallId.value)])
        + (if m.toolCalls == [] then [] else [NestedToolCalls(index)])
    case _ =>
      if !IsPlain(m) then [UnsupportedRole(m.role)]
      else if m.toolCallId.Some? || m.toolCalls != [] then [ToolFieldsOnPlainMessage(index)]
      else []
  }

  /** What is wrong with a transcript, message by message. */
  ghost function Faults(ms: seq<Message>): seq<ValidationError> {
    if ms == [] then []
    else
      var before := ms[..|ms| - 1];
      Faults(before) + FaultsOf(ms[|before|], |before|, NonBlank(CalledIds(before) - AnsweredIds(before)),
                                NonBlank(AnsweredIds(before)))
  }

  lemma FaultsStep(before: seq<Message>, m: Message)
    ensures Faults(before + [m]) ==
            Faults(before) + FaultsOf(m, |before|, NonBlank(CalledIds(before) - AnsweredIds(before)),
                                      NonBlank(AnsweredIds(before)))
  {
    assert (before + [m])[..|before|] == before;
  }

  method ValidateDeepseekNativeMessages(ms: seq<Message>) returns (receipt: Receipt)
    ensures receipt.valid <==> Protocol(ms)
    ensures receipt.errors == [] <==> Open(ms)
    ensures receipt.errors == Faults(ms)
    ensures receipt.messageCount == |ms|
    ensures receipt.pendingToolCallIds == NonBlank(CalledIds(ms) - AnsweredIds(ms))
  {
    hide Protocol, Open, NoDup, IsBlank, OpenStepwise, CalledIds, AnsweredIds, CallFaults, Faults;
    assert Faults([]) == [] by { NoFaults([]); }
    NothingTracked(ms[..0]);
    var errors: seq<ValidationError> := [];
    var pending: map<string, nat> := map[];
    var completed: set<string> := {};
    var index := 0;
    while index < |ms|
      invariant 0 <= index <= |ms|
      invariant errors == [] <==> OpenStepwise(ms[..index])
      invariant errors == Faults(ms[..index])
      invariant pending.Keys == NonBlank(CalledIds(ms[..index]) - AnsweredIds(ms[..index]))
      invariant completed == NonBlank(AnsweredIds(ms[..index]))
    {
      var m := ms[index];
      ghost var before := ms[..index];
      assert ms[..index + 1] == before + [m];
      OpenIffStepwise(before);
      TrackedStep(before, m, pending.Keys, completed);
      FaultsStep(before, m);
      match m.role {
        case "assistant" =>
          if m.toolCallId.Some? {
            errors := errors + [AssistantCarriesToolCallId(index)];
          }
          errors, pending := TakeCalls(m.toolCalls, index, errors, pending, completed);
        case "tool" =>
          match m.toolCallId {
            case None =>
              errors := errors + [MissingToolCallId(index)];
            case Some(id) =>
              if id !in pending {
                errors := errors + [OrphanToolMessage(id)];
              } else {
                pending := pending - {id};
                completed := completed + {id};
              }
              if m.toolCalls != [] {
                errors := errors + [NestedToolCalls(index)];
              }
          }
        case _ =>
          if IsPlain(m) {
            if m.toolCallId.Some? || m.toolCalls != [] {
              errors := errors + [ToolFieldsOnPlainMessage(index)];
            }
          } else {
            errors := errors + [UnsupportedRole(m.role)];
          }
      }
      index := index + 1;
    }
    assert ms[..index] == ms;
    receipt := Receipt(errors == [] && pending == map[], |ms|, pending.Keys, errors);
    Verdict(ms, pending.Keys);
    assert pending == map[] <==> pending.Keys == {};
  }

  lemma Verdict(ms: seq<Message>, pending: set<string>)
    requires pending == NonBlank(CalledIds(ms) - AnsweredIds(ms))
    ensures Open(ms) <==> OpenStepwise(ms)
    ensures Protocol(ms) <==> OpenStepwise(ms) && pending == {}
  {
    hide Protocol, Open, IsBlank, OpenStepwise, CalledIds, AnsweredIds;
    OpenIffStepwise(ms);
    ProtocolIffClosed(ms);
    assert Open(ms) ==> pending == CalledIds(ms) - AnsweredIds(ms);
    NoneLeft(CalledIds(ms), AnsweredIds(ms));
  }

  lemma NoneLeft(called: set<string>, answered: set<string>)
    requires answered <= called
    ensures called - answered == {} <==> called == answered
  {
    assert called == answered + (called - answered);
  }

  lemma NoFaults(ms: seq<Message>)
    requires ms == []
    ensures Faults(ms) == []
  {
  }

  lemma NothingTracked(ms: seq<Message>)
    requires ms == []
    ensures OpenStepwise(ms) && CalledIds(ms) == {} == AnsweredIds(ms)
  {
  }

  /** How one message changes what the validator tracks, and when it keeps the transcript open. */
  lemma TrackedStep(before: seq<Message>, m: Message, pending: set<string>, completed: set<string>)
    requires pending == NonBlank(CalledIds(before) - AnsweredIds(before)) && completed == NonBlank(AnsweredIds(before))
    requires AnsweredIds(before) <= CalledIds(before)
    ensures var ms := before + [m];
            var stillPending := NonBlank(CalledIds(ms) - AnsweredIds(ms));
            match m.role
            case "assistant" =>
              && completed == NonBlank(AnsweredIds(ms))
              && stillPending == pending + (NonBlank(IdsOf(m)) - completed)
              && (OpenStepwise(ms) <==> && OpenStepwise(before) && m.toolCallId == None && NoDup(m.toolCalls)
                                        && forall id :: id in m.toolCalls ==>
                                           !IsBlank(id) && id !in pending + completed)
            case "tool" =>
              if m.toolCallId.Some? && m.toolCallId.value in pending then
                && completed + {m.toolCallId.value} == NonBlank(AnsweredIds(ms))
                && stillPending == pending - {m.toolCallId.value}
                && (OpenStepwise(ms) <==> OpenStepwise(before) && m.toolCalls == [])
              else
                && completed == NonBlank(AnsweredIds(ms)) && stillPending == pending && !OpenStepwise(ms)
            case _ =>
              && completed == NonBlank(AnsweredIds(ms)) && stillPending == pending
              && (OpenStepwise(ms) <==> OpenStepwise(before) && FieldsOk(m))
  {
    var ms := before + [m];
    assert ms[..|before|] == before;
    OpenIffStepwise(before);
  }

  lemma NoCallFaults(index: nat, known: set<string>)
    ensures CallFaults([], index, known) == [] && NoDup<string>([])
  {
  }

  lemma CallFaultsStep(calls: seq<string>, id: string, index: nat, known: set<string>)
    ensures CallFaults(calls + [id], index, known) == CallFaults(calls, index, known) +
              (if IsBlank(id) then [EmptyToolCallId(index)]
               else if id in known || id in calls then [DuplicateToolCallId(id)]
               else [])
  {
    assert (calls + [id])[..|calls|] == calls;
  }

  /** The loop over one assistant message's calls. */
  method TakeCalls(calls: seq<string>, index: nat, errors0: seq<ValidationError>, pending0: map<string, nat>,
                   completed: set<string>)
    returns (errors: seq<ValidationError>, pending: map<string, nat>)
    ensures errors == [] <==>
            && errors0 == [] && NoDup(calls)
            && forall id :: id in calls ==> !IsBlank(id) && id !in pending0.Keys + completed
    ensures errors == errors0 + CallFaults(calls, index, pending0.Keys + completed)
    ensures forall id :: id in pending <==> id in pending0 || (id in calls && !IsBlank(id) && id !in completed)
  {
    hide NoDup, IsBlank, CallFaults;
    NoCallFaults(index, pending0.Keys + completed);
    errors, pending := errors0, pending0;
    var a := 0;
    while a < |calls|
      invariant 0 <= a <= |calls|
      invariant errors == [] <==>
                && errors0 == [] && NoDup(calls[..a])
                && forall id :: id in calls[..a] ==> !IsBlank(id) && id !in pending0.Keys + completed
      invariant errors == errors0 + CallFaults(calls[..a], index, pending0.Keys + completed)
      invariant forall id :: id in pending <==> id in pending0 || (id in calls[..a] && !IsBlank(id) && id !in completed)
    {
      var id := calls[a];
      assert calls[..a + 1] == calls[..a] + [id] && calls[..a + 1][..a] == calls[..a];
      NoDupAppend(calls[..a], id);
      CallFaultsStep(calls[..a], id, index, pending0.Keys + completed);
      if IsBlank(id) {
        errors := errors + [EmptyToolCallId(index)];
      } else if id in pending || id in completed {
        errors := errors + [DuplicateToolCallId(id)];
      } else {
        pending := pending[id := index];
      }
      a := a + 1;
    }
    assert calls[..a] == calls;
  }

  // ---- Concatenation and the messages of a turn ----

  lemma {:induction false} IdsOfConcat(a: seq<Message>, b: seq<Message>)
    requires CalledIds(a) == AnsweredIds(a)
    ensures CalledIds(a + b) == CalledIds(a) + CalledIds(b)
    ensures CalledIds(a) !! CalledIds(b) ==> AnsweredIds(a + b) == AnsweredIds(a) + AnsweredIds(b)
  {
    if b == [] {
      assert a + b == a;
    } else {
      var shorter := b[..|b| - 1];
      assert (a + b)[..|a + b| - 1] == a + shorter;
      IdsOfConcat(a, shorter);
    }
  }

  lemma MessageOkShift(m: Message, more: set<string>, called: set<string>, answered: set<string>)
    requires more !! called && answered <= called
    ensures MessageOk(m, more + called, more + answered) <==> MessageOk(m, called, answered) && more !! IdsOf(m)
  {
  }

  /** After a closed transcript, messages are acceptable exactly when they follow the protocol by themselves
      and call no id again. */
  lemma {:induction false} OpenConcat(a: seq<Message>, b: seq<Message>)
    requires Closed(a)
    ensures OpenStepwise(a + b) <==> OpenStepwise(b) && CalledIds(a) !! CalledIds(b)
  {
    hide FieldsOk, Open;
    if b == [] {
      assert a + b == a;
    } else {
      var shorter, m := b[..|b| - 1], b[|b| - 1];
      assert (a + b)[..|a + b| - 1] == a + shorter;
      OpenConcat(a, shorter);
      IdsOfConcat(a, shorter);
      OpenIffStepwise(shorter);
      if CalledIds(a) !! CalledIds(shorter) {
        MessageOkShift(m, CalledIds(a), CalledIds(shorter), AnsweredIds(shorter));
      }
    }
  }

  lemma ClosedConcat(a: seq<Message>, b: seq<Message>)
    requires Closed(a)
    ensures Closed(a + b) <==> Closed(b) && CalledIds(a) !! CalledIds(b)
    ensures CalledIds(a + b) == CalledIds(a) + CalledIds(b)
  {
    OpenConcat(a, b);
    IdsOfConcat(a, b);
    OpenIffStepwise(b);
  }

  /** Two valid transcripts make a valid one exactly when they share no call id. */
  lemma ProtocolConcat(a: seq<Message>, b: seq<Message>)
    requires Protocol(a)
    ensures Protocol(a + b) <==> Protocol(b) && forall id :: !(CalledIn(a, id) && CalledIn(b, id))
  {
    ProtocolIffClosed(a);
    ProtocolIffClosed(b);
    ProtocolIffClosed(a + b);
    ClosedConcat(a, b);
    CalledIdsMeaning(a);
    CalledIdsMeaning(b);
    if !(CalledIds(a) !! CalledIds(b)) {
      var id :| id in CalledIds(a) && id in CalledIds(b);
      assert CalledIn(a, id) && CalledIn(b, id);
    }
  }

  lemma {:induction false} OpenPrefix(a: seq<Message>, b: seq<Message>)
    requires OpenStepwise(a + b)
    ensures OpenStepwise(a)
  {
    if b == [] {
      assert a + b == a;
    } else {
      assert (a + b)[..|a + b| - 1] == a + b[..|b| - 1];
      OpenPrefix(a, b[..|b| - 1]);
    }
  }

  function Assistant(content: string, calls: seq<string>): Message { Message("assistant", content, calls, None) }

  function ToolResult(id: string, content: string): Message { Message("tool", content, [], Some(id)) }

  /** One result per call of a batch, in order. */
  predicate ResultsFor(results: seq<Message>, calls: seq<string>) {
    |results| == |calls| && forall k :: 0 <= k < |calls| ==> results[k] == ToolResult(calls[k], results[k].content)
  }

  function IdSet(ids: seq<string>): set<string> { set id | id in ids }

  lemma IdSetGrows(ids: seq<string>, n: nat)
    requires n < |ids|
    ensures IdSet(ids[..n + 1]) == IdSet(ids[..n]) + {ids[n]}
    ensures ids[n] in IdSet(ids)
  {
    assert ids[..n + 1] == ids[..n] + [ids[n]];
  }

  /** One more result of a batch. */
  lemma OneMoreResult(before: seq<Message>, calls: seq<string>, n: nat, result: Message)
    requires n < |calls| && result == ToolResult(calls[n], result.content)
    requires CalledIds(before) == IdSet(calls) && AnsweredIds(before) == IdSet(calls[..n])
    ensures CalledIds(before + [result]) == IdSet(calls)
    ensures AnsweredIds(before + [result]) == IdSet(calls[..n + 1])
    ensures OpenStepwise(before + [result]) <==>
            OpenStepwise(before) && FieldsOk(result) && calls[n] !in IdSet(calls[..n])
  {
    IdSetGrows(calls, n);
    Extend(before, result);
  }

  /** An assistant message followed by the results of its first calls. */
  lemma {:induction false} BatchIds(content: string, calls: seq<string>, results: seq<Message>)
    requires |results| <= |calls| && ResultsFor(results, calls[..|results|])
    ensures var ms := [Assistant(content, calls)] + results;
            && CalledIds(ms) == IdSet(calls)
            && AnsweredIds(ms) == IdSet(calls[..|results|])
            && (OpenStepwise(ms) <==> FieldsOk(Assistant(content, calls)))
    decreases |results|
  {
    var first := Assistant(content, calls);
    var ms := [first] + results;
    if results == [] {
      assert ms == [] + [first];
      Extend([], first);
    } else {
      var n := |results| - 1;
      var before := [first] + results[..n];
      assert ms == before + [results[n]];
      assert calls[..|results|][..n] == calls[..n] && calls[..|results|][n] == calls[n];
      BatchIds(content, calls, results[..n]);
      OneMoreResult(before, calls, n, results[n]);
      if FieldsOk(first) { ResultFieldsOk(first, calls, n, results[n]); }
    }
  }

  lemma ResultFieldsOk(first: Message, calls: seq<string>, n: nat, result: Message)
    requires n < |calls| && FieldsOk(first) && first == Assistant(first.content, calls)
    requires result == ToolResult(calls[n], result.content)
    ensures FieldsOk(result) && calls[n] !in IdSet(calls[..n])
  {
  }

  predicate FreshBatch(calls: seq<string>, used: set<string>) {
    NoDup(calls) && forall id :: id in calls ==> !IsBlank(id) && id !in used
  }

  /** A batch with its first results keeps a closed transcript closed exactly when its ids are distinct, non-blank
      and new, and every call has its result. */
  lemma BatchKeepsClosed(a: seq<Message>, content: string, calls: seq<string>, results: seq<Message>)
    requires Closed(a) && |results| <= |calls| && ResultsFor(results, calls[..|results|])
    ensures var ms := a + ([Assistant(content, calls)] + results);
            && CalledIds(ms) == CalledIds(a) + IdSet(calls)
            && (OpenStepwise(ms) <==> FreshBatch(calls, CalledIds(a)))
            && (Closed(ms) <==> FreshBatch(calls, CalledIds(a)) && |results| == |calls|)
  {
    var batch := [Assistant(content, calls)] + results;
    BatchIds(content, calls, results);
    ClosedConcat(a, batch);
    OpenConcat(a, batch);
    if |results| < |calls| {
      var id := calls[|results|];
      assert NoDup(calls) ==> id in IdSet(calls) && id !in IdSet(calls[..|results|]);
    } else {
      assert calls[..|results|] == calls;
    }
  }

  /** Every result in these messages is for one of their own calls. */
  ghost predicate AnswersOwnCalls(ms: seq<Message>) {
    forall id :: AnsweredIn(ms, id) ==> CalledIn(ms, id)
  }

  lemma OwnCallsConcat(a: seq<Message>, b: seq<Message>)
    requires AnswersOwnCalls(a) && AnswersOwnCalls(b)
    ensures AnswersOwnCalls(a + b)
  {
    var ms := a + b;
    forall id | AnsweredIn(ms, id)
      ensures CalledIn(ms, id)
    {
      var j :| 0 <= j < |ms| && Answers(ms[j], id);
      if j < |a| {
        assert Answers(a[j], id) && AnsweredIn(a, id);
        var c :| 0 <= c < |a| && Calls(a[c], id);
        assert Calls(ms[c], id);
      } else {
        assert Answers(b[j - |a|], id) && AnsweredIn(b, id);
        var c :| 0 <= c < |b| && Calls(b[c], id);
        assert Calls(ms[|a| + c], id);
      }
    }
  }

  lemma BatchAnswersOwnCalls(content: string, calls: seq<string>, results: seq<Message>)
    requires |results| <= |calls| && ResultsFor(results, calls[..|results|])
    ensures AnswersOwnCalls([Assistant(content, calls)] + results)
  {
    var ms := [Assistant(content, calls)] + results;
    forall id | AnsweredIn(ms, id)
      ensures CalledIn(ms, id)
    {
      var j :| 0 <= j < |ms| && Answers(ms[j], id);
      assert ms[j] == results[j - 1] && calls[..|results|][j - 1] == id;
      assert Calls(ms[0], id);
    }
  }

  /** Messages that answer their own calls only never repair a transcript: an unanswered call stays unanswered. */
  lemma OwnCallsNeverRepair(a: seq<Message>, b: seq<Message>)
    requires AnswersOwnCalls(b)
    ensures Protocol(a + b) ==> Protocol(a)
  {
    if Protocol(a + b) {
      OpenIffStepwise(a + b);
      OpenPrefix(a, b);
      OpenIffStepwise(a);
      forall id | CalledIn(a, id)
        ensures AnsweredIn(a, id)
      {
        AnsweredInFirst(a, b, id);
      }
    }
  }

  lemma AnsweredInFirst(a: seq<Message>, b: seq<Message>, id: string)
    requires Protocol(a + b) && AnswersOwnCalls(b) && CalledIn(a, id)
    ensures AnsweredIn(a, id)
  {
    var ms := a + b;
    var i :| 0 <= i < |a| && Calls(a[i], id);
    assert Calls(ms[i], id) && CalledIn(ms, id);
    var j :| 0 <= j < |ms| && Answers(ms[j], id);
    assert !CalledIn(b, id) by {
      assert forall c :: 0 <= c < |b| ==> b[c] == ms[|a| + c];
    }
    forall c | |a| <= c < |ms|
      ensures !Answers(ms[c], id)
    {
      assert !AnsweredIn(b, id) && ms[c] == b[c - |a|];
    }
    assert Answers(a[j], id);
  }

  /** A system or user message changes neither validity nor the ids. */
  lemma PlainKeepsClosed(a: seq<Message>, m: Message, b: seq<Message>)
    requires IsPlain(m) && FieldsOk(m)
    ensures (Closed(a + [m]) <==> Closed(a)) && CalledIds(a + [m]) == CalledIds(a)
    ensures (Closed([m] + b) <==> Closed(b)) && CalledIds([m] + b) == CalledIds(b)
  {
    Extend(a, m);
    Extend([], m);
    assert [] + [m] == [m];
    ClosedConcat([m], b);
  }

  // ---- Rendering a request ----

  /** The user messages of a list, in order. */
  function Users(ms: seq<Message>): seq<Message> {
    if ms == [] then []
    else
      var rest := Users(ms[1..]);
      if ms[0].role == "user" then [ms[0]] + rest else rest
  }

  lemma {:induction false} UsersConcat(a: seq<Message>, b: seq<Message>)
    ensures Users(a + b) == Users(a) + Users(b)
  {
    if a == [] {
      assert a + b == b;
    } else {
      assert (a + b)[1..] == a[1..] + b;
      UsersConcat(a[1..], b);
    }
  }

  predicate EndsWithTool(ms: seq<Message>) { ms != [] && ms[|ms| - 1].role == "tool" }

  method RenderDeepseekMessages(system: Message, current: Message, transcript: seq<Message>, required: bool)
    returns (messages: seq<Message>)
    ensures messages == Rendered(system, current, transcript, required)
    ensures (forall m :: m in transcript ==> m.role != "user") ==> messages == [system, current] + transcript
    ensures (exists m :: m in transcript && m.role == "user") ==>
              messages == [system] + transcript
                          + if transcript[|transcript| - 1].role == "tool" && !required then [] else [current]
  {
    var transcriptHasUser := exists i :: 0 <= i < |transcript| && transcript[i].role == "user";
    UsersEmpty(transcript);
    messages := [system];
    if transcriptHasUser {
      messages := messages + transcript;
      if !EndsWithTool(transcript) || required {
        messages := messages + [current];
      }
    } else {
      messages := messages + [current];
      messages := messages + transcript;
    }
  }

  function Rendered(system: Message, current: Message, transcript: seq<Message>, required: bool): seq<Message> {
    if Users(transcript) == [] then [system] + [current] + transcript
    else [system] + transcript + if EndsWithTool(transcript) && !required then [] else [current]
  }

  lemma {:induction false} UsersEmpty(ms: seq<Message>)
    ensures Users(ms) == [] <==> forall i :: 0 <= i < |ms| ==> ms[i].role != "user"
  {
    if ms != [] {
      UsersEmpty(ms[1..]);
      assert forall i :: 1 <= i < |ms| ==> ms[i] == ms[1..][i - 1];
    }
  }

  /** Rendering neither repairs nor breaks a transcript. */
  lemma RenderedValid(system: Message, current: Message, transcript: seq<Message>, required: bool)
    requires system.role == "system" && FieldsOk(system) && current.role == "user" && FieldsOk(current)
    ensures Protocol(Rendered(system, current, transcript, required)) <==> Protocol(transcript)
  {
    var rendered := Rendered(system, current, transcript, required);
    ProtocolIffClosed(transcript);
    ProtocolIffClosed(rendered);
    if Users(transcript) == [] {
      assert rendered == [system] + ([current] + transcript);
      PlainKeepsClosed([], current, transcript);
      PlainKeepsClosed([], system, [current] + transcript);
    } else if EndsWithTool(transcript) && !required {
      assert rendered == [system] + transcript;
      PlainKeepsClosed([], system, transcript);
    } else {
      assert rendered == [system] + (transcript + [current]);
      PlainKeepsClosed(transcript, current, []);
      PlainKeepsClosed([], system, transcript + [current]);
    }
  }

  /** The current user message appears once: it is added, unless the transcript already has a user message and ends
      with a tool result and the message was not asked for. */
  lemma RenderedUsers(system: Message, current: Message, transcript: seq<Message>, required: bool)
    requires system.role == "system" && current.role == "user"
    ensures Users(Rendered(system, current, transcript, required)) ==
            Users(transcript) + if Users(transcript) != [] && EndsWithTool(transcript) && !required then []
                else [current]
  {
    assert Users([system]) == [] && Users([current]) == [current];
    if Users(transcript) == [] {
      UsersConcat([system] + [current], transcript);
      UsersConcat([system], [current]);
    } else {
      UsersConcat([system] + transcript, [current]);
      UsersConcat([system], transcript);
      assert [system] + transcript + [] == [system] + transcript;
    }
  }
}
