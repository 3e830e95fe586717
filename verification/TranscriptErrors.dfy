/** Which errors the transcript validator reports, read off the messages alone. */
module TranscriptErrors {
  import opened Text
  import opened Transcript

  /** Message j answers a call that stands before it. */
  ghost predicate AnswersEarlier(ms: seq<Message>, j: nat, id: string)
    requires j < |ms|
  {
    Answers(ms[j], id) && CalledIn(ms[..j], id)
  }

  /** The id is called in these messages and not answered since. */
  ghost predicate Waits(ms: seq<Message>, id: string) {
    CalledIn(ms, id) && !exists j :: 0 <= j < |ms| && AnswersEarlier(ms, j, id)
  }

  lemma {:induction false} AnsweredIdsMeaning(ms: seq<Message>, id: string)
    ensures id in AnsweredIds(ms) <==> exists j :: 0 <= j < |ms| && AnswersEarlier(ms, j, id)
    decreases |ms|
  {
    if ms != [] {
      var n := |ms| - 1;
      var before := ms[..n];
      AnsweredIdsMeaning(before, id);
      CalledIdsMeaning(before);
      forall j | 0 <= j < n ensures AnswersEarlier(ms, j, id) <==> AnswersEarlier(before, j, id) {
        assert before[..j] == ms[..j];
      }
      assert AnswersEarlier(ms, n, id) <==> Answers(ms[n], id) && CalledIn(before, id);
    }
  }

  /** The id stands twice in the list. */
  predicate Twice(calls: seq<string>, id: string) {
    exists a, b :: 0 <= a < b < |calls| && calls[a] == id && calls[b] == id
  }

  /** Message k is reported with this error. */
  ghost predicate ErrorAt(ms: seq<Message>, k: nat, e: ValidationError)
    requires k < |ms|
  {
    var m := ms[k];
    match e
    case AssistantCarriesToolCallId(i) => i == k && m.role == "assistant" && m.toolCallId.Some?
    case EmptyToolCallId(i) => i == k && m.role == "assistant" && exists id :: id in m.toolCalls && IsBlank(id)
    case DuplicateToolCallId(id) =>
      m.role == "assistant" && id in m.toolCalls && !IsBlank(id) && (CalledIn(ms[..k], id) || Twice(m.toolCalls, id))
    case MissingToolCallId(i) => i == k && m.role == "tool" && m.toolCallId.None?
    case OrphanToolMessage(id) => m.role == "tool" && m.toolCallId == Some(id) && (IsBlank(id) || !Waits(ms[..k], id))
    case NestedToolCalls(i) => i == k && m.role == "tool" && m.toolCallId.Some? && m.toolCalls != []
    case ToolFieldsOnPlainMessage(i) =>
      i == k && (m.role == "system" || m.role == "user") && (m.toolCallId.Some? || m.toolCalls != [])
    case UnsupportedRole(role) => m.role == role && role !in ["assistant", "tool", "system", "user"]
  }

  lemma {:induction false} CallFaultsMeaning(calls: seq<string>, index: nat, known: set<string>, e: ValidationError)
    ensures e in CallFaults(calls, index, known) <==>
            || (e == EmptyToolCallId(index) && exists id :: id in calls && IsBlank(id))
            || (e.DuplicateToolCallId? && e.id in calls && !IsBlank(e.id) && (e.id in known || Twice(calls, e.id)))
    decreases |calls|
  {
    hide IsBlank;
    if calls != [] {
      var n := |calls| - 1;
      CallFaultsMeaning(calls[..n], index, known, e);
      assert calls[n] in calls && forall id :: id in calls <==> id in calls[..n] || id == calls[n];
      if e.DuplicateToolCallId? {
        TwiceStep(calls, e.id);
      }
    }
  }

  lemma TwiceStep(calls: seq<string>, id: string)
    requires calls != []
    ensures var n := |calls| - 1;
            Twice(calls, id) <==> Twice(calls[..n], id) || (calls[n] == id && id in calls[..n])
  {
    var n := |calls| - 1;
    if Twice(calls, id) {
      var a, b :| 0 <= a < b < |calls| && calls[a] == id && calls[b] == id;
      assert calls[..n][a] == id && (b < n ==> calls[..n][b] == id);
    }
    if Twice(calls[..n], id) {
      var a, b :| 0 <= a < b < n && calls[..n][a] == id && calls[..n][b] == id;
      assert calls[a] == id && calls[b] == id;
    }
    if calls[n] == id && id in calls[..n] {
      var a :| 0 <= a < n && calls[..n][a] == id;
      assert calls[a] == id;
    }
  }

  lemma FaultsOfMeaning(ms: seq<Message>, k: nat, e: ValidationError)
    requires k < |ms|
    ensures var before := ms[..k];
            e in FaultsOf(ms[k], k, NonBlank(CalledIds(before) - AnsweredIds(before)), NonBlank(AnsweredIds(before)))
            <==> ErrorAt(ms, k, e)
  {
    hide CalledIds, AnsweredIds, IsBlank, CallFaults, CalledIn, Twice, Waits;
    var before, m := ms[..k], ms[k];
    CalledIdsMeaning(before);
    assert AnsweredIds(before) <= CalledIds(before) by { OpenIffStepwise(before); }
    var pending, completed := NonBlank(CalledIds(before) - AnsweredIds(before)), NonBlank(AnsweredIds(before));
    CallFaultsMeaning(m.toolCalls, k, pending + completed, e);
    if m.toolCallId.Some? {
      WaitsIff(before, m.toolCallId.value);
    }
  }

  lemma WaitsIff(ms: seq<Message>, id: string)
    ensures Waits(ms, id) <==> id in CalledIds(ms) - AnsweredIds(ms)
  {
    CalledIdsMeaning(ms);
    AnsweredIdsMeaning(ms, id);
  }

  /** Exactly these errors are reported: by kind, by message and by id. */
  lemma {:induction false} ErrorsIff(ms: seq<Message>, e: ValidationError)
    ensures e in Faults(ms) <==> exists k :: 0 <= k < |ms| && ErrorAt(ms, k, e)
    decreases |ms|
  {
    hide FaultsOf, ErrorAt;
    if ms != [] {
      var n := |ms| - 1;
      ErrorsIff(ms[..n], e);
      FaultsStep(ms[..n], ms[n]);
      assert ms == ms[..n] + [ms[n]];
      FaultsOfMeaning(ms, n, e);
      forall k | 0 <= k < n ensures ErrorAt(ms[..n], k, e) <==> ErrorAt(ms, k, e) {
        SameError(ms, n, k, e);
      }
    }
  }

  lemma SameError(ms: seq<Message>, n: nat, k: nat, e: ValidationError)
    requires k < n <= |ms|
    ensures ErrorAt(ms[..n], k, e) <==> ErrorAt(ms, k, e)
  {
    assert ms[..n][..k] == ms[..k];
  }

  /** The calls left open: those with an id that is not blank and waits for its answer. */
  lemma PendingMeaning(ms: seq<Message>, id: string)
    ensures id in NonBlank(CalledIds(ms) - AnsweredIds(ms)) <==> !IsBlank(id) && Waits(ms, id)
  {
    hide CalledIds, AnsweredIds;
    WaitsIff(ms, id);
  }
}
