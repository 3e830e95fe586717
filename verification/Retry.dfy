/** The attempts of one model call (model_retry.rs and the attempt loop of model_runtime.rs) and its ledger entry. */
module Retry {
  import opened Saturating
  import opened Text

  // ---- The retry policy ----

  datatype RetryPolicy = RetryPolicy(maxAttempts: u32, initialBackoffMs: u64, maxBackoffMs: u64, jitterMs: u64)

  datatype Failure = Failure(errorCode: string, retryable: bool)

  /** One more attempt than retries, but at least one, in 32 bits. */
  function MaxAttempts(maxRetries: u32): (n: u32)
    ensures n >= 1
    ensures n == maxRetries + 1 || (maxRetries == U32_MAX && n == U32_MAX)
  {
    var next := Min(maxRetries + 1, U32_MAX);
    if next < 1 then 1 else next
  }

  function ShouldRetry(policy: RetryPolicy, attempt: nat, failure: Failure): bool {
    failure.retryable && attempt < policy.maxAttempts
  }

  function Power(exponent: nat): (p: nat)
    ensures p >= 1
  {
    if exponent == 0 then 1 else 2 * Power(exponent - 1)
  }

  lemma {:induction false} PowerGrows(a: nat, b: nat)
    requires a <= b
    ensures Power(a) <= Power(b)
    decreases b
  {
    if a < b {
      PowerGrows(a, b - 1);
    }
  }

  lemma PowersTo20()
    ensures Power(20) == 0x10_0000
  {
    assert Power(5) == 32;
    assert Power(10) == 1024;
    assert Power(15) == 32768;
  }

  function Exponent(completedAttempt: u32): nat {
    Min(if completedAttempt == 0 then 0 else completedAttempt - 1, 20)
  }

  /** The jitter that a clock reading gives. */
  function Jitter(policy: RetryPolicy, now: u64): u64 {
    if policy.jitterMs == 0 then 0 else now % policy.jitterMs
  }

  /** The wait from the power and the jitter; BackoffMs fills both in. */
  function Wait(initial: u64, power: u64, maximum: u64, jitter: u64): u64 {
    SaturatingAdd(Min(SaturatingMul(initial, power), maximum), jitter)
  }

  /** The wait before the next attempt, in saturating arithmetic. */
  function BackoffMs(policy: RetryPolicy, completedAttempt: u32, now: u64): u64 {
    if policy.initialBackoffMs == 0 then 0
    else
      Wait(policy.initialBackoffMs, Min(Power(Exponent(completedAttempt)), U64_MAX), policy.maxBackoffMs,
          Jitter(policy, now))
  }

  /** The wait that the policy describes, in unbounded arithmetic. */
  function ExactBackoff(policy: RetryPolicy, completedAttempt: u32, now: u64): nat {
    var doublings := if completedAttempt <= 1 then 0 else if completedAttempt <= 21 then completedAttempt - 1 else 20;
    var wait := policy.initialBackoffMs * Power(doublings);
    (if wait < policy.maxBackoffMs then wait else policy.maxBackoffMs)
    + if policy.jitterMs == 0 then 0 else now % policy.jitterMs
  }

  lemma ExponentFits(completedAttempt: u32)
    ensures 1 <= Power(Exponent(completedAttempt)) <= 0x10_0000
  {
    PowerGrows(Exponent(completedAttempt), 20);
    PowersTo20();
  }

  /**
    * The wait is the exact one if and only if that fits in 64 bits and, when the initial wait is zero, the clock gives
    * no jitter. A sum that does not fit is replaced by the 64-bit maximum, a zero initial wait by zero.
    */
  lemma BackoffExactIff(policy: RetryPolicy, completedAttempt: u32, now: u64)
    ensures BackoffMs(policy, completedAttempt, now) == ExactBackoff(policy, completedAttempt, now) <==>
            (if policy.initialBackoffMs == 0 then policy.jitterMs == 0 || now % policy.jitterMs == 0
             else ExactBackoff(policy, completedAttempt, now) <= U64_MAX)
    ensures policy.initialBackoffMs != 0 && ExactBackoff(policy, completedAttempt, now) > U64_MAX ==>
            BackoffMs(policy, completedAttempt, now) == U64_MAX
  {
    ExponentFits(completedAttempt);
    if policy.initialBackoffMs == 0 {
      assert policy.initialBackoffMs * Power(Exponent(completedAttempt)) == 0;
    }
  }

  lemma ProductGrows(x: nat, a: nat, b: nat)
    requires a <= b
    ensures x * a <= x * b
  {
  }

  lemma JitterBounded(policy: RetryPolicy, now: u64)
    ensures Jitter(policy, now) <= policy.jitterMs
  {
  }

  lemma WaitGrows(initial: u64, a: u64, b: u64, maximum: u64, jitter: u64)
    requires a <= b
    ensures Wait(initial, a, maximum, jitter) <= Wait(initial, b, maximum, jitter) <= maximum + jitter
  {
    ProductGrows(initial, a, b);
  }

  /** At one clock reading, waits never get shorter from attempt to attempt, nor longer than the maximum and the
      jitter. */
  lemma BackoffGrows(policy: RetryPolicy, a: u32, b: u32, now: u64)
    requires a <= b
    ensures BackoffMs(policy, a, now) <= BackoffMs(policy, b, now) <= policy.maxBackoffMs + policy.jitterMs
  {
    JitterBounded(policy, now);
    if policy.initialBackoffMs != 0 {
      ExponentFits(a);
      ExponentFits(b);
      PowerGrows(Exponent(a), Exponent(b));
      WaitGrows(policy.initialBackoffMs, Power(Exponent(a)), Power(Exponent(b)), policy.maxBackoffMs,
          Jitter(policy, now));
    }
  }

  // ---- The attempts ----

  datatype ReceiptStatus = Success | FailedCall | BlockedCall

  datatype CallReceipt = CallReceipt(
    callId: string, status: ReceiptStatus, attempts: nat, retryCount: nat, error: Option<Failure>,
    required: bool, failClosed: bool, ledgerRef: Option<string>)

  datatype CallEvent =
    | AttemptStarted(attempt: nat)
    | AttemptSucceeded(attempt: nat)
    | AttemptFailed(attempt: nat, error: Failure, willRetry: bool)
    | AttemptBackoff(completed: nat, backoffMs: nat)
    | CallFinished(receipt: CallReceipt)
    | LedgerNoted(receipt: CallReceipt)
    | ReceiptNoted(receipt: CallReceipt)
    | CapabilityNoted(receipt: CallReceipt)
    | RequiredOperationFailed(callId: string)

  /** What the provider answers to each attempt of the call, and the wait after it. */
  datatype World<R> = World(answer: nat -> Result<R, Failure>, wait: nat -> nat)

  /** The waits of the policy at these clock readings. */
  function Waits(policy: RetryPolicy, clock: nat -> u64): nat -> nat {
    (k: nat) => if k <= U32_MAX then BackoffMs(policy, k, clock(k)) else 0
  }

  /** After attempt k the call waits the k-th backoff, at the clock reading taken then. */
  lemma WaitsMeaning(policy: RetryPolicy, clock: nat -> u64, k: u32)
    requires policy.initialBackoffMs != 0
    ensures Waits(policy, clock)(k) == Min(ExactBackoff(policy, k, clock(k)), U64_MAX)
  {
    hide BackoffMs, ExactBackoff;
    BackoffExactIff(policy, k, clock(k));
  }

  predicate Stops<R>(w: World<R>, policy: RetryPolicy, k: nat) {
    match w.answer(k)
    case Ok(_) => true
    case Err(failure) => !ShouldRetry(policy, k, failure)
  }

  /** The attempt that ends the loop, counting from attempt k. */
  function LastAttempt<R>(w: World<R>, policy: RetryPolicy, k: nat): nat
    requires k <= policy.maxAttempts
    decreases policy.maxAttempts - k
  {
    if Stops(w, policy, k) || k == policy.maxAttempts then k else LastAttempt(w, policy, k + 1)
  }

  /** It is the first attempt that succeeds, fails for good, or is the last one allowed: every attempt before it failed
      with an error that may be retried. */
  lemma {:induction false} LastAttemptMeaning<R>(w: World<R>, policy: RetryPolicy, k: nat)
    requires k <= policy.maxAttempts
    ensures var n := LastAttempt(w, policy, k);
            && k <= n <= policy.maxAttempts
            && (w.answer(n).Ok? || !w.answer(n).error.retryable || n == policy.maxAttempts)
            && forall j :: k <= j < n ==> w.answer(j).Err? && w.answer(j).error.retryable
    decreases policy.maxAttempts - k
  {
    if !Stops(w, policy, k) {
      LastAttemptMeaning(w, policy, k + 1);
    }
  }

  /** The events of attempt k alone. */
  function AttemptEvents<R>(w: World<R>, policy: RetryPolicy, k: nat): seq<CallEvent> {
    match w.answer(k)
    case Ok(_) => [AttemptStarted(k), AttemptSucceeded(k)]
    case Err(failure) =>
      if ShouldRetry(policy, k, failure) then
        [AttemptStarted(k), AttemptFailed(k, failure, true), AttemptBackoff(k, w.wait(k))]
      else [AttemptStarted(k), AttemptFailed(k, failure, false)]
  }

  /** The events of the attempts from k on. */
  function TraceFrom<R>(w: World<R>, policy: RetryPolicy, k: nat): seq<CallEvent>
    requires k <= policy.maxAttempts
    decreases policy.maxAttempts - k
  {
    if Stops(w, policy, k) || k == policy.maxAttempts then AttemptEvents(w, policy, k)
    else AttemptEvents(w, policy, k) + TraceFrom(w, policy, k + 1)
  }

  lemma UnfoldAttempt<R>(w: World<R>, policy: RetryPolicy, k: nat, before: seq<CallEvent>, done: seq<CallEvent>)
    requires k <= policy.maxAttempts
    ensures k == policy.maxAttempts ==> Stops(w, policy, k)
    ensures Stops(w, policy, k) ==>
              LastAttempt(w, policy, k) == k && TraceFrom(w, policy, k) == AttemptEvents(w, policy, k)
    ensures !Stops(w, policy, k) ==> LastAttempt(w, policy, k) == LastAttempt(w, policy, k + 1)
    ensures !Stops(w, policy, k) ==>
              done + AttemptEvents(w, policy, k) + TraceFrom(w, policy, k + 1) == done + TraceFrom(w, policy, k)
    ensures before + done + AttemptEvents(w, policy, k) == before + (done + AttemptEvents(w, policy, k))
  {
  }

  predicate IsLastAttempt(es: seq<CallEvent>, k: nat) {
    && |es| == 2
    && es[0] == AttemptStarted(k)
    && (es[1] == AttemptSucceeded(k) || (es[1].AttemptFailed? && es[1].attempt == k && !es[1].willRetry))
  }

  predicate IsRetriedAttempt(es: seq<CallEvent>, k: nat) {
    && |es| == 3
    && es[0] == AttemptStarted(k)
    && es[1].AttemptFailed? && es[1].attempt == k && es[1].willRetry
    && es[2].AttemptBackoff? && es[2].completed == k
  }

  /** (started failed backoff)* started (succeeded | failed for good), numbered from k to n. */
  predicate IsTrace(es: seq<CallEvent>, k: nat, n: nat)
    decreases |es|
  {
    || (k == n && IsLastAttempt(es, k))
    || (k < n && |es| > 3 && IsRetriedAttempt(es[..3], k) && IsTrace(es[3..], k + 1, n))
  }

  lemma {:induction false} TraceIsGrammatical<R>(w: World<R>, policy: RetryPolicy, k: nat)
    requires k <= policy.maxAttempts
    ensures IsTrace(TraceFrom(w, policy, k), k, LastAttempt(w, policy, k))
    ensures |TraceFrom(w, policy, k)| == 3 * (LastAttempt(w, policy, k) - k) + 2
    decreases policy.maxAttempts - k
  {
    UnfoldAttempt(w, policy, k, [], []);
    if !Stops(w, policy, k) {
      TraceIsGrammatical(w, policy, k + 1);
      var es, rest := TraceFrom(w, policy, k), TraceFrom(w, policy, k + 1);
      assert es[3..] == rest;
      assert es[..3] == [es[0], es[1], es[2]];
    }
  }

  /** From here on the events tell of attempt j: that it started, and either that it failed and is retried after its
      wait or, when it is the last one, how it ended. */
  predicate Tells<R>(w: World<R>, es: seq<CallEvent>, at: nat, j: nat, last: bool) {
    && at + 1 < |es| && es[at] == AttemptStarted(j)
    && if last then
         es[at + 1] == if w.answer(j).Ok? then AttemptSucceeded(j) else AttemptFailed(j, w.answer(j).error, false)
       else
         && w.answer(j).Err? && at + 2 < |es|
         && es[at + 1] == AttemptFailed(j, w.answer(j).error, true) && es[at + 2] == AttemptBackoff(j, w.wait(j))
  }

  lemma TellsAfter<R>(w: World<R>, first: seq<CallEvent>, es: seq<CallEvent>, at: nat, j: nat, last: bool)
    requires Tells(w, es, at, j, last)
    ensures Tells(w, first + es, |first| + at, j, last)
  {
  }

  lemma TellsBefore<R>(w: World<R>, es: seq<CallEvent>, more: seq<CallEvent>, at: nat, j: nat, last: bool)
    requires Tells(w, es, at, j, last)
    ensures Tells(w, es + more, at, j, last)
  {
  }

  /** What the events say: each attempt in its place, the last one alone as the last. */
  lemma {:induction false} TraceMeaning<R>(w: World<R>, policy: RetryPolicy, k: nat, j: nat)
    requires k <= policy.maxAttempts && k <= j <= LastAttempt(w, policy, k)
    ensures |TraceFrom(w, policy, k)| == 3 * (LastAttempt(w, policy, k) - k) + 2
    ensures Tells(w, TraceFrom(w, policy, k), 3 * (j - k), j, j == LastAttempt(w, policy, k))
    decreases j - k
  {
    hide LastAttempt, TraceFrom, IsTrace, AttemptEvents, Stops, Tells;
    TraceIsGrammatical(w, policy, k);
    OneAttempt(w, policy, k);
    if Stops(w, policy, k) {
      StopsHere(w, policy, k);
    } else {
      GoesOn(w, policy, k);
      var first, rest := AttemptEvents(w, policy, k), TraceFrom(w, policy, k + 1);
      if k < j {
        TraceMeaning(w, policy, k + 1, j);
        TellsAfter(w, first, rest, 3 * (j - (k + 1)), j, j == LastAttempt(w, policy, k + 1));
      } else {
        LastAttemptMeaning(w, policy, k + 1);
        TellsBefore(w, first, rest, 0, k, false);
      }
    }
  }

  lemma StopsHere<R>(w: World<R>, policy: RetryPolicy, k: nat)
    requires k <= policy.maxAttempts && Stops(w, policy, k)
    ensures LastAttempt(w, policy, k) == k && TraceFrom(w, policy, k) == AttemptEvents(w, policy, k)
  {
  }

  lemma GoesOn<R>(w: World<R>, policy: RetryPolicy, k: nat)
    requires k <= policy.maxAttempts && !Stops(w, policy, k)
    ensures k < policy.maxAttempts && LastAttempt(w, policy, k) == LastAttempt(w, policy, k + 1)
    ensures TraceFrom(w, policy, k) == AttemptEvents(w, policy, k) + TraceFrom(w, policy, k + 1)
  {
  }

  lemma OneAttempt<R>(w: World<R>, policy: RetryPolicy, k: nat)
    ensures |AttemptEvents(w, policy, k)| == if Stops(w, policy, k) then 2 else 3
    ensures Tells(w, AttemptEvents(w, policy, k), 0, k, Stops(w, policy, k))
  {
  }

  /** In any such trace, the event after a backoff starts the next attempt. */
  lemma {:induction false} BackoffLeadsToAttempt(es: seq<CallEvent>, k: nat, n: nat, i: nat)
    requires IsTrace(es, k, n) && i < |es| && es[i].AttemptBackoff?
    ensures i + 1 < |es| && es[i + 1] == AttemptStarted(es[i].completed + 1)
    decreases |es|
  {
    if k < n {
      var rest := es[3..];
      assert rest[0] == AttemptStarted(k + 1);
      assert es[..3][0] == es[0] && es[..3][1] == es[1] && es[..3][2] == es[2];
      if i >= 3 {
        BackoffLeadsToAttempt(rest, k + 1, n, i - 3);
      }
    }
  }

  // ---- The ledger ----

  /** The ledger file: absent, in either of its two formats, or not readable as either. */
  datatype LedgerFile = NoFile | Entries(entries: seq<CallReceipt>) | BareEntries(list: seq<CallReceipt>) | Garbled

  function Recovered(file: LedgerFile): seq<CallReceipt> {
    match file
    case Entries(entries) => entries
    case BareEntries(list) => list
    case _ => []
  }

  /** The last entry of this call. */
  function LastReceiptOf(entries: seq<CallReceipt>, callId: string): Option<CallReceipt> {
    if entries == [] then None
    else if entries[|entries| - 1].callId == callId then Some(entries[|entries| - 1])
    else LastReceiptOf(entries[..|entries| - 1], callId)
  }

  lemma AppendedIsLast(entries: seq<CallReceipt>, r: CallReceipt)
    ensures LastReceiptOf(entries + [r], r.callId) == Some(r)
  {
  }

  function FinishEvents(r: CallReceipt): seq<CallEvent> {
    [CallFinished(r), LedgerNoted(r), ReceiptNoted(r), CapabilityNoted(r)]
    + if r.status != Success && (r.required || r.failClosed) then [RequiredOperationFailed(r.callId)] else []
  }

  /** The receipt of a call that ended at attempt n. */
  function ReceiptFor<R>(callId: string, required: bool, failClosed: bool, n: nat, answer: Result<R, Failure>,
                         invalid: R -> Option<Failure>): CallReceipt
    requires n >= 1
  {
    var error := match answer case Ok(response) => invalid(response) case Err(failure) => Some(failure);
    CallReceipt(callId, if error.None? then Success else FailedCall, n, n - 1, error, required, failClosed, None)
  }

  class ModelRuntime {
    const ledgerRef: string
    var events: seq<CallEvent>
    var ledger: LedgerFile

    constructor (ledgerRef: string, ledger: LedgerFile)
      ensures this.ledgerRef == ledgerRef && this.ledger == ledger && events == []
    {
      this.ledgerRef := ledgerRef;
      this.ledger := ledger;
      events := [];
    }

    method AttemptOnce<R>(w: World<R>, policy: RetryPolicy, k: nat) returns (answer: Result<R, Failure>, stop: bool)
      modifies this`events
      ensures events == old(events) + AttemptEvents(w, policy, k)
      ensures answer == w.answer(k) && (stop <==> Stops(w, policy, k))
    {
      events := events + [AttemptStarted(k)];
      answer := w.answer(k);
      match answer {
        case Ok(_) =>
          events := events + [AttemptSucceeded(k)];
          stop := true;
        case Err(failure) =>
          var shouldRetry := ShouldRetry(policy, k, failure);
          events := events + [AttemptFailed(k, failure, shouldRetry)];
          if shouldRetry {
            events := events + [AttemptBackoff(k, w.wait(k))];
          }
          stop := !shouldRetry;
      }
    }

    method Attempt<R>(w: World<R>, policy: RetryPolicy) returns (attempts: nat, last: Result<R, Failure>)
      requires policy.maxAttempts >= 1
      modifies this`events
      ensures events == old(events) + TraceFrom(w, policy, 1)
      ensures attempts == LastAttempt(w, policy, 1) && last == w.answer(attempts)
    {
      attempts := 0;
      last := Err(Failure("MODEL_PROVIDER_FAILED", false));
      var stopped := false;
      ghost var n, trace := LastAttempt(w, policy, 1), TraceFrom(w, policy, 1);
      ghost var done: seq<CallEvent> := [];
      while attempts < policy.maxAttempts && !stopped
        invariant events == old(events) + done
        invariant stopped ==> attempts == n && last == w.answer(n) && done == trace
        invariant !stopped ==> attempts < policy.maxAttempts
        invariant !stopped ==> LastAttempt(w, policy, attempts + 1) == n
        invariant !stopped ==> done + TraceFrom(w, policy, attempts + 1) == trace
        decreases policy.maxAttempts - attempts, !stopped
      {
        attempts := attempts + 1;
        last, stopped := AttemptOnce(w, policy, attempts);
        UnfoldAttempt(w, policy, attempts, old(events), done);
        done := done + AttemptEvents(w, policy, attempts);
      }
    }

    method WriteModelCallLedger(receipt: CallReceipt)
      modifies this`ledger
      ensures ledger == Entries(Recovered(old(ledger)) + [receipt])
    {
      var entries := Recovered(ledger);
      entries := entries + [receipt];
      ledger := Entries(entries);
    }

    method FinishModelCall(receipt: CallReceipt) returns (finished: CallReceipt)
      modifies this
      ensures finished == receipt.(ledgerRef := Some(ledgerRef))
      ensures ledger == Entries(Recovered(old(ledger)) + [finished])
      ensures events == old(events) + FinishEvents(finished)
      ensures |events| >= |old(events)| + 4
              && events[|old(events)|..][..4]
                 == [CallFinished(finished), LedgerNoted(finished), ReceiptNoted(finished), CapabilityNoted(finished)]
      ensures events[|old(events)| + 4..] ==
              if finished.status != Success && (finished.required || finished.failClosed)
              then [RequiredOperationFailed(finished.callId)] else []
    {
      finished := receipt.(ledgerRef := Some(ledgerRef));
      WriteModelCallLedger(finished);
      events := events + [CallFinished(finished)];
      events := events + [LedgerNoted(finished)];
      events := events + [ReceiptNoted(finished)];
      events := events + [CapabilityNoted(finished)];
      if finished.status != Success && (finished.required || finished.failClosed) {
        events := events + [RequiredOperationFailed(finished.callId)];
      }
    }

    /** Entry k is of this call and no later one is. */
    predicate IsLastOf(callId: string, k: nat)
      requires ledger.Entries? && k < |ledger.entries|
      reads this
    {
      ledger.entries[k].callId == callId && forall j :: k < j < |ledger.entries| ==> ledger.entries[j].callId != callId
    }

    method LastModelReceipt(callId: string) returns (r: Option<CallReceipt>)
      ensures ledger.Entries? ==> r == LastReceiptOf(ledger.entries, callId)
      ensures !ledger.Entries? ==> r == None
      ensures ledger.Entries? && r == None ==> forall e :: e in ledger.entries ==> e.callId != callId
      ensures r.Some? ==> exists k :: 0 <= k < |ledger.entries| && ledger.entries[k] == r.value && IsLastOf(callId, k)
    {
      if !ledger.Entries? { return None; }
      var k := |ledger.entries|;
      assert ledger.entries[..k] == ledger.entries;
      while k > 0
        invariant 0 <= k <= |ledger.entries|
        invariant LastReceiptOf(ledger.entries, callId) == LastReceiptOf(ledger.entries[..k], callId)
        invariant forall j :: k <= j < |ledger.entries| ==> ledger.entries[j].callId != callId
      {
        k := k - 1;
        assert ledger.entries[..k + 1][..k] == ledger.entries[..k];
        if ledger.entries[k].callId == callId {
          assert IsLastOf(callId, k);
          return Some(ledger.entries[k]);
        }
      }
      return None;
    }

    /** The whole call returns the receipt that it appended to the ledger, the one of the attempt that ended it. */
    method Invoke<R>(callId: string, required: bool, failClosed: bool, maxRetries: u32, policy: RetryPolicy,
                     answer: nat -> Result<R, Failure>, clock: nat -> u64, invalid: R -> Option<Failure>)
      returns (r: Option<CallReceipt>)
      requires policy.maxAttempts == MaxAttempts(maxRetries)
      modifies this
      ensures r.Some? && ledger == Entries(Recovered(old(ledger)) + [r.value])
      ensures var n := LastAttempt(World(answer, Waits(policy, clock)), policy, 1);
              n >= 1 && r.value == ReceiptFor(callId, required, failClosed, n, answer(n), invalid)
                                     .(ledgerRef := Some(ledgerRef))
      ensures events == old(events) + TraceFrom(World(answer, Waits(policy, clock)), policy, 1) + FinishEvents(r.value)
      ensures 1 <= r.value.attempts <= maxRetries + 1
      // what the receipt says
      ensures var n := r.value.attempts;
              && r.value.callId == callId && r.value.retryCount == n - 1 && r.value.ledgerRef == Some(ledgerRef)
              && r.value.required == required && r.value.failClosed == failClosed
              && n == LastAttempt(World(answer, Waits(policy, clock)), policy, 1)
              && r.value.error == (if answer(n).Err? then Some(answer(n).error) else invalid(answer(n).value))
              && (r.value.status == Success <==> r.value.error == None) && r.value.status != BlockedCall
      // and what the ledger keeps
      ensures ledger == match old(ledger)
                        case Entries(entries) => Entries(entries + [r.value])
                        case BareEntries(list) => Entries(list + [r.value])
                        case _ => Entries([r.value])
    {
      hide LastAttempt, TraceFrom, FinishEvents, BackoffMs, LastReceiptOf;
      var w := World(answer, Waits(policy, clock));
      LastAttemptMeaning(w, policy, 1);
      AppendedIsLast(Recovered(ledger), ReceiptFor(callId, required, failClosed, LastAttempt(w, policy, 1),
          answer(LastAttempt(w, policy, 1)), invalid).(ledgerRef := Some(ledgerRef)));
      var attempts, last := Attempt(w, policy);
      var receipt := ReceiptFor(callId, required, failClosed, attempts, last, invalid);
      var finished := FinishModelCall(receipt);
      r := LastModelReceipt(callId);
    }
  }
}
