/** Reading a streamed model response (model_stream.rs): tool call fragments, text chunks, and the event loop. */
module Stream {
  import opened Saturating
  import opened Text

  // ---- Tool call fragments ----

  datatype FunctionDelta = FunctionDelta(name: Option<string>, arguments: Option<string>)

  datatype ToolDelta = ToolDelta(index: Option<nat>, id: Option<string>, callType: Option<string>,
      function_: Option<FunctionDelta>)

  datatype PartialCall = PartialCall(id: Option<string>, callType: Option<string>, name: string, arguments: string)

  const NO_CALL := PartialCall(None, None, "", "")

  datatype ToolCall = ToolCall(id: string, callType: string, name: string, arguments: string)

  /** A fragment with the slot it belongs to. */
  datatype Placed = Placed(index: nat, delta: ToolDelta)

  /** A fragment without an index belongs to the slot of its position in its own array. */
  function Place(items: seq<ToolDelta>): (placed: seq<Placed>)
    ensures |placed| == |items|
  {
    seq(|items|, k requires 0 <= k < |items| =>
      Placed(match items[k].index case Some(i) => i case None => k, items[k]))
  }

  function Given(value: Option<string>): Option<string> {
    if value == Some("") then None else value
  }

  function Fragment(value: Option<string>): string {
    match value case Some(s) => s case None => ""
  }

  function Latest(newer: Option<string>, older: Option<string>): Option<string> {
    if newer.Some? then newer else older
  }

  function NameOf(d: ToolDelta): string {
    match d.function_ case Some(f) => Fragment(f.name) case None => ""
  }

  function ArgumentsOf(d: ToolDelta): string {
    match d.function_ case Some(f) => Fragment(f.arguments) case None => ""
  }

  function Put(call: PartialCall, d: ToolDelta): PartialCall {
    PartialCall(Latest(Given(d.id), call.id), Latest(Given(d.callType), call.callType),
                call.name + NameOf(d), call.arguments + ArgumentsOf(d))
  }

  function Padded(calls: seq<PartialCall>, n: nat): (padded: seq<PartialCall>)
    ensures |padded| == if |calls| < n then n else |calls|
    ensures forall k :: 0 <= k < |padded| ==> padded[k] == if k < |calls| then calls[k] else NO_CALL
    decreases n - |calls|
  {
    if |calls| >= n then calls else Padded(calls + [NO_CALL], n)
  }

  function AddFragment(calls: seq<PartialCall>, p: Placed): seq<PartialCall> {
    var grown := Padded(calls, p.index + 1);
    grown[p.index := Put(grown[p.index], p.delta)]
  }

  function AddFragments(calls: seq<PartialCall>, ds: seq<Placed>): seq<PartialCall> {
    if ds == [] then calls else AddFragment(AddFragments(calls, ds[..|ds| - 1]), ds[|ds| - 1])
  }

  /** Slots are added until the slot exists. */
  method Grow(calls: seq<PartialCall>, index: nat) returns (grown: seq<PartialCall>)
    ensures grown == Padded(calls, index + 1)
  {
    grown := calls;
    while |grown| <= index
      invariant Padded(grown, index + 1) == Padded(calls, index + 1)
      decreases index + 1 - |grown|
    {
      grown := grown + [NO_CALL];
    }
  }

  /** One fragment written into its slot: what it leaves out or leaves empty does not change the slot. */
  method Fill(old_: PartialCall, item: ToolDelta) returns (call: PartialCall)
    ensures call == Put(old_, item)
  {
    call := old_;
    if item.id.Some? && item.id.value != "" { call := call.(id := item.id); }
    if item.callType.Some? && item.callType.value != "" { call := call.(callType := item.callType); }
    if item.function_.Some? {
      var f := item.function_.value;
      if f.name.Some? && f.name.value != "" { call := call.(name := call.name + f.name.value); }
      if f.arguments.Some? && f.arguments.value != "" {
        call := call.(arguments := call.arguments + f.arguments.value);
      }
    }
  }

  /** The body of the loop over one array of fragments. */
  method AddOne(calls: seq<PartialCall>, index: nat, item: ToolDelta) returns (updated: seq<PartialCall>)
    ensures updated == AddFragment(calls, Placed(index, item))
  {
    var grown := Grow(calls, index);
    var call := Fill(grown[index], item);
    updated := grown[index := call];
  }

  lemma NoFragments(calls: seq<PartialCall>, ds: seq<Placed>)
    ensures AddFragments(calls, ds[..0]) == calls
  {
  }

  lemma AddFragmentsStep(calls: seq<PartialCall>, ds: seq<Placed>, k: nat)
    requires k < |ds|
    ensures AddFragments(calls, ds[..k + 1]) == AddFragment(AddFragments(calls, ds[..k]), ds[k])
  {
    assert ds[..k + 1][..k] == ds[..k];
  }

  /** The loop over one array of fragments. */
  method AccumulateToolCallDeltas(items: seq<ToolDelta>, calls: seq<PartialCall>) returns (updated: seq<PartialCall>)
    ensures updated == AddFragments(calls, Place(items))
  {
    hide AddFragment, AddFragments, Padded, Put;
    ghost var placed := Place(items);
    updated := calls;
    NoFragments(calls, placed);
    var k := 0;
    while k < |items|
      invariant 0 <= k <= |items|
      invariant updated == AddFragments(calls, placed[..k])
    {
      var index: nat := match items[k].index case Some(i) => i case None => k;
      assert placed[k] == Placed(index, items[k]);
      updated := AddOne(updated, index, items[k]);
      AddFragmentsStep(calls, placed, k);
      k := k + 1;
    }
    assert placed[..k] == placed;
  }

  // ---- What one slot receives ----

  /** The fragments of one slot, in order. */
  function Own(ds: seq<Placed>, index: nat): seq<ToolDelta> {
    if ds == [] then []
    else
      var before := Own(ds[..|ds| - 1], index);
      if ds[|ds| - 1].index == index then before + [ds[|ds| - 1].delta] else before
  }

  function LastId(ds: seq<ToolDelta>): Option<string> {
    if ds == [] then None else Latest(Given(ds[|ds| - 1].id), LastId(ds[..|ds| - 1]))
  }

  function LastType(ds: seq<ToolDelta>): Option<string> {
    if ds == [] then None else Latest(Given(ds[|ds| - 1].callType), LastType(ds[..|ds| - 1]))
  }

  function Names(ds: seq<ToolDelta>): string {
    if ds == [] then "" else Names(ds[..|ds| - 1]) + NameOf(ds[|ds| - 1])
  }

  function Arguments(ds: seq<ToolDelta>): string {
    if ds == [] then "" else Arguments(ds[..|ds| - 1]) + ArgumentsOf(ds[|ds| - 1])
  }

  /** What a slot's fragments say: the last id and type given, and all name and argument pieces joined. */
  function Summary(ds: seq<ToolDelta>): PartialCall {
    PartialCall(LastId(ds), LastType(ds), Names(ds), Arguments(ds))
  }

  function SlotOf(calls: seq<PartialCall>, index: nat): PartialCall {
    if index < |calls| then calls[index] else NO_CALL
  }

  lemma SummaryStep(own: seq<ToolDelta>, d: ToolDelta)
    ensures Summary(own + [d]) == Put(Summary(own), d) && Summary([]) == NO_CALL
  {
    assert (own + [d])[..|own|] == own;
  }

  lemma AddedToSlot(calls: seq<PartialCall>, p: Placed, index: nat)
    ensures SlotOf(AddFragment(calls, p), index) ==
            if p.index == index then Put(SlotOf(calls, index), p.delta) else SlotOf(calls, index)
  {
    hide Put;
  }

  /** Every slot holds the summary of its own fragments, whatever came between them. */
  lemma {:induction false} SlotIsSummary(ds: seq<Placed>, index: nat)
    ensures SlotOf(AddFragments([], ds), index) == Summary(Own(ds, index))
    decreases |ds|
  {
    hide Summary, Put, AddFragment;
    SummaryStep([], ToolDelta(None, None, None, None));
    if ds != [] {
      var init, p := ds[..|ds| - 1], ds[|ds| - 1];
      SlotIsSummary(init, index);
      AddedToSlot(AddFragments([], init), p, index);
      SummaryStep(Own(init, index), p.delta);
    }
  }

  function Materialized(index: nat, call: PartialCall): seq<ToolCall> {
    if call.id.None? && IsBlank(call.name) && IsBlank(call.arguments) then []
    else [ToolCall(match call.id case Some(id) => id case None => "tool_call_" + Decimal(index),
                   match call.callType case Some(t) => t case None => "function", call.name, call.arguments)]
  }

  /** The calls of the slots that are not blank, in slot order. */
  function Materialize(calls: seq<PartialCall>): seq<ToolCall> {
    if calls == [] then []
    else Materialize(calls[..|calls| - 1]) + Materialized(|calls| - 1, calls[|calls| - 1])
  }

  lemma {:induction false} PaddingIsInvisible(calls: seq<PartialCall>, n: nat)
    ensures Materialize(Padded(calls, n)) == Materialize(calls)
    decreases n - |calls|
  {
    if |calls| < n {
      PaddingIsInvisible(calls + [NO_CALL], n);
      assert (calls + [NO_CALL])[..|calls|] == calls;
      assert Materialized(|calls|, NO_CALL) == [];
    }
  }

  lemma SlotsDetermineCalls(a: seq<PartialCall>, b: seq<PartialCall>)
    requires forall k: nat :: SlotOf(a, k) == SlotOf(b, k)
    ensures Materialize(a) == Materialize(b)
  {
    var n := if |a| < |b| then |b| else |a|;
    forall k | 0 <= k < n ensures Padded(a, n)[k] == Padded(b, n)[k] {
      assert SlotOf(a, k) == SlotOf(b, k);
    }
    assert Padded(a, n) == Padded(b, n);
    PaddingIsInvisible(a, n);
    PaddingIsInvisible(b, n);
  }

  lemma SlotsAreSummaries(ds: seq<Placed>)
    ensures forall k: nat :: SlotOf(AddFragments([], ds), k) == Summary(Own(ds, k))
  {
    forall k: nat ensures SlotOf(AddFragments([], ds), k) == Summary(Own(ds, k)) {
      SlotIsSummary(ds, k);
    }
  }

  /**
    * The tool calls depend on each slot's own fragments alone, and on those only through their summary: neither the
    * interleaving of slots nor the cutting of names and arguments into pieces shows.
    */
  lemma SummariesDetermineCalls(ds: seq<Placed>, es: seq<Placed>)
    requires forall i: nat :: Summary(Own(ds, i)) == Summary(Own(es, i))
    ensures Materialize(AddFragments([], ds)) == Materialize(AddFragments([], es))
  {
    SlotsAreSummaries(ds);
    SlotsAreSummaries(es);
    SlotsDetermineCalls(AddFragments([], ds), AddFragments([], es));
  }

  // ---- What the calls contain, read off the fragments ----

  /** A text that a fragment gives for this slot; an empty one counts as not given. */
  predicate Gives(p: Placed, slot: nat, value: Option<string>) {
    p.index == slot && value.Some? && value.value != ""
  }

  /** The last id given for the slot. */
  function GivenId(ds: seq<Placed>, slot: nat): Option<string> {
    if ds == [] then None
    else
      var p := ds[|ds| - 1];
      if Gives(p, slot, p.delta.id) then p.delta.id else GivenId(ds[..|ds| - 1], slot)
  }

  function GivenType(ds: seq<Placed>, slot: nat): Option<string> {
    if ds == [] then None
    else
      var p := ds[|ds| - 1];
      if Gives(p, slot, p.delta.callType) then p.delta.callType else GivenType(ds[..|ds| - 1], slot)
  }

  /** The name pieces of the slot's fragments, joined. */
  function JoinedName(ds: seq<Placed>, slot: nat): string {
    if ds == [] then ""
    else
      var before, p := JoinedName(ds[..|ds| - 1], slot), ds[|ds| - 1];
      if p.index == slot && p.delta.function_.Some? && p.delta.function_.value.name.Some?
      then before + p.delta.function_.value.name.value else before
  }

  function JoinedArguments(ds: seq<Placed>, slot: nat): string {
    if ds == [] then ""
    else
      var before, p := JoinedArguments(ds[..|ds| - 1], slot), ds[|ds| - 1];
      if p.index == slot && p.delta.function_.Some? && p.delta.function_.value.arguments.Some?
      then before + p.delta.function_.value.arguments.value else before
  }

  /** The slot makes a call: it was given an id, or something that is not blank. */
  predicate MakesCall(ds: seq<Placed>, slot: nat) {
    GivenId(ds, slot).Some? || !IsBlank(JoinedName(ds, slot)) || !IsBlank(JoinedArguments(ds, slot))
  }

  predicate IsCallOf(call: ToolCall, ds: seq<Placed>, slot: nat) {
    && call.id == (if GivenId(ds, slot).Some? then GivenId(ds, slot).value else "tool_call_" + Decimal(slot))
    && call.callType == (if GivenType(ds, slot).Some? then GivenType(ds, slot).value else "function")
    && call.name == JoinedName(ds, slot)
    && call.arguments == JoinedArguments(ds, slot)
  }

  /** slots lists the slots that make a call, in order. */
  ghost predicate AreCallSlots(ds: seq<Placed>, slots: seq<nat>) {
    && (forall i, j :: 0 <= i < j < |slots| ==> slots[i] < slots[j])
    && (forall slot: nat :: slot in slots <==> MakesCall(ds, slot))
  }

  /** The calls are one for each slot that makes a call, in slot order. */
  ghost predicate AreCallsOf(calls: seq<ToolCall>, ds: seq<Placed>) {
    exists slots: seq<nat> :: AreCallSlots(ds, slots) && |slots| == |calls|
      && forall j :: 0 <= j < |calls| ==> IsCallOf(calls[j], ds, slots[j])
  }

  function GivenCall(ds: seq<Placed>, slot: nat): PartialCall {
    PartialCall(GivenId(ds, slot), GivenType(ds, slot), JoinedName(ds, slot), JoinedArguments(ds, slot))
  }

  lemma {:induction false} SlotIsGiven(ds: seq<Placed>, slot: nat)
    ensures SlotOf(AddFragments([], ds), slot) == GivenCall(ds, slot)
    decreases |ds|
  {
    if ds != [] {
      SlotIsGiven(ds[..|ds| - 1], slot);
    }
  }

  lemma MaterializedIs(ds: seq<Placed>, slot: nat)
    ensures |Materialized(slot, GivenCall(ds, slot))| == if MakesCall(ds, slot) then 1 else 0
    ensures MakesCall(ds, slot) ==> IsCallOf(Materialized(slot, GivenCall(ds, slot))[0], ds, slot)
  {
  }

  lemma {:induction false} SlotsOfCalls(calls: seq<PartialCall>, ds: seq<Placed>) returns (slots: seq<nat>)
    requires forall k: nat :: k < |calls| ==> calls[k] == GivenCall(ds, k)
    ensures |slots| == |Materialize(calls)|
    ensures forall i, j :: 0 <= i < j < |slots| ==> slots[i] < slots[j]
    ensures forall slot: nat :: slot in slots <==> slot < |calls| && MakesCall(ds, slot)
    ensures forall j :: 0 <= j < |slots| ==> IsCallOf(Materialize(calls)[j], ds, slots[j])
    decreases |calls|
  {
    hide GivenCall, MakesCall, IsCallOf, Materialized;
    if calls == [] {
      slots := [];
    } else {
      var n := |calls| - 1;
      var before := SlotsOfCalls(calls[..n], ds);
      MaterializedIs(ds, n);
      slots := before + if MakesCall(ds, n) then [n] else [];
      OneMoreSlot(before, n, if MakesCall(ds, n) then [n] else []);
    }
  }

  lemma OneMoreSlot(before: seq<nat>, n: nat, last: seq<nat>)
    requires forall i, j :: 0 <= i < j < |before| ==> before[i] < before[j]
    requires (forall slot :: slot in before ==> slot < n) && (last == [] || last == [n])
    ensures forall i, j :: 0 <= i < j < |before + last| ==> (before + last)[i] < (before + last)[j]
    ensures forall slot: nat :: slot in before + last <==> slot in before || (last != [] && slot == n)
  {
    assert forall i :: 0 <= i < |before| ==> before[i] in before;
  }

  /** The tool calls, from the fragments alone. */
  lemma CallsMeaning(ds: seq<Placed>)
    ensures AreCallsOf(Materialize(AddFragments([], ds)), ds)
  {
    var calls := AddFragments([], ds);
    forall k: nat
      ensures SlotOf(calls, k) == GivenCall(ds, k)
    {
      SlotIsGiven(ds, k);
    }
    var slots := SlotsOfCalls(calls, ds);
    forall slot: nat | slot >= |calls|
      ensures !MakesCall(ds, slot)
    {
      assert SlotOf(calls, slot) == NO_CALL;
    }
    assert AreCallSlots(ds, slots);
  }

  /** Two fragments of different slots may change places. */
  lemma AdjacentSlotsCommute(before: seq<Placed>, p: Placed, q: Placed, after: seq<Placed>, index: nat)
    requires p.index != q.index
    ensures Own(before + [p, q] + after, index) == Own(before + [q, p] + after, index)
  {
    assert before + [p, q] + after == before + ([p, q] + after);
    OwnConcat(before + [p, q], after, index);
    OwnConcat(before + [q, p], after, index);
    OwnConcat(before, [p, q], index);
    OwnConcat(before, [q, p], index);
    assert [p, q] == [p] + [q] && [q, p] == [q] + [p];
    OwnConcat([p], [q], index);
    OwnConcat([q], [p], index);
  }

  lemma {:induction false} OwnConcat(ds: seq<Placed>, es: seq<Placed>, index: nat)
    ensures Own(ds + es, index) == Own(ds, index) + Own(es, index)
    decreases |es|
  {
    if es == [] {
      assert ds + es == ds;
    } else {
      var init := es[..|es| - 1];
      OwnConcat(ds, init, index);
      assert (ds + es)[..|ds + es| - 1] == ds + init;
    }
  }

  /** A fragment that only carries arguments. */
  function MoreArguments(index: nat, arguments: string): Placed {
    Placed(index, ToolDelta(Some(index), None, None, Some(FunctionDelta(None, Some(arguments)))))
  }

  function WithArguments(d: ToolDelta, arguments: string): ToolDelta
    requires d.function_.Some?
  {
    d.(function_ := Some(d.function_.value.(arguments := Some(arguments))))
  }

  /** Cutting the arguments of a fragment in two leaves the slots as they are, anywhere in a stream. */
  lemma SplitIsInvisible(calls: seq<PartialCall>, p: Placed, front: string, back: string)
    requires p.delta.function_.Some?
    ensures AddFragments(calls, [Placed(p.index, WithArguments(p.delta, front)), MoreArguments(p.index, back)])
         == AddFragments(calls, [Placed(p.index, WithArguments(p.delta, front + back))])
  {
    var one := Placed(p.index, WithArguments(p.delta, front + back));
    var first, second := Placed(p.index, WithArguments(p.delta, front)), MoreArguments(p.index, back);
    assert [first, second][..1] == [first] && [first][..0] == [] && [one][..0] == [];
    var grown := Padded(calls, p.index + 1);
    var call := grown[p.index];
    assert (call.arguments + front) + back == call.arguments + (front + back);
    assert Put(Put(call, first.delta), second.delta) == Put(call, one.delta);
    assert AddFragment(AddFragment(calls, first), second) == AddFragment(calls, one);
  }

  // ---- The event loop ----

  datatype Delta = Delta(content: Option<string>, reasoning: Option<string>, toolCalls: seq<ToolDelta>)

  datatype Choice = Choice(finishReason: Option<string>, delta: Option<Delta>)

  /** One decoded event; usage and choices are absent when missing, null or of another type. */
  datatype StreamEvent = ProviderError(message: string) | Update(usage: Option<string>, choices: Option<seq<Choice>>)

  /** What one turn of the loop meets: the clock, a failing read, a line to skip, the end marker, or an event. */
  datatype Incoming = WallTimeout | ReadFailed(timedOut: bool) | Skipped | DoneMarker | InvalidJson
    | Decoded(event: StreamEvent)

  datatype StreamError =
    | WallTimeoutError | FirstByteTimeout | IdleTimeout | ReadError | JsonInvalid | ProviderFailure(message: string)
    | Refused(reason: string, retriable: bool) | EmptyResponse(retriable: bool)

  datatype SinkKind = Answer | Reasoning

  datatype SinkDelta = SinkDelta(kind: SinkKind, sequence: nat, delta: string)

  datatype Response = Response(
    outputText: string, reasoning: Option<string>, toolCalls: seq<ToolCall>, usage: Option<string>,
    finishReason: Option<string>, done: bool, chunksCount: nat, reasoningCount: nat, eventCount: nat)

  /** n counted in 32 bits: the counter stays at its maximum. */
  function Counted(n: nat): nat {
    if n < U32_MAX then n else U32_MAX
  }

  function Increased(n: nat): nat {
    if n < U32_MAX then n + 1 else U32_MAX
  }

  function Concat(pieces: seq<string>): string {
    if pieces == [] then "" else Concat(pieces[..|pieces| - 1]) + pieces[|pieces| - 1]
  }

  /** Pieces are joined in their order. */
  lemma {:induction false} ConcatMeaning(a: seq<string>, b: seq<string>, piece: string)
    ensures Concat([]) == "" && Concat([piece]) == piece && Concat(a + b) == Concat(a) + Concat(b)
    decreases |b|
  {
    ConcatStep([], piece);
    hide Concat;
    assert [] + [piece] == [piece] && "" + piece == piece;
    if b == [] {
      assert a + b == a && Concat(a) + "" == Concat(a);
    } else {
      var n := |b| - 1;
      ConcatMeaning(a, b[..n], piece);
      ConcatStep(a + b[..n], b[n]);
      ConcatStep(b[..n], b[n]);
      assert a + b[..n] + [b[n]] == a + b && b[..n] + [b[n]] == b;
      assert Concat(a) + Concat(b[..n]) + b[n] == Concat(a) + (Concat(b[..n]) + b[n]);
    }
  }

  lemma ConcatStep(pieces: seq<string>, piece: string)
    ensures Concat([]) == "" && Concat(pieces + [piece]) == Concat(pieces) + piece
  {
    assert (pieces + [piece])[..|pieces|] == pieces;
  }

  function ContentOf(c: Choice): Option<string> {
    match c.delta case Some(d) => Given(d.content) case None => None
  }

  function ReasoningOf(c: Choice): Option<string> {
    match c.delta case Some(d) => Given(d.reasoning) case None => None
  }

  function AddPiece(pieces: seq<string>, piece: Option<string>): seq<string> {
    match piece case Some(s) => pieces + [s] case None => pieces
  }

  /** The text pieces of the choices, in order: those that are not empty. */
  function Contents(cs: seq<Choice>): seq<string> {
    if cs == [] then [] else AddPiece(Contents(cs[..|cs| - 1]), ContentOf(cs[|cs| - 1]))
  }

  function Reasonings(cs: seq<Choice>): seq<string> {
    if cs == [] then [] else AddPiece(Reasonings(cs[..|cs| - 1]), ReasoningOf(cs[|cs| - 1]))
  }

  function ToolDeltas(cs: seq<Choice>): seq<Placed> {
    if cs == [] then []
    else ToolDeltas(cs[..|cs| - 1]) + match cs[|cs| - 1].delta case Some(d) => Place(d.toolCalls) case None => []
  }

  function FinishReason(cs: seq<Choice>): Option<string> {
    if cs == [] then None else Latest(Given(cs[|cs| - 1].finishReason), FinishReason(cs[..|cs| - 1]))
  }

  /** The deltas of one kind in the order the sink got them. */
  function DeltasOf(sink: seq<SinkDelta>, kind: SinkKind): seq<SinkDelta> {
    if sink == [] then []
    else
      var before := DeltasOf(sink[..|sink| - 1], kind);
      if sink[|sink| - 1].kind == kind then before + [sink[|sink| - 1]] else before
  }

  /** Pieces as the sink must have received them: numbered from one, the number staying at the 32-bit maximum. */
  function Numbered(pieces: seq<string>, kind: SinkKind): seq<SinkDelta> {
    seq(|pieces|, k requires 0 <= k < |pieces| => SinkDelta(kind, Counted(k + 1), pieces[k]))
  }

  function IncomingChoices(item: Incoming): seq<Choice> {
    if item.Decoded? && item.event.Update? && item.event.choices.Some? then item.event.choices.value else []
  }

  function AllChoices(items: seq<Incoming>): seq<Choice> {
    if items == [] then [] else AllChoices(items[..|items| - 1]) + IncomingChoices(items[|items| - 1])
  }

  function Usage(items: seq<Incoming>): Option<string> {
    if items == [] then None
    else
      var before, item := Usage(items[..|items| - 1]), items[|items| - 1];
      if item.Decoded? && item.event.Update? then Latest(item.event.usage, before) else before
  }

  function Events(items: seq<Incoming>): nat {
    if items == [] then 0
    else Events(items[..|items| - 1]) + if items[|items| - 1].Decoded? then 1 else 0
  }

  predicate Ends(item: Incoming) {
    match item
    case Skipped => false
    case Decoded(Update(_, _)) => false
    case _ => true
  }

  /** How many items are consumed before the one that ends the loop. */
  function Consumed(items: seq<Incoming>): (n: nat)
    ensures n <= |items|
    ensures n < |items| ==> Ends(items[n])
    ensures forall k :: 0 <= k < n ==> !Ends(items[k])
  {
    if items == [] || Ends(items[0]) then 0 else 1 + Consumed(items[1..])
  }

  /** The error of an item that ends the loop, except for the end marker. */
  function EndError(item: Incoming, started: bool): Option<StreamError> {
    match item
    case WallTimeout => Some(WallTimeoutError)
    case ReadFailed(timedOut) =>
      Some(if !timedOut then ReadError else if started then IdleTimeout else FirstByteTimeout)
    case InvalidJson => Some(JsonInvalid)
    case Decoded(ProviderError(message)) => Some(ProviderFailure(message))
    case _ => None
  }

  /** The answer once the loop has ended without an error. */
  function Finished(cs: seq<Choice>, usage: Option<string>, done: bool, events: nat,
                    refusal: string -> Option<StreamError>)
    : Result<Response, StreamError>
  {
    var reason, text, calls := FinishReason(cs), Concat(Contents(cs)), Materialize(AddFragments([], ToolDeltas(cs)));
    if reason.Some? && refusal(reason.value).Some? then Err(refusal(reason.value).value)
    else if IsBlank(text) && calls == [] then Err(EmptyResponse(!done))
    else
      Ok(Response(text, if Reasonings(cs) == [] then None else Some(Concat(Reasonings(cs))), calls, usage, reason, done,
                  Counted(|Contents(cs)|), Counted(|Reasonings(cs)|), Counted(events)))
  }

  /** The answer to a whole stream; one that simply stops is finished but not marked done. */
  function Outcome(items: seq<Incoming>, refusal: string -> Option<StreamError>): Result<Response, StreamError> {
    var n := Consumed(items);
    var cs := AllChoices(items[..n]);
    if n == |items| then Finished(cs, Usage(items[..n]), false, Events(items[..n]), refusal)
    else
      match EndError(items[n], Contents(cs) != [] || Reasonings(cs) != [])
      case Some(error) => Err(error)
      case None => Finished(cs, Usage(items[..n]), true, Events(items[..n]), refusal)
  }

  // ---- What each choice and each item contributes ----

  /** A text that is given and not empty, as a list of at most one piece. */
  function Piece(value: Option<string>): seq<string> {
    if value.Some? && value.value != "" then [value.value] else []
  }

  /** The latest choice adds its content to the text and its reasoning to the reasoning, and replaces the finish reason
      if it gives one. */
  lemma ChoiceMeaning(cs: seq<Choice>, c: Choice)
    ensures Contents([]) == [] && Reasonings([]) == [] && FinishReason([]) == None
    ensures Contents(cs + [c]) == Contents(cs) + if c.delta.Some? then Piece(c.delta.value.content) else []
    ensures Reasonings(cs + [c]) == Reasonings(cs) + if c.delta.Some? then Piece(c.delta.value.reasoning) else []
    ensures FinishReason(cs + [c]) == if Piece(c.finishReason) != [] then c.finishReason else FinishReason(cs)
  {
    assert (cs + [c])[..|cs|] == cs;
  }

  /** Its fragments follow those before; one without an index belongs to the slot of its position. */
  lemma FragmentsMeaning(cs: seq<Choice>, c: Choice)
    ensures ToolDeltas([]) == []
    ensures c.delta.None? ==> ToolDeltas(cs + [c]) == ToolDeltas(cs)
    ensures c.delta.Some? ==>
              var fragments := c.delta.value.toolCalls;
              && |ToolDeltas(cs + [c])| == |ToolDeltas(cs)| + |fragments|
              && ToolDeltas(cs) <= ToolDeltas(cs + [c])
              && forall k :: 0 <= k < |fragments| ==>
                   && ToolDeltas(cs + [c])[|ToolDeltas(cs)| + k].delta == fragments[k]
                   && ToolDeltas(cs + [c])[|ToolDeltas(cs)| + k].index ==
                        if fragments[k].index.Some? then fragments[k].index.value else k
  {
    FragmentsStep(cs, c);
    hide ToolDeltas, Place;
    if c.delta.Some? {
      var before, fragments := ToolDeltas(cs), c.delta.value.toolCalls;
      PlaceMeaning(fragments);
      var all := before + Place(fragments);
      assert all[..|before|] == before;
      forall k | 0 <= k < |fragments|
        ensures all[|before| + k].delta == fragments[k]
        ensures all[|before| + k].index == if fragments[k].index.Some? then fragments[k].index.value else k
      {
        assert all[|before| + k] == Place(fragments)[k];
      }
    }
  }

  lemma FragmentsStep(cs: seq<Choice>, c: Choice)
    ensures ToolDeltas([]) == []
    ensures ToolDeltas(cs + [c]) == if c.delta.Some? then ToolDeltas(cs) + Place(c.delta.value.toolCalls)
                                    else ToolDeltas(cs)
  {
    assert (cs + [c])[..|cs|] == cs;
    assert ToolDeltas(cs) + [] == ToolDeltas(cs);
  }

  lemma PlaceMeaning(items: seq<ToolDelta>)
    ensures forall k :: 0 <= k < |items| ==>
              Place(items)[k] == Placed(if items[k].index.Some? then items[k].index.value else k, items[k])
  {
  }

  /** Only decoded updates contribute: their choices, in order, and their usage, the latest one counting. */
  lemma ItemMeaning(items: seq<Incoming>, item: Incoming)
    ensures AllChoices([]) == [] && Usage([]) == None && Events([]) == 0
    ensures AllChoices(items + [item]) ==
            AllChoices(items) + if item.Decoded? && item.event.Update? && item.event.choices.Some?
                                then item.event.choices.value else []
    ensures Usage(items + [item]) ==
            if item.Decoded? && item.event.Update? && item.event.usage.Some? then item.event.usage else Usage(items)
    ensures Events(items + [item]) == Events(items) + if item.Decoded? then 1 else 0
  {
    assert (items + [item])[..|items|] == items;
  }

  /** Where a stream ends and what it is answered, case by case. */
  lemma OutcomeMeaning(items: seq<Incoming>, refusal: string -> Option<StreamError>)
    ensures var n, r := Consumed(items), Outcome(items, refusal);
            var cs := AllChoices(items[..n]);
            && (forall k :: 0 <= k < n ==> items[k].Skipped? || (items[k].Decoded? && items[k].event.Update?))
            && (n < |items| ==> !items[n].Skipped? && !(items[n].Decoded? && items[n].event.Update?))
            && if n < |items| && !items[n].DoneMarker? then
                 match items[n]
                 case WallTimeout => r == Err(WallTimeoutError)
                 case ReadFailed(timedOut) =>
                   r == Err(if !timedOut then ReadError
                            else if Contents(cs) == [] && Reasonings(cs) == [] then FirstByteTimeout else IdleTimeout)
                 case InvalidJson => r == Err(JsonInvalid)
                 case Decoded(event) => event.ProviderError? && r == Err(ProviderFailure(event.message))
                 case _ => false
               else if FinishReason(cs).Some? && refusal(FinishReason(cs).value).Some? then
                 r == Err(refusal(FinishReason(cs).value).value)
               else if r.Err? then
                 && r == Err(EmptyResponse(n == |items|)) && IsBlank(Concat(Contents(cs)))
                 && forall slot: nat :: !MakesCall(ToolDeltas(cs), slot)
               else
                 && r.value.outputText == Concat(Contents(cs)) && r.value.finishReason == FinishReason(cs)
                 && r.value.reasoning == (if Reasonings(cs) == [] then None else Some(Concat(Reasonings(cs))))
                 && r.value.usage == Usage(items[..n]) && r.value.done == (n < |items|)
                 && (!IsBlank(r.value.outputText) || r.value.toolCalls != [])
                 && AreCallsOf(r.value.toolCalls, ToolDeltas(cs))
                 && r.value.chunksCount == Min(|Contents(cs)|, U32_MAX)
                 && r.value.reasoningCount == Min(|Reasonings(cs)|, U32_MAX)
                 && r.value.eventCount == Min(Events(items[..n]), U32_MAX)
  {
    hide AreCallsOf, MakesCall, IsBlank, Concat, Contents, Reasonings, FinishReason, ToolDeltas, AllChoices, Events,
      Usage, Materialize, AddFragments;
    var ds := ToolDeltas(AllChoices(items[..Consumed(items)]));
    CallsMeaning(ds);
    if Materialize(AddFragments([], ds)) == [] { NoCalls(ds); }
  }

  lemma NoCalls(ds: seq<Placed>)
    requires AreCallsOf([], ds)
    ensures forall slot: nat :: !MakesCall(ds, slot)
  {
    var slots: seq<nat> :| AreCallSlots(ds, slots) && |slots| == 0;
  }

  lemma PlaceConcat(calls: seq<PartialCall>, ds: seq<Placed>, es: seq<Placed>)
    ensures AddFragments(AddFragments(calls, ds), es) == AddFragments(calls, ds + es)
    decreases |es|
  {
    if es == [] {
      assert ds + es == ds;
    } else {
      PlaceConcat(calls, ds, es[..|es| - 1]);
      assert (ds + es)[..|ds + es| - 1] == ds + es[..|es| - 1];
    }
  }

  /** The variables of the loop. */
  datatype Progress = Progress(
    chunks: seq<string>, reasoningChunks: seq<string>, calls: seq<PartialCall>, finishReason: Option<string>,
    chunksCount: nat, reasoningCount: nat, sink: seq<SinkDelta>)

  /** The sink has been sent the pieces of both kinds, each kind numbered on its own. */
  predicate SinkSent(sink: seq<SinkDelta>, contents: seq<string>, reasonings: seq<string>) {
    DeltasOf(sink, Answer) == Numbered(contents, Answer) && DeltasOf(sink, Reasoning) == Numbered(reasonings, Reasoning)
  }

  const NO_PROGRESS := Progress([], [], [], None, 0, 0, [])

  function SendAnswer(p: Progress, piece: Option<string>): Progress {
    match piece
    case None => p
    case Some(s) =>
      var n := Increased(p.chunksCount);
      p.(chunksCount := n, chunks := p.chunks + [s], sink := p.sink + [SinkDelta(Answer, n, s)])
  }

  function SendReasoning(p: Progress, piece: Option<string>): Progress {
    match piece
    case None => p
    case Some(s) =>
      var n := Increased(p.reasoningCount);
      p.(reasoningCount := n, reasoningChunks := p.reasoningChunks + [s], sink := p.sink + [SinkDelta(Reasoning, n, s)])
  }

  function AddCalls(p: Progress, items: seq<ToolDelta>): Progress {
    p.(calls := AddFragments(p.calls, Place(items)))
  }

  function AddChoice(p: Progress, c: Choice): Progress {
    var q := p.(finishReason := Latest(Given(c.finishReason), p.finishReason));
    match c.delta
    case None => q
    case Some(d) => AddCalls(SendReasoning(SendAnswer(q, Given(d.content)), Given(d.reasoning)), d.toolCalls)
  }

  /** The variables of the loop after these choices. */
  function After(cs: seq<Choice>): Progress {
    if cs == [] then NO_PROGRESS else AddChoice(After(cs[..|cs| - 1]), cs[|cs| - 1])
  }

  lemma SentOne(sink: seq<SinkDelta>, d: SinkDelta, kind: SinkKind)
    ensures DeltasOf(sink + [d], kind) == if d.kind == kind then DeltasOf(sink, kind) + [d] else DeltasOf(sink, kind)
  {
    assert (sink + [d])[..|sink|] == sink;
  }

  lemma SendAnswerKeeps(p: Progress, piece: Option<string>)
    requires SinkSent(p.sink, p.chunks, p.reasoningChunks) && p.chunksCount == Counted(|p.chunks|)
    ensures var q := SendAnswer(p, piece);
            && SinkSent(q.sink, q.chunks, q.reasoningChunks) && q.chunksCount == Counted(|q.chunks|)
            && q.chunks == AddPiece(p.chunks, piece)
  {
    hide DeltasOf;
    if piece.Some? {
      var d := SinkDelta(Answer, Increased(p.chunksCount), piece.value);
      SentOne(p.sink, d, Answer);
      SentOne(p.sink, d, Reasoning);
      assert Numbered(p.chunks + [piece.value], Answer) == Numbered(p.chunks, Answer) + [d];
    }
  }

  lemma SendReasoningKeeps(p: Progress, piece: Option<string>)
    requires SinkSent(p.sink, p.chunks, p.reasoningChunks) && p.reasoningCount == Counted(|p.reasoningChunks|)
    ensures var q := SendReasoning(p, piece);
            && SinkSent(q.sink, q.chunks, q.reasoningChunks) && q.reasoningCount == Counted(|q.reasoningChunks|)
            && q.reasoningChunks == AddPiece(p.reasoningChunks, piece)
  {
    hide DeltasOf;
    if piece.Some? {
      var d := SinkDelta(Reasoning, Increased(p.reasoningCount), piece.value);
      SentOne(p.sink, d, Answer);
      SentOne(p.sink, d, Reasoning);
      assert Numbered(p.reasoningChunks + [piece.value], Reasoning) == Numbered(p.reasoningChunks, Reasoning) + [d];
    }
  }

  lemma {:induction false} TextsAfter(cs: seq<Choice>)
    ensures After(cs).chunks == Contents(cs)
    ensures After(cs).reasoningChunks == Reasonings(cs)
    ensures After(cs).finishReason == FinishReason(cs)
    decreases |cs|
  {
    if cs != [] {
      TextsAfter(cs[..|cs| - 1]);
    }
  }

  /** A text as it goes to the sink, without its number. */
  datatype SentText = SentText(kind: SinkKind, text: string)

  function AsKind(pieces: seq<string>, kind: SinkKind): seq<SentText> {
    seq(|pieces|, k requires 0 <= k < |pieces| => SentText(kind, pieces[k]))
  }

  /** What the sink is sent for these choices: of each one its content and then its reasoning. */
  function SentFor(cs: seq<Choice>): seq<SentText> {
    if cs == [] then []
    else
      var before, c := SentFor(cs[..|cs| - 1]), cs[|cs| - 1];
      if c.delta.None? then before
      else before + AsKind(Piece(c.delta.value.content), Answer) + AsKind(Piece(c.delta.value.reasoning), Reasoning)
  }

  function WithoutNumbers(sink: seq<SinkDelta>): seq<SentText> {
    seq(|sink|, k requires 0 <= k < |sink| => SentText(sink[k].kind, sink[k].delta))
  }

  lemma {:induction false} SentAfter(cs: seq<Choice>)
    ensures WithoutNumbers(After(cs).sink) == SentFor(cs)
    decreases |cs|
  {
    hide WithoutNumbers, SendAnswer, SendReasoning, AsKind, Piece;
    if cs == [] {
      NothingSent();
    } else {
      var c := cs[|cs| - 1];
      SentAfter(cs[..|cs| - 1]);
      if c.delta.Some? {
        var before := After(cs[..|cs| - 1]);
        var p := before.(finishReason := Latest(Given(c.finishReason), before.finishReason));
        OneChoiceSent(p, c.delta.value.content, c.delta.value.reasoning);
      }
    }
  }

  lemma NothingSent()
    ensures WithoutNumbers([]) == []
  {
  }

  lemma OneChoiceSent(p: Progress, content: Option<string>, reasoning: Option<string>)
    ensures WithoutNumbers(SendReasoning(SendAnswer(p, Given(content)), Given(reasoning)).sink) ==
            WithoutNumbers(p.sink) + AsKind(Piece(content), Answer) + AsKind(Piece(reasoning), Reasoning)
  {
    var q := SendAnswer(p, Given(content));
    assert WithoutNumbers(q.sink) == WithoutNumbers(p.sink) + AsKind(Piece(content), Answer);
    var r := SendReasoning(q, Given(reasoning));
    assert WithoutNumbers(r.sink) == WithoutNumbers(q.sink) + AsKind(Piece(reasoning), Reasoning);
  }

  lemma {:induction false} CallsAfter(cs: seq<Choice>)
    ensures After(cs).calls == AddFragments([], ToolDeltas(cs))
    decreases |cs|
  {
    if cs != [] {
      var init, c := cs[..|cs| - 1], cs[|cs| - 1];
      CallsAfter(init);
      match c.delta {
        case None => assert ToolDeltas(init) + [] == ToolDeltas(init);
        case Some(d) => PlaceConcat([], ToolDeltas(init), Place(d.toolCalls));
      }
    }
  }

  /** The counters count the pieces, and the sink has been sent the pieces of both kinds. */
  predicate Consistent(p: Progress) {
    && p.chunksCount == Counted(|p.chunks|)
    && p.reasoningCount == Counted(|p.reasoningChunks|)
    && SinkSent(p.sink, p.chunks, p.reasoningChunks)
  }

  lemma {:induction false} SinkAfter(cs: seq<Choice>, after: Progress)
    requires after == After(cs)
    ensures Consistent(after)
    decreases |cs|
  {
    if cs != [] {
      var p, c := After(cs[..|cs| - 1]), cs[|cs| - 1];
      SinkAfter(cs[..|cs| - 1], p);
      var q := p.(finishReason := Latest(Given(c.finishReason), p.finishReason));
      if c.delta.Some? {
        SendAnswerKeeps(q, Given(c.delta.value.content));
        SendReasoningKeeps(SendAnswer(q, Given(c.delta.value.content)), Given(c.delta.value.reasoning));
      }
    }
  }

  /** The body of the loop over the choices of one event. */
  method ReadChoice(p: Progress, c: Choice) returns (q: Progress)
    ensures q == AddChoice(p, c)
  {
    q := p;
    if c.finishReason.Some? && c.finishReason.value != "" {
      q := q.(finishReason := c.finishReason);
    }
    if c.delta.Some? {
      var delta := c.delta.value;
      if delta.content.Some? && delta.content.value != "" {
        var count, content := Increased(q.chunksCount), delta.content.value;
        q := q.(chunksCount := count, sink := q.sink + [SinkDelta(Answer, count, content)],
                chunks := q.chunks + [content]);
      }
      if delta.reasoning.Some? && delta.reasoning.value != "" {
        var count, content := Increased(q.reasoningCount), delta.reasoning.value;
        q := q.(reasoningCount := count, sink := q.sink + [SinkDelta(Reasoning, count, content)],
                reasoningChunks := q.reasoningChunks + [content]);
      }
      var calls := AccumulateToolCallDeltas(delta.toolCalls, q.calls);
      q := q.(calls := calls);
    }
  }

  lemma AfterOneMore(cs: seq<Choice>, choices: seq<Choice>, k: nat)
    requires k < |choices|
    ensures After(cs + choices[..k + 1]) == AddChoice(After(cs + choices[..k]), choices[k])
  {
    var next := cs + choices[..k + 1];
    assert next[..|next| - 1] == cs + choices[..k];
  }

  method ReadChoices(p: Progress, choices: seq<Choice>, ghost cs: seq<Choice>) returns (q: Progress)
    requires p == After(cs)
    ensures q == After(cs + choices)
  {
    q := p;
    assert cs + choices[..0] == cs;
    for k := 0 to |choices|
      invariant q == After(cs + choices[..k])
    {
      q := ReadChoice(q, choices[k]);
      AfterOneMore(cs, choices, k);
    }
    assert choices[..|choices|] == choices;
  }

  lemma ConsumedAt(items: seq<Incoming>, n: nat)
    requires n <= |items| && (forall k :: 0 <= k < n ==> !Ends(items[k])) && (n < |items| ==> Ends(items[n]))
    ensures Consumed(items) == n
  {
  }

  /** The loop: it stops at the first item that ends it, or at the end of the stream. */
  method ReadItems(items: seq<Incoming>) returns (n: nat, p: Progress, usage: Option<string>, eventCount: nat)
    ensures n == Consumed(items)
    ensures p == After(AllChoices(items[..n]))
    ensures usage == Usage(items[..n])
    ensures eventCount == Counted(Events(items[..n]))
  {
    NothingRead();
    hide After, AllChoices, Usage, Events, Consumed, Counted, IncomingChoices;
    p := NO_PROGRESS;
    usage, eventCount, n := None, 0, 0;
    while n < |items| && !Ends(items[n])
      invariant 0 <= n <= |items|
      invariant forall k :: 0 <= k < n ==> !Ends(items[k])
      invariant p == After(AllChoices(items[..n]))
      invariant usage == Usage(items[..n])
      invariant eventCount == Counted(Events(items[..n]))
    {
      assert items[..n + 1] == items[..n] + [items[n]];
      p, usage, eventCount := ReadItem(p, usage, eventCount, items[n], items[..n]);
      n := n + 1;
    }
    ConsumedAt(items, n);
  }

  /** One line that does not end the loop. */
  method ReadItem(p: Progress, usage: Option<string>, eventCount: nat, item: Incoming, ghost read: seq<Incoming>)
    returns (q: Progress, newUsage: Option<string>, newCount: nat)
    requires !Ends(item) && p == After(AllChoices(read))
    requires usage == Usage(read) && eventCount == Counted(Events(read))
    ensures q == After(AllChoices(read + [item]))
    ensures newUsage == Usage(read + [item]) && newCount == Counted(Events(read + [item]))
  {
    ItemStep(read, item);
    hide After, AllChoices, Usage, Events;
    q := ReadChoices(p, IncomingChoices(item), AllChoices(read));
    newUsage, newCount := usage, eventCount;
    if item.Decoded? {
      newCount := Increased(newCount);
      if item.event.usage.Some? { newUsage := item.event.usage; }
    }
  }

  lemma NothingRead()
    ensures After(AllChoices([])) == NO_PROGRESS && Usage([]) == None && Counted(Events([])) == 0
  {
  }

  lemma ItemStep(items: seq<Incoming>, item: Incoming)
    requires !Ends(item)
    ensures AllChoices(items + [item]) == AllChoices(items) + IncomingChoices(item)
    ensures Usage(items + [item]) ==
            if item.Decoded? && item.event.usage.Some? then item.event.usage else Usage(items)
    ensures Events(items + [item]) == Events(items) + if item.Decoded? then 1 else 0
  {
    ItemMeaning(items, item);
  }

  method Finish(p: Progress, ghost cs: seq<Choice>, usage: Option<string>, done: bool, eventCount: nat,
                ghost events: nat, refusal: string -> Option<StreamError>) returns (r: Result<Response, StreamError>)
    requires p == After(cs) && eventCount == Counted(events)
    ensures r == Finished(cs, usage, done, events, refusal)
  {
    TextsAfter(cs);
    CallsAfter(cs);
    SinkAfter(cs, p);
    if p.finishReason.Some? && refusal(p.finishReason.value).Some? {
      return Err(refusal(p.finishReason.value).value);
    }
    var outputText := Concat(p.chunks);
    var toolCalls := Materialize(p.calls);
    if IsBlank(outputText) && toolCalls == [] {
      return Err(EmptyResponse(!done));
    }
    var reasoning := if p.reasoningChunks == [] then None else Some(Concat(p.reasoningChunks));
    return Ok(Response(outputText, reasoning, toolCalls, usage, p.finishReason, done, p.chunksCount, p.reasoningCount,
        eventCount));
  }

  function Texts(sink: seq<SinkDelta>): seq<string> {
    seq(|sink|, k requires 0 <= k < |sink| => sink[k].delta)
  }

  lemma NumberedTexts(pieces: seq<string>, kind: SinkKind)
    ensures Texts(Numbered(pieces, kind)) == pieces
  {
  }

  /** What the sink was sent adds up to the answer, text and reasoning alike. */
  predicate AddsUp(sink: seq<SinkDelta>, r: Response) {
    var answers, thoughts := Texts(DeltasOf(sink, Answer)), Texts(DeltasOf(sink, Reasoning));
    && r.outputText == Concat(answers)
    && r.reasoning == (if thoughts == [] then None else Some(Concat(thoughts)))
    && r.chunksCount == Counted(|answers|)
    && r.reasoningCount == Counted(|thoughts|)
  }

  /** The deltas of a kind are numbered 1, 2, 3 and so on, up to the 32-bit maximum, where the numbers stay. */
  predicate NumberedFromOne(deltas: seq<SinkDelta>) {
    forall k :: 0 <= k < |deltas| ==> deltas[k].sequence == if k + 1 < U32_MAX then k + 1 else U32_MAX
  }

  lemma SinkNumbers(pieces: seq<string>, kind: SinkKind)
    ensures NumberedFromOne(Numbered(pieces, kind))
  {
  }

  /** The answer for given refusals; refusal says which finish reasons fail the call. */
  method ReadStream(items: seq<Incoming>, refusal: string -> Option<StreamError>)
    returns (r: Result<Response, StreamError>, sink: seq<SinkDelta>)
    ensures r == Outcome(items, refusal)
    ensures r.Ok? ==> AddsUp(sink, r.value)
    ensures var cs := AllChoices(items[..Consumed(items)]);
            && Texts(DeltasOf(sink, Answer)) == Contents(cs)
            && Texts(DeltasOf(sink, Reasoning)) == Reasonings(cs)
    ensures NumberedFromOne(DeltasOf(sink, Answer)) && NumberedFromOne(DeltasOf(sink, Reasoning))
    ensures WithoutNumbers(sink) == SentFor(AllChoices(items[..Consumed(items)]))
    ensures r.Ok? ==> AreCallsOf(r.value.toolCalls, ToolDeltas(AllChoices(items[..Consumed(items)])))
  {
    OutcomeMeaning(items, refusal);
    hide Materialize, Concat, Events, Usage, Numbered, NumberedFromOne, Texts, AreCallsOf, WithoutNumbers, SentFor;
    var n, p, usage, eventCount := ReadItems(items);
    sink := p.sink;
    TextsAfter(AllChoices(items[..n]));
    SinkAfter(AllChoices(items[..n]), p);
    SentAfter(AllChoices(items[..n]));
    SinkNumbers(p.chunks, Answer);
    SinkNumbers(p.reasoningChunks, Reasoning);
    NumberedTexts(p.chunks, Answer);
    NumberedTexts(p.reasoningChunks, Reasoning);
    if n < |items| {
      var error := EndError(items[n], p.chunks != [] || p.reasoningChunks != []);
      if error.Some? {
        return Err(error.value), sink;
      }
    }
    r := Finish(p, AllChoices(items[..n]), usage, n < |items|, eventCount, Events(items[..n]), refusal);
  }

  /** The finish reasons that fail a call (validate_finish_reason). */
  function Refusal(reason: string): Option<StreamError> {
    if reason == "length" || reason == "content_filter" then Some(Refused(reason, false))
    else if reason == "insufficient_system_resource" then Some(Refused(reason, true))
    else None
  }

  /** Exactly three finish reasons fail a call, and only a lack of resources is worth a retry. */
  lemma RefusalMeaning(reason: string)
    ensures Refusal(reason) ==
            if reason in ["length", "content_filter", "insufficient_system_resource"]
            then Some(Refused(reason, reason == "insufficient_system_resource")) else None
  {
  }

  /** read_deepseek_streaming_response: a stream cut off or filtered by the provider is never an answer, even
      if text came. */
  method ReadDeepseekStreamingResponse(items: seq<Incoming>)
    returns (r: Result<Response, StreamError>, sink: seq<SinkDelta>)
    ensures r == Outcome(items, Refusal)
    ensures r.Ok? ==>
              && AddsUp(sink, r.value)
              && AreCallsOf(r.value.toolCalls, ToolDeltas(AllChoices(items[..Consumed(items)])))
              && (r.value.toolCalls != [] || !IsBlank(r.value.outputText))
              && match r.value.finishReason
                 case Some(reason) =>
                   reason != "length" && reason != "content_filter" && reason != "insufficient_system_resource"
                 case None => true
  {
    hide Materialize, Concat, Contents, Reasonings, Events, Usage, AllChoices, Consumed, AddsUp, AreCallsOf;
    r, sink := ReadStream(items, Refusal);
  }
}
