/** The transcript of a chat thread over any sequence of turns. */
module ChatThread {
  import opened Text
  import opened Transcript
  import opened ChatLoop
  import opened ChatLoopProperties

  datatype Turn = Turn(replies: seq<Reply>, prompts: seq<Message>, ran: seq<nat>, kept: Kept)

  /** One turn of a thread, failed or not: what RunProviderLoop took and what it did. */
  type PastTurn = t: Turn |
    && |t.ran| <= |t.replies| == |t.prompts| && KeptFits(t.replies, |t.ran|, t.kept)
    && forall j :: 0 <= j < |t.prompts| ==> t.prompts[j].role == "user" && FieldsOk(t.prompts[j])
    witness Turn([], [], [], KeptNothing)

  /** The transcript of a thread after these turns, if it is not compacted in between. */
  ghost function Thread(start: seq<Message>, turns: seq<PastTurn>): seq<Message> {
    if turns == [] then start
    else
      var t := turns[|turns| - 1];
      ChatTurn.Final(Thread(start, turns[..|turns| - 1]), t.replies, t.prompts, t.ran, t.kept)
  }

  lemma {:induction false} ThreadNeverRepairs(start: seq<Message>, turns: seq<PastTurn>, n: nat)
    requires n <= |turns|
    ensures Protocol(Thread(start, turns)) ==> Protocol(Thread(start, turns[..n]))
    decreases |turns|
  {
    if n == |turns| {
      assert turns[..n] == turns;
    } else {
      var t, before := turns[|turns| - 1], turns[..|turns| - 1];
      TurnNeverRepairs(Thread(start, before), t.replies, t.prompts, t.ran, t.kept, Thread(start, turns));
      ThreadNeverRepairs(start, before, n);
      assert before[..n] == turns[..n];
    }
  }

  /** Once a turn has left an invalid transcript behind, every later request of the thread that sends it is invalid,
      in whatever turn, whatever the model answers and whatever fails. */
  lemma BrokenThreadStaysBroken(start: seq<Message>, turns: seq<PastTurn>, n: nat, turn: ChatTurn, next: PastTurn,
                                sent: nat, k: nat, request: seq<Message>)
    requires n <= |turns| && !Protocol(Thread(start, turns[..n]))
    requires k < sent <= |next.ran| + 1 && sent <= |next.replies| && turn.config.toolsOffered
    requires turn.system.role == "system" && FieldsOk(turn.system)
    requires request == turn.Sent(Thread(start, turns), next.replies, next.prompts, next.ran, sent)[k]
    ensures !Protocol(request)
  {
    hide Protocol;
    ThreadNeverRepairs(start, turns, n);
    RequestsValid(turn, Thread(start, turns), next.replies, next.prompts, next.ran, sent, k);
  }
}
