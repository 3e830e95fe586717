/** The append-only process log that the approval runtime writes and the closure gate reads. */
module ProcessTruth {
  import opened Text

  datatype Operation = Operation(capabilityId: string, targetPaths: seq<string>)

  datatype Preview = Preview(txId: string, previewId: string, operations: seq<Operation>)

  datatype Token = Token(
    tokenId: string,
    txId: string,
    previewId: string,
    operationScope: seq<string>,
    pathScope: seq<string>,
    opsHash: string,
    expiresAtMs: nat)

  /** The capabilities whose receipts the closure gate treats as verifications; the others by name. */
  datatype Capability =
    | VerifyArtifact
    | VerifyCoverage
    | SourceCoverageVerify
    | VerifyTyped
    | AuditQuality
    | NotVerifying(id: string)

  datatype Status = Failed | Blocked | OtherStatus(name: string)

  /** What the gate reads of a capability receipt: the path and the two issue lists are those of its data. */
  datatype Receipt = Receipt(
    capability: Capability,
    status: Status,
    artifactPath: Option<string>,
    blockingIssues: seq<string>,
    hardRiskIssues: seq<string>)

  /**
    * One event. The payload of an event is its data when that carries a capability id, else its receipt field;
    * the id of the k-th event is k + 1, as the log assigns ids in order.
    */
  datatype Event =
    | PreviewTxCreated(preview: Preview)
    | PreviewTxApproved(txId: string, previewId: string, tokenId: string)
    | ApprovalTokenIssued(token: Token)
    | ApprovalTokenConsumed(tokenId: string, txId: string, previewId: string, used: Capability)
    | PreviewTxApplied(tokenId: string, txId: string, previewId: string, used: Capability)
    | ApprovalTokenUsed(tokenId: string, txId: string, previewId: string, used: Capability)
    | PreviewTxClosed(txId: string, previewId: string, tokenId: string)
    | CapabilityBlocked(receipt: Receipt, mutationPolicyBlocked: bool)
    | ModelCallCompleted(payload: Option<Receipt>)
    | ModelCallFailed(payload: Option<Receipt>, required: bool, errorCode: string)
    | ArtifactModelAudit(payload: Option<Receipt>, auditedPath: Option<string>, issues: seq<string>)
    | OtherEvent(payload: Option<Receipt>)

  type Log = seq<Event>

  // ---- What the log says about previews and tokens ----

  /**
    * The previews created and tokens issued, in order; the consumed token ids; the transactions and previews closed;
    * and the decided transactions: those approved, carried by a token, or closed.
    */
  datatype Facts = Facts(
    created: seq<Preview>,
    issued: seq<Token>,
    consumed: set<string>,
    closedTxs: set<string>,
    closedPreviews: set<string>,
    decided: set<string>)

  const NO_FACTS := Facts([], [], {}, {}, {}, {})

  function AddFact(f: Facts, e: Event): Facts {
    match e
    case PreviewTxCreated(p) => f.(created := f.created + [p])
    case PreviewTxApproved(tx, _, _) => f.(decided := f.decided + {tx})
    case ApprovalTokenIssued(t) => f.(issued := f.issued + [t], decided := f.decided + {t.txId})
    case ApprovalTokenConsumed(id, _, _, _) => f.(consumed := f.consumed + {id})
    case ApprovalTokenUsed(id, _, _, _) => f.(consumed := f.consumed + {id})
    case PreviewTxClosed(tx, p, _) =>
      f.(closedTxs := f.closedTxs + {tx}, closedPreviews := f.closedPreviews + {p}, decided := f.decided + {tx})
    case _ => f
  }

  function FactsOf(log: Log): Facts {
    if log == [] then NO_FACTS else AddFact(FactsOf(log[..|log| - 1]), log[|log| - 1])
  }

  lemma Append(log: Log, e: Event)
    ensures FactsOf(log + [e]) == AddFact(FactsOf(log), e)
  {
    assert (log + [e])[..|log|] == log;
  }
}
