/**
 State seals, capsules and certificates (mosaic/model.py).

 Digests are symbolic: an identifier is the value it is the digest of, so equal identifiers come from equal
 contents. Signatures are symbolic too: one verifies exactly when it was made with that key over that statement.
 A capsule's identifier is a function of its signed fields, as Capsule.create makes it.
 */
module Model {
  import opened Results

  datatype Digest =
    | Text(text: string)
    | HashOf(inner: Digest)
    | SealDigest(seal: StateSeal)
    | CapsuleDigest(body: CapsuleBody)
    | ReceiptDigest(receipt: WitnessReceipt)
    | ProofDigest(kind: Status, capsuleId: Digest, predecessor: Digest, epoch: int, attempt: int, receiptIds: seq<Digest>)
    | ConflictDigest(predecessorId: Digest, sides: map<Digest, Signature>)
    | StateRoot(state: map<string, Value>)
    | TransactionDigest(statement: TransactionStatement)
    | EventsDigest(events: seq<ExecutionEvent>)
    | DiffDigest(before: map<string, Value>, after: map<string, Value>)

  datatype Signature =
    | ByClient(key: string, body: CapsuleBody)
    | ByWitness(key: string, statement: ReceiptStatement)
    | ByCaller(key: string, transaction: TransactionStatement)
    | OtherBytes(bytes: string)

  /** A committee member; `loaded` says whether its private key is present on this node. */
  datatype Member = Member(publicKey: string, loaded: bool, weight: nat)

  datatype StateSeal = StateSeal(
    resourceId: string,
    epoch: int,
    version: int,
    stateRoot: Digest,
    capabilityHash: Digest,
    owner: string)
  {
    function Id(): Digest { SealDigest(this) }
  }

  datatype CapsuleBody = CapsuleBody(
    predecessorId: Digest,
    successorRoot: Digest,
    ruleId: string,
    ruleWitness: Digest,
    bundleId: Option<string>,
    attempt: int,
    epoch: int,
    clientId: string,
    clientPublicKey: string)
  {
    function Id(): Digest { CapsuleDigest(this) }
  }

  datatype Capsule = Capsule(body: CapsuleBody, clientSignature: Signature) {
    function Id(): Digest { body.Id() }

    predicate VerifyClientSignature() { clientSignature == ByClient(body.clientPublicKey, body) }
  }

  datatype Status = Accept | Abandon | OtherStatus(text: string)

  datatype ReceiptStatement = ReceiptStatement(
    capsuleId: Digest,
    predecessorId: Digest,
    witnessId: string,
    epoch: int,
    attempt: int,
    status: Status)

  datatype WitnessReceipt = WitnessReceipt(statement: ReceiptStatement, signature: Signature) {
    function Id(): Digest { ReceiptDigest(this) }

    function Witness(): string { statement.witnessId }
  }

  /** A closure or an abandon proof, which have the same fields: quorum receipts about one capsule. */
  datatype Proof = Proof(
    capsuleId: Digest,
    predecessorId: Digest,
    epoch: int,
    attempt: int,
    signerIds: seq<string>,
    receipts: seq<WitnessReceipt>,
    proofId: Digest)

  /** The two capsules are kept as a map from identifier to client signature, which forgets only their sorted order. */
  datatype ConflictEvidence = ConflictEvidence(predecessorId: Digest, sides: map<Digest, Signature>) {
    function Id(): Digest { ConflictDigest(predecessorId, sides) }
  }

  datatype BundleClosure = BundleClosure(bundleId: string, closureIds: multiset<Digest>)

  // ----- Execution values (mosaic/execution.py)

  datatype Value = Null | Bool(flag: bool) | Int(number: int) | Json(canonical: string)

  datatype Instruction = Instruction(operation: string, key: string, value: Value)

  datatype TransactionStatement = TransactionStatement(
    caller: string,
    callerPublicKey: string,
    nonce: int,
    gasLimit: int,
    instructions: seq<Instruction>)

  datatype ExecutionEvent = ExecutionEvent(operation: string, key: string, before: Value, after: Value)
}
