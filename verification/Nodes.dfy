/**
 The protocol handlers of one networked node (mosaic/network.py), as atomic steps on its state. A handler's state
 changes happen before it first awaits, except that every pending capsule is retried in a step of its own.
 */
module Nodes {
  import opened Results
  import opened Model
  import opened Certificates
  import opened Protocol

  /** `applied` only records the capsules this node applied; no handler reads it. */
  datatype Node = Node(
    protocol: ProtocolState,
    receiptPool: map<Digest, seq<WitnessReceipt>>,
    receiptHistory: map<(Digest, string), set<Digest>>,
    seenCapsules: set<Digest>,
    pendingCapsules: seq<Capsule>,
    applied: set<Digest>)

  datatype Event =
    | Submit(c: Capsule)
    | CapsuleArrives(c: Capsule)
    | ReceiptArrives(r: WitnessReceipt)
    | ClosureArrives(c: Capsule, proof: Proof)
    | Retry(c: Capsule)
    | AbandonLocally(c: Capsule)

  /** The node after a step, and the receipts it signed and broadcast in it. */
  datatype Reaction = Reaction(node: Node, signed: set<WitnessReceipt>)

  /** pending_capsules[capsule_id] = capsule */
  function PutPending(pending: seq<Capsule>, c: Capsule): seq<Capsule> {
    if pending == [] then [c]
    else if pending[0].Id() == c.Id() then [c] + pending[1..]
    else [pending[0]] + PutPending(pending[1..], c)
  }

  function WithoutPending(pending: seq<Capsule>, id: Digest): seq<Capsule> {
    if pending == [] then []
    else if pending[0].Id() == id then WithoutPending(pending[1..], id)
    else [pending[0]] + WithoutPending(pending[1..], id)
  }

  function WitnessStep(n: Node, nodeId: string, c: Capsule, status: Status): (Reaction, Result<WitnessReceipt, Error>) {
    var o := n.protocol.Witness(nodeId, c, status);
    (Reaction(n.(protocol := o.state), if o.result.Ok? then {o.result.value} else {}), o.result)
  }

  function OnSubmit(n: Node, c: Capsule): Reaction {
    if c.Id() in n.protocol.closures then Reaction(n, {})
    else Reaction(n.(protocol := n.protocol.StoreCapsule(c)), {})
  }

  function OnCapsule(n: Node, nodeId: string, c: Capsule): Reaction {
    if c.Id() in n.seenCapsules then
      if c.Id() in n.protocol.closures then Reaction(n, {}) else WitnessStep(n, nodeId, c, Accept).0
    else
      var stored := n.(seenCapsules := n.seenCapsules + {c.Id()}, protocol := n.protocol.StoreCapsule(c));
      var (reaction, result) := WitnessStep(stored, nodeId, c, Accept);
      if result == Err(CapsuleInvalid)
      then reaction.(node := reaction.node.(pendingCapsules := PutPending(stored.pendingCapsules, c)))
      else reaction
  }

  /** Neither an invalid capsule nor a conflict: the handler passes it on to its caller. */
  predicate Uncaught(r: Result<WitnessReceipt, Error>) { r == Err(Refused) || r == Err(KeyError) }

  predicate CapsuleRaises(n: Node, nodeId: string, c: Capsule) {
    if c.Id() in n.seenCapsules
    then c.Id() !in n.protocol.closures && Uncaught(n.protocol.Witness(nodeId, c, Accept).result)
    else Uncaught(n.protocol.StoreCapsule(c).Witness(nodeId, c, Accept).result)
  }

  /** Registers and applies; the state stays changed up to the first refusal. */
  ghost function RegisterAndApply(n: Node, c: Capsule, proof: Proof): Node {
    var registered := n.protocol.Register(c, proof);
    if registered.result.Err? then n.(protocol := registered.state)
    else
      var o := registered.state.Apply(c, proof);
      n.(protocol := o.state, applied := n.applied + if o.result.Ok? then {c.Id()} else {})
  }

  function Pool(n: Node, id: Digest): seq<WitnessReceipt> {
    if id in n.receiptPool then n.receiptPool[id] else []
  }

  function Verified(p: ProtocolState, rs: seq<WitnessReceipt>): seq<WitnessReceipt> {
    if rs == [] then []
    else
      var r := rs[|rs| - 1];
      Verified(p, rs[..|rs| - 1]) + if r.statement.status == Accept && p.VerifyReceipt(r) then [r] else []
  }

  ghost function TryClose(n: Node, c: Capsule): Node {
    if c.Id() in n.protocol.closures then n
    else
      var valid := Verified(n.protocol, Pool(n, c.Id()));
      if ReceiptWeight(n.protocol.members, valid) < n.protocol.RequiredWeight() then n
      else
        match CreateProof(Accept, valid)
        case Err(_) => n
        case Ok(proof) => RegisterAndApply(n, c, proof)
  }

  ghost function OnReceipt(n: Node, r: WitnessReceipt): Reaction {
    var key, id := (r.statement.capsuleId, r.Witness()), r.statement.capsuleId;
    var heard := if key in n.receiptHistory then n.receiptHistory[key] else {};
    if r.Id() in heard then Reaction(n, {})
    else
      var kept := n.(receiptHistory := n.receiptHistory[key := heard + {r.Id()}],
                     receiptPool := n.receiptPool[id := Put(Pool(n, id), r)]);
      if id !in n.protocol.capsules || !n.protocol.VerifyReceipt(r) then Reaction(kept, {})
      else Reaction(TryClose(kept, n.protocol.capsules[id]), {})
  }

  ghost function OnClosure(n: Node, c: Capsule, proof: Proof): Reaction {
    Reaction(RegisterAndApply(n.(protocol := n.protocol.StoreCapsule(c)), c, proof), {})
  }

  /** The predecessor of a parked capsule is the current seal of its resource. */
  predicate Ready(n: Node, c: Capsule) {
    && c.body.predecessorId in n.protocol.knownSeals
    && var r := n.protocol.knownSeals[c.body.predecessorId].resourceId;
    r in n.protocol.currentSeals && n.protocol.currentSeals[r].Id() == c.body.predecessorId
  }

  function Unparked(n: Node, c: Capsule): Node {
    n.(pendingCapsules := WithoutPending(n.pendingCapsules, c.Id()), seenCapsules := n.seenCapsules - {c.Id()})
  }

  /** One round of the retry loop, for a capsule of the list it walks. */
  function RetryOne(n: Node, nodeId: string, c: Capsule): Reaction {
    if Ready(n, c) then OnCapsule(Unparked(n, c), nodeId, c) else Reaction(n, {})
  }

  predicate RetryRaises(n: Node, nodeId: string, c: Capsule) { Ready(n, c) && CapsuleRaises(Unparked(n, c), nodeId, c) }

  /** The retry loop run without interruption, to its end or to the first capsule whose handler raises. */
  function RetryAll(n: Node, nodeId: string, snapshot: seq<Capsule>): Reaction
    decreases |snapshot|
  {
    if snapshot == [] then Reaction(n, {})
    else
      var first := RetryOne(n, nodeId, snapshot[0]);
      if RetryRaises(n, nodeId, snapshot[0]) then first
      else
        var rest := RetryAll(first.node, nodeId, snapshot[1..]);
        Reaction(rest.node, first.signed + rest.signed)
  }

  /** Whether a closure is registered and applied without an exception. */
  ghost predicate Taken(p: ProtocolState, c: Capsule, proof: Proof) {
    p.Register(c, proof).result.Ok? && p.Register(c, proof).state.Apply(c, proof).result.Ok?
  }

  ghost function React(n: Node, nodeId: string, e: Event): Reaction {
    match e
    case Submit(c) => OnSubmit(n, c)
    case CapsuleArrives(c) => OnCapsule(n, nodeId, c)
    case ReceiptArrives(r) => OnReceipt(n, r)
    case ClosureArrives(c, proof) => OnClosure(n, c, proof)
    case Retry(c) => RetryOne(n, nodeId, c)
    case AbandonLocally(c) => WitnessStep(n, nodeId, c, Abandon).0
  }

  function ReceiptsOf(e: Event): seq<WitnessReceipt> {
    match e
    case ReceiptArrives(r) => [r]
    case ClosureArrives(_, proof) => proof.receipts
    case _ => []
  }
}
