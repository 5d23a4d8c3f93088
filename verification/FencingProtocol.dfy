/** Records of the cooperative process fencing protocol (pkg/fencing/protocol.go). */
module FencingProtocol {
  import opened Options

  /** Who is running: a launch of a supervisor in a Pod of a voter slot. An empty `walIdentity` means not bound yet. */
  datatype Identity = Identity(
    sourceClusterID: string, nodeID: string, podUID: string, runID: string, walIdentity: string)

  const NO_IDENTITY := Identity("", "", "", "", "")

  datatype StopRequest = StopRequest(operationID: string, requestHash: string, identity: Identity)

  /** What the engine reports about its writers when it stops. */
  datatype DrainReceipt = DrainReceipt(
    request: StopRequest, writersJoined: bool, pendingMutations: nat, unknownMutations: nat)
  {
    predicate Clean() {
      writersJoined && pendingMutations == 0 && unknownMutations == 0
    }
  }

  /** `Rejected` stands for every refusal that carries only a message. */
  datatype FenceError = Pending | Closed | Unavailable | Rejected

  datatype Run = Run(
    identity: Identity,
    stop: Option<StopRequest>,
    drain: Option<DrainReceipt>,
    exited: bool,
    neverBoundExit: Option<StopRequest>)

  function NewRun(identity: Identity): Run {
    Run(identity, None, None, false, None)
  }
}
