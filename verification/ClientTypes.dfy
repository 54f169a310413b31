/** Shared vocabulary of the client: memrpc/include/memrpc/core/types.h and
    memrpc/include/memrpc/client/rpc_client.h. */
module ClientTypes {

  datatype Status =
    | Ok | QueueFull | QueueTimeout | ExecTimeout | PeerDisconnected | ProtocolMismatch
    | EngineInternalError | InvalidArgument | CrashedDuringExecution | CooldownActive
    | ClientClosed | PayloadTooLarge

  /** `ApiLifecycleState`: whether the public interface may be used. */
  datatype Control = Uninitialized | Open | Closing | Closed

  /** `ClientLifecycleState`: what the recovery machine reports. */
  datatype Lifecycle = Unstarted | Active | NoSession | Cooldown | IdleClosed | Recovering | Terminated

  /** `RecoveryDecision`.  A missing policy callback decides `Ignore`. */
  datatype Decision = Ignore | Restart(delay: nat) | IdleClose | ManualShutdown

  /** `PendingRequestRecoveryAction`. */
  datatype PendingAction = FailWithRecoveryPolicy | ResolvePeerDisconnected | KeepCurrentState

  /** An admitted request: the session it was pushed to and the time it expires, 0 for never. */
  datatype Pending = Pending(session: nat, deadline: nat)
}
