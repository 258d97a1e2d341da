/** Drives, their lock identity, and the authorization a job needs. */
module Drives {
  import opened Text
  import opened Inventory

  datatype DriveIdentity = DriveIdentity(serial: string, wwn: string, model: string, capacityBytes: nat)

  datatype Drive = Drive(identity: DriveIdentity, currentPath: string, status: DriveStatus, protectionReasons: seq<string>)
  {
    predicate IsProtected() {
      status == Protected || protectionReasons != []
    }
  }

  datatype ErrorCode = InvalidIdentity | SafetyBlocked | Unavailable | InvalidState | InvalidArgument
                     | IdentityMismatch | NotFound | ProcessFailure

  /** Surrounding white space removed and ASCII letters lowered. */
  function Canonical(s: string): string {
    var t := Trimmed(s);
    seq(|t|, i requires 0 <= i < |t| => Lower(t[i]))
  }

  /** The stable identifier a drive is locked by. */
  function DriveIdOf(d: DriveIdentity): Result<DriveId, ErrorCode> {
    if Canonical(d.wwn) != "" then
      Success("wwn:" + Canonical(d.wwn))
    else if Canonical(d.serial) == "" || Canonical(d.model) == "" || d.capacityBytes == 0 then
      Failure(InvalidIdentity)
    else
      Success("serial:" + Canonical(d.serial) + "|model:" + Canonical(d.model) + "|bytes:" + Decimal(d.capacityBytes))
  }

  predicate DifferWhenKnown(a: string, b: string) {
    Canonical(a) != "" && Canonical(b) != "" && Canonical(a) != Canonical(b)
  }

  predicate SamePhysicalDevice(a: DriveIdentity, b: DriveIdentity) {
    && DriveIdOf(a).Success? && DriveIdOf(a) == DriveIdOf(b)
    && !DifferWhenKnown(a.serial, b.serial)
    && !DifferWhenKnown(a.model, b.model)
    && (a.capacityBytes == 0 || b.capacityBytes == 0 || a.capacityBytes == b.capacityBytes)
  }

  datatype OperationKind = ShortTest | ExtendedTest | ConveyanceTest | OtherOperation

  predicate IsHealthOperation(k: OperationKind) {
    k == ShortTest || k == ExtendedTest || k == ConveyanceTest
  }

  datatype SafetyClass = StatusOnly | ReadOnlyClass | FirmwareSelfTest | Destructive | Irreversible

  datatype ExecutionMode = Real | Demo | DryRun

  datatype Authorization = Authorization(mayExecute: bool, simulated: bool, plannedOnly: bool)

  function Authorize(drive: Drive, safety: SafetyClass, mode: ExecutionMode): Result<Authorization, ErrorCode> {
    if DriveIdOf(drive.identity).Failure? then Failure(DriveIdOf(drive.identity).error)
    else if drive.IsProtected() && safety != StatusOnly then Failure(SafetyBlocked)
    else if drive.status == Unknown && safety != StatusOnly then Failure(SafetyBlocked)
    else if mode == DryRun then Success(Authorization(false, false, true))
    else if mode == Demo then Success(Authorization(true, true, false))
    else if safety == Destructive || safety == Irreversible then Failure(Unavailable)
    else Success(Authorization(true, false, false))
  }

  datatype Controls = Controls(canPause: bool, canResume: bool, canCancel: bool)

  datatype Operation = Operation(kind: OperationKind, target: Drive, safety: SafetyClass, controls: Controls)
}
