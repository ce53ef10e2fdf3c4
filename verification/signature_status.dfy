/** The per-user signature view of a contract: one status record per step,
    in step order, saying whether the user has signed that step. */
module SignatureStatus {
  import opened Wrappers
  import opened Types
  import Progress

  const UserUuidRequired := "User UUID required"

  datatype UserSignatureStatus = UserSignatureStatus(
    stepId: string,
    description: string,
    hasSigned: bool,
    signatureTimestamp: Option<int>,
    isCompleted: bool)

  /** The user's signature on a step: present only when the user is in the
      step's map AND the entry holds a signature. */
  function SignatureOf<M>(step: ContractStep<M>, user: string): (s: Option<StepSignature>)
    ensures s.Some? <==> user in step.signatures && step.signatures[user].Some?
    ensures s.Some? ==> s.value == step.signatures[user].value
  {
    if user in step.signatures then step.signatures[user] else None
  }

  function StepStatus<M>(step: ContractStep<M>, user: string): UserSignatureStatus {
    var sig := SignatureOf(step, user);
    UserSignatureStatus(
      step.id,
      step.description,
      sig.Some?,
      if sig.Some? then Some(sig.value.timestamp) else None,
      step.completed)
  }

  /** One record per step, in step order. */
  function StatusList<M>(steps: seq<ContractStep<M>>, user: string): (r: seq<UserSignatureStatus>)
    ensures |r| == |steps|
    ensures forall i :: 0 <= i < |steps| ==>
              && r[i].stepId == steps[i].id
              && r[i].description == steps[i].description
              && r[i].isCompleted == steps[i].completed
              && (r[i].hasSigned <==> user in steps[i].signatures && steps[i].signatures[user].Some?)
              && (r[i].hasSigned ==> r[i].signatureTimestamp == Some(steps[i].signatures[user].value.timestamp))
              && (!r[i].hasSigned ==> r[i].signatureTimestamp.None?)
    decreases |steps|
  {
    if |steps| == 0 then []
    else [StepStatus(steps[0], user)] + StatusList(steps[1..], user)
  }

  /** The signature status of `user`, or of the client's own signing
      identity `identity` when no user is given. Without either, the
      lookup fails with a sessionless error. */
  function GetUserSignatureStatus<M>(identity: Option<string>, contract: Contract<M>, user: Option<string>)
    : (r: Result<seq<UserSignatureStatus>, CovenantError>)
    ensures user.None? && identity.None? ==> r == Failure(SessionlessError(UserUuidRequired))
    ensures r.Failure? ==> user.None? && identity.None?
    ensures r.Success? ==>
              var who := if user.Some? then user.value else identity.value;
              && |r.value| == |contract.steps|
              && forall i :: 0 <= i < |contract.steps| ==>
                   && r.value[i].stepId == contract.steps[i].id
                   && r.value[i].description == contract.steps[i].description
                   && r.value[i].isCompleted == contract.steps[i].completed
                   && (r.value[i].hasSigned <==> who in contract.steps[i].signatures
                                                 && contract.steps[i].signatures[who].Some?)
                   && (r.value[i].hasSigned ==>
                         r.value[i].signatureTimestamp == Some(contract.steps[i].signatures[who].value.timestamp))
                   && (!r.value[i].hasSigned ==> r.value[i].signatureTimestamp.None?)
  {
    match user
    case Some(u) => Success(StatusList(contract.steps, u))
    case None =>
      match identity
      case Some(u) => Success(StatusList(contract.steps, u))
      case None => Failure(SessionlessError(UserUuidRequired))
  }

  /** An explicit user takes precedence over the signing identity. */
  lemma ExplicitUserWins<M>(identity: Option<string>, contract: Contract<M>, user: string)
    ensures GetUserSignatureStatus(identity, contract, Some(user))
            == GetUserSignatureStatus(None, contract, Some(user))
  {
  }

  /** The number of records whose step is completed. */
  function CompletedRecords(statuses: seq<UserSignatureStatus>): nat
    decreases |statuses|
  {
    if |statuses| == 0 then 0
    else (if statuses[0].isCompleted then 1 else 0) + CompletedRecords(statuses[1..])
  }

  /** The records' completion flags agree with the progress view, whoever
      the user is: completion belongs to the step, not to one signer. */
  lemma {:induction false} CompletedRecordsMatchProgress<M>(steps: seq<ContractStep<M>>, user: string)
    ensures CompletedRecords(StatusList(steps, user)) == Progress.CompletedCount(steps)
    decreases |steps|
  {
    if |steps| > 0 {
      CompletedRecordsMatchProgress(steps[1..], user);
      assert StatusList(steps, user)[1..] == StatusList(steps[1..], user);
    }
  }

  /** Two users see the same steps with the same completion, in the same
      order; they may differ only in what they signed. */
  lemma SameStepsForEveryUser<M>(steps: seq<ContractStep<M>>, u: string, v: string)
    ensures |StatusList(steps, u)| == |StatusList(steps, v)|
    ensures forall i :: 0 <= i < |steps| ==>
              StatusList(steps, u)[i].(hasSigned := false, signatureTimestamp := None)
              == StatusList(steps, v)[i].(hasSigned := false, signatureTimestamp := None)
  {
  }

  /** A user who appears in no step's signature map has signed nothing. */
  lemma UnknownUserSignedNothing<M>(steps: seq<ContractStep<M>>, user: string)
    requires forall i :: 0 <= i < |steps| ==> user !in steps[i].signatures
    ensures forall i :: 0 <= i < |steps| ==> !StatusList(steps, user)[i].hasSigned
  {
  }

  /** A recorded entry without a signature does not count as signed. */
  lemma PlaceholderIsNotSigned<M>(step: ContractStep<M>, user: string)
    requires user in step.signatures && step.signatures[user].None?
    ensures !StatusList([step], user)[0].hasSigned
    ensures StatusList([step], user)[0].signatureTimestamp.None?
  {
  }
}
