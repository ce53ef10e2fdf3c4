/** The data shapes the client exchanges with the contract service: a
    contract, its steps, the signatures on a step, and the client's error
    kinds. `M` stands for the opaque JSON value a step may carry as its
    `magic_spell`; the client never looks inside it. */
module Types {
  import opened Wrappers

  /** One participant's signature on a step; `timestamp` is milliseconds
      since the epoch (an `i64` in the source). */
  datatype StepSignature = StepSignature(signature: string, timestamp: int, message: string)

  /** A step of a contract. A participant missing from `signatures` has not
      been recorded at all; one mapped to `None` is recorded without a
      signature; one mapped to `Some(sig)` has signed. */
  datatype ContractStep<M> = ContractStep(
    id: string,
    description: string,
    magicSpell: Option<M>,
    order: nat,
    signatures: map<string, Option<StepSignature>>,
    completed: bool,
    createdAt: string,
    completedAt: Option<string>)

  /** A contract as the service returns it. */
  datatype Contract<M> = Contract(
    uuid: string,
    title: string,
    description: string,
    participants: seq<string>,
    steps: seq<ContractStep<M>>,
    productUuid: Option<string>,
    bdoLocation: Option<string>,
    createdAt: string,
    updatedAt: string,
    status: string)

  /** The error kinds of the client. The transport and JSON errors carry the
      underlying library's message as text. */
  datatype CovenantError =
    | RequestError(reason: string)
    | JsonError(reason: string)
    | ServiceError(message: string)
    | ValidationError(message: string)
    | SessionlessError(message: string)
}
