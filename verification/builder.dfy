/** The contract builder: a fluent accumulator of the fields of a new
    contract, and `Build`, which validates them and assembles the payload
    sent to the service. Each setter returns the updated builder, so calls
    chain as in the source. */
module Builder {
  import opened Wrappers
  import opened Types
  import Decimal

  const TitleRequired := "Title is required"
  const TooFewParticipants := "At least 2 participants required"
  const NoSteps := "At least 1 step required"

  /** A step as added to the builder: a description and an optional spell. */
  datatype PendingStep<M> = PendingStep(description: string, magicSpell: Option<M>)

  datatype ContractBuilder<M> = ContractBuilder(
    title: Option<string>,
    description: Option<string>,
    participants: seq<string>,
    steps: seq<PendingStep<M>>,
    productUuid: Option<string>,
    bdoLocation: Option<string>)

  /** A step of the creation payload. */
  datatype StepPayload<M> = StepPayload(id: string, description: string, magicSpell: Option<M>)

  /** The creation payload: the JSON object `build` emits, as a value. */
  datatype ContractPayload<M> = ContractPayload(
    title: string,
    description: string,
    participants: seq<string>,
    steps: seq<StepPayload<M>>,
    productUuid: Option<string>,
    bdoLocation: Option<string>)

  function New<M>(): (b: ContractBuilder<M>)
    ensures b.title.None? && b.description.None? && b.productUuid.None? && b.bdoLocation.None?
    ensures b.participants == [] && b.steps == []
  {
    ContractBuilder(None, None, [], [], None, None)
  }

  // ---------------------------------------------------------------------
  // Setters. Each one touches its own field only.

  function WithTitle<M>(b: ContractBuilder<M>, title: string): (r: ContractBuilder<M>)
    ensures r.title == Some(title)
    ensures r.(title := b.title) == b
  {
    b.(title := Some(title))
  }

  function WithDescription<M>(b: ContractBuilder<M>, description: string): (r: ContractBuilder<M>)
    ensures r.description == Some(description)
    ensures r.(description := b.description) == b
  {
    b.(description := Some(description))
  }

  /** Appends one participant at the end. Duplicates are kept: the
      participant occurs once more than before. */
  function AddParticipant<M>(b: ContractBuilder<M>, participant: string): (r: ContractBuilder<M>)
    ensures |r.participants| == |b.participants| + 1
    ensures r.participants[..|b.participants|] == b.participants
    ensures r.participants[|b.participants|] == participant
    ensures multiset(r.participants)[participant] == multiset(b.participants)[participant] + 1
    ensures r.(participants := b.participants) == b
  {
    b.(participants := b.participants + [participant])
  }

  /** Appends several participants at the end, in the order given. */
  function AddParticipants<M>(b: ContractBuilder<M>, participants: seq<string>): (r: ContractBuilder<M>)
    ensures |r.participants| == |b.participants| + |participants|
    ensures r.participants[..|b.participants|] == b.participants
    ensures r.participants[|b.participants|..] == participants
    ensures r.(participants := b.participants) == b
  {
    b.(participants := b.participants + participants)
  }

  /** Appends one step without a spell. */
  function AddStep<M>(b: ContractBuilder<M>, description: string): (r: ContractBuilder<M>)
    ensures |r.steps| == |b.steps| + 1
    ensures r.steps[..|b.steps|] == b.steps
    ensures r.steps[|b.steps|].description == description && r.steps[|b.steps|].magicSpell.None?
    ensures r.(steps := b.steps) == b
  {
    b.(steps := b.steps + [PendingStep(description, None)])
  }

  /** Appends one step carrying a spell. */
  function AddStepWithMagic<M>(b: ContractBuilder<M>, description: string, magicSpell: M): (r: ContractBuilder<M>)
    ensures |r.steps| == |b.steps| + 1
    ensures r.steps[..|b.steps|] == b.steps
    ensures r.steps[|b.steps|].description == description && r.steps[|b.steps|].magicSpell == Some(magicSpell)
    ensures r.(steps := b.steps) == b
  {
    b.(steps := b.steps + [PendingStep(description, Some(magicSpell))])
  }

  function WithProductUuid<M>(b: ContractBuilder<M>, productUuid: string): (r: ContractBuilder<M>)
    ensures r.productUuid == Some(productUuid)
    ensures r.(productUuid := b.productUuid) == b
  {
    b.(productUuid := Some(productUuid))
  }

  function WithBdoLocation<M>(b: ContractBuilder<M>, bdoLocation: string): (r: ContractBuilder<M>)
    ensures r.bdoLocation == Some(bdoLocation)
    ensures r.(bdoLocation := b.bdoLocation) == b
  {
    b.(bdoLocation := Some(bdoLocation))
  }

  // ---------------------------------------------------------------------
  // Validation and payload assembly.

  /** The identifier of the step at 1-based position `n`: `step-<n>`. */
  function StepId(n: nat): string {
    "step-" + Decimal.NatToString(n)
  }

  /** Recovers the position from a step identifier. */
  function ParseStepId(id: string): Option<nat> {
    if |id| >= 5 && id[..5] == "step-" then Decimal.ParseNat(id[5..]) else None
  }

  /** Numbers the steps from `first` on, in order, carrying each step's
      description and spell over unchanged. */
  function NumberSteps<M>(steps: seq<PendingStep<M>>, first: nat): (r: seq<StepPayload<M>>)
    ensures |r| == |steps|
    ensures forall i :: 0 <= i < |steps| ==>
              r[i] == StepPayload(StepId(first + i), steps[i].description, steps[i].magicSpell)
    decreases |steps|
  {
    if |steps| == 0 then []
    else [StepPayload(StepId(first), steps[0].description, steps[0].magicSpell)]
         + NumberSteps(steps[1..], first + 1)
  }

  /** Validates the builder (title, then at least two participants, then at
      least one step) and assembles the payload. */
  function Build<M>(b: ContractBuilder<M>): (r: Result<ContractPayload<M>, CovenantError>)
    ensures b.title.None? ==> r == Failure(ValidationError(TitleRequired))
    ensures b.title.Some? && |b.participants| < 2 ==> r == Failure(ValidationError(TooFewParticipants))
    ensures b.title.Some? && |b.participants| >= 2 && |b.steps| == 0 ==> r == Failure(ValidationError(NoSteps))
    ensures r.Success? ==>
              && r.value.title == b.title.value
              && r.value.description == b.description.GetOr("")
              && r.value.participants == b.participants
              && r.value.productUuid == b.productUuid
              && r.value.bdoLocation == b.bdoLocation
              && |r.value.steps| == |b.steps|
              && forall i :: 0 <= i < |b.steps| ==>
                   r.value.steps[i] == StepPayload(StepId(i + 1), b.steps[i].description, b.steps[i].magicSpell)
  {
    if b.title.None? then Failure(ValidationError(TitleRequired))
    else if |b.participants| < 2 then Failure(ValidationError(TooFewParticipants))
    else if |b.steps| == 0 then Failure(ValidationError(NoSteps))
    else Success(ContractPayload(
      b.title.value,
      b.description.GetOr(""),
      b.participants,
      NumberSteps(b.steps, 1),
      b.productUuid,
      b.bdoLocation))
  }

  // ---------------------------------------------------------------------
  // Properties of Build.

  /** Build succeeds exactly when the three checks pass. */
  lemma BuildSucceedsIff<M>(b: ContractBuilder<M>)
    ensures Build(b).Success? <==> b.title.Some? && |b.participants| >= 2 && |b.steps| >= 1
  {
  }

  /** A fresh builder is rejected for its missing title. */
  lemma NewIsRejected<M>()
    ensures Build(New<M>()) == Failure(ValidationError(TitleRequired))
  {
  }

  /** The identifier of a step names its position. */
  lemma ParseStepIdOfStepId(n: nat)
    ensures ParseStepId(StepId(n)) == Some(n)
  {
    var id := StepId(n);
    assert id[..5] == "step-";
    assert id[5..] == Decimal.NatToString(n);
    Decimal.ParseNatToString(n);
  }

  /** The payload's step identifiers are pairwise distinct, and each one
      reads back as its 1-based position. */
  lemma StepIdsDistinct<M>(b: ContractBuilder<M>)
    requires Build(b).Success?
    ensures forall i :: 0 <= i < |b.steps| ==> ParseStepId(Build(b).value.steps[i].id) == Some(i + 1)
    ensures forall i, j :: 0 <= i < j < |b.steps| ==> Build(b).value.steps[i].id != Build(b).value.steps[j].id
  {
    var p := Build(b).value;
    forall i | 0 <= i < |b.steps|
      ensures ParseStepId(p.steps[i].id) == Some(i + 1)
    {
      ParseStepIdOfStepId(i + 1);
    }
  }

  /** The builder a payload describes: every field set, steps without ids. */
  function Unbuild<M>(p: ContractPayload<M>): ContractBuilder<M> {
    ContractBuilder(
      Some(p.title),
      Some(p.description),
      p.participants,
      seq(|p.steps|, i requires 0 <= i < |p.steps| => PendingStep(p.steps[i].description, p.steps[i].magicSpell)),
      p.productUuid,
      p.bdoLocation)
  }

  /** Nothing but the unset-versus-empty description is lost by building:
      the payload describes the builder it came from. */
  lemma UnbuildBuild<M>(b: ContractBuilder<M>)
    requires Build(b).Success?
    ensures Unbuild(Build(b).value) == b.(description := Some(b.description.GetOr("")))
  {
  }

  /** A payload with well-numbered steps and enough participants is what
      building its own description yields. */
  lemma BuildUnbuild<M>(p: ContractPayload<M>)
    requires |p.participants| >= 2 && |p.steps| >= 1
    requires forall i :: 0 <= i < |p.steps| ==> p.steps[i].id == StepId(i + 1)
    ensures Build(Unbuild(p)) == Success(p)
  {
    var r := Build(Unbuild(p));
    assert r.value.steps == p.steps;
  }

  /** Adding a step later leaves the earlier steps' identifiers alone: the
      new step is numbered after them. */
  lemma AddStepExtendsPayload<M>(b: ContractBuilder<M>, description: string)
    requires Build(b).Success?
    ensures Build(AddStep(b, description)).Success?
    ensures Build(AddStep(b, description)).value.steps
            == Build(b).value.steps + [StepPayload(StepId(|b.steps| + 1), description, None)]
  {
  }

  /** Adding participants in a batch is the same as adding them one by one. */
  lemma {:induction false} AddParticipantsIsRepeatedAdd<M>(b: ContractBuilder<M>, participants: seq<string>)
    ensures AddParticipants(b, participants) == AddEach(b, participants)
    decreases |participants|
  {
    if |participants| > 0 {
      var last := participants[|participants| - 1];
      var init := participants[..|participants| - 1];
      assert init + [last] == participants;
      calc {
        AddEach(b, participants);
        AddParticipant(AddEach(b, init), last);
        { AddParticipantsIsRepeatedAdd(b, init); }
        AddParticipant(AddParticipants(b, init), last);
        { AddOneAfterBatch(b, init, last); }
        AddParticipants(b, participants);
      }
    }
  }

  /** One more participant after a batch extends the batch. */
  lemma AddOneAfterBatch<M>(b: ContractBuilder<M>, init: seq<string>, last: string)
    ensures AddParticipant(AddParticipants(b, init), last) == AddParticipants(b, init + [last])
  {
    assert b.participants + init + [last] == b.participants + (init + [last]);
  }

  /** `participants` spelled as a loop of `participant` calls. */
  function AddEach<M>(b: ContractBuilder<M>, participants: seq<string>): ContractBuilder<M>
    decreases |participants|
  {
    if |participants| == 0 then b
    else AddParticipant(AddEach(b, participants[..|participants| - 1]), participants[|participants| - 1])
  }

  /** The two-party lease: title "Lease Agreement", participants alice and
      bob, steps "Sign lease" and "Pay deposit". */
  lemma LeaseAgreementScenario()
    ensures
      var b := AddStep(AddStep(AddParticipants(WithTitle(New<int>(), "Lease Agreement"), ["alice", "bob"]),
                               "Sign lease"), "Pay deposit");
      && Build(b).Success?
      && Build(b).value.participants == ["alice", "bob"]
      && Build(b).value.description == ""
      && |Build(b).value.steps| == 2
      && Build(b).value.steps[0].id == "step-1" && Build(b).value.steps[0].description == "Sign lease"
      && Build(b).value.steps[1].id == "step-2" && Build(b).value.steps[1].description == "Pay deposit"
  {
  }
}
