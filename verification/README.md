# Covenant client SDK — contract builder and contract views

A Dafny model of the local, pure logic of the Covenant Rust client SDK
(`covenant-rs`). The SDK talks to a remote contract-management service. A
contract is a multi-party, multi-step agreement whose steps participants
sign. The model covers:

- the data shapes of a contract, its steps and the step signatures
  (`Types`), with the step's opaque `magic_spell` JSON value as a type
  parameter `M`;
- `ContractBuilder` (`Builder`): the fluent setters, and `build`, which
  checks for a title, then at least two participants, then at least one
  step, and assembles the creation payload with steps numbered
  `step-1 … step-n` in insertion order;
- the progress view `get_contract_progress` (`Progress`);
- the per-user view `get_user_signature_status` (`SignatureStatus`);
- the client's pure helpers (`Client`): the trailing-slash trim of the
  base URL in `new`, the unwrap rule for the `{success, data, error}`
  response envelope, the outcome of the SVG request, and the SVG query
  string.

Supporting modules: `Wrappers` (Option, Result), `Decimal` (the decimal
numeral Rust's `format!` prints for an unsigned integer, and its parser),
`Text` (join and split on a one-character separator).

The builder is a value: each setter returns an updated copy and `Build` is
a function. So `build` cannot change the builder, and one builder state
always gives one result. This matches `build(&self)`.

`get_user_signature_status` without a user and without a signing identity
fails with a `SessionlessError` carrying "User UUID required".

## Model

| member | source | states |
|---|---|---|
| Builder.WithTitle | src/client/rust/covenant-rs/src/lib.rs:407-410 | sets the title; no other field changes |
| Builder.WithDescription | src/client/rust/covenant-rs/src/lib.rs:412-415 | sets the description; no other field changes |
| Builder.AddParticipant | src/client/rust/covenant-rs/src/lib.rs:417-420 | appends the participant at the end and keeps the earlier ones in order; a duplicate is kept, so the participant occurs once more; no other field changes |
| Builder.AddParticipants | src/client/rust/covenant-rs/src/lib.rs:422-429 | appends the given participants at the end in the given order; no other field changes |
| Builder.AddParticipantsIsRepeatedAdd | src/client/rust/covenant-rs/src/lib.rs:417-429 | adding a batch of participants equals adding them one at a time |
| Builder.AddStep | src/client/rust/covenant-rs/src/lib.rs:431-434 | appends one step with the description and no spell; earlier steps and other fields unchanged |
| Builder.AddStepWithMagic | src/client/rust/covenant-rs/src/lib.rs:436-439 | appends one step with the description and the spell; earlier steps and other fields unchanged |
| Builder.WithProductUuid | src/client/rust/covenant-rs/src/lib.rs:441-444 | sets the product uuid; no other field changes |
| Builder.WithBdoLocation | src/client/rust/covenant-rs/src/lib.rs:446-449 | sets the BDO location; no other field changes |
| Builder.NumberSteps | src/client/rust/covenant-rs/src/lib.rs:463-469 | one payload step per added step, in order; step i gets id `step-(first+i)` and keeps its description and spell |
| Builder.Build | src/client/rust/covenant-rs/src/lib.rs:451-479 | missing title fails first, then fewer than 2 participants, then no steps, each a validation error with its message; on success the payload copies title, participants, product uuid and location, defaults the description to "", and numbers the steps `step-1…` |
| Builder.BuildSucceedsIff | src/client/rust/covenant-rs/src/lib.rs:451-461 | build succeeds exactly when there is a title, at least 2 participants and at least 1 step |
| Builder.NewIsRejected | src/client/rust/covenant-rs/src/lib.rs:396-405 | a fresh builder fails validation for its missing title |
| Builder.ParseStepIdOfStepId | src/client/rust/covenant-rs/src/lib.rs:465 | a step id reads back as the position it was made from |
| Builder.StepIdsDistinct | src/client/rust/covenant-rs/src/lib.rs:463-469 | the payload's step ids are pairwise distinct, and each names its 1-based position |
| Builder.New | src/client/rust/covenant-rs/src/lib.rs:396-405 | the empty builder: no title, description, product uuid or location; no participants or steps |
| Builder.UnbuildBuild | src/client/rust/covenant-rs/src/lib.rs:463-478 | the payload value describes the builder it came from; of the builder's state, only unset-versus-empty description is lost |
| Builder.BuildUnbuild | src/client/rust/covenant-rs/src/lib.rs:451-478 | a payload with at least 2 participants and steps numbered `step-1…` is what building its own description yields |
| Builder.AddStepExtendsPayload | src/client/rust/covenant-rs/src/lib.rs:431-469 | adding a step to a valid builder keeps the earlier payload steps and adds one numbered after them |
| Builder.LeaseAgreementScenario | src/client/rust/covenant-rs/src/lib.rs:451-479 | the two-party lease with two steps builds with ids `step-1`, `step-2`, participants alice and bob, and an empty description |
| Decimal.NatToString | src/client/rust/covenant-rs/src/lib.rs:465 | the numeral is non-empty, all digits, and without a leading zero |
| Decimal.ParseNatToString | src/client/rust/covenant-rs/src/lib.rs:465 | parsing a printed numeral gives the number back |
| Decimal.NatToStringInjective | src/client/rust/covenant-rs/src/lib.rs:465 | two numbers have the same numeral exactly when they are equal |
| Progress.CompletedCount | src/client/rust/covenant-rs/src/lib.rs:341 | the count of completed steps never exceeds the number of steps |
| Progress.AllCompletedIff | src/client/rust/covenant-rs/src/lib.rs:341 | the completed count equals the step count exactly when every step is completed |
| Progress.NoneCompletedIff | src/client/rust/covenant-rs/src/lib.rs:341 | the completed count is zero exactly when no step is completed |
| Progress.CompletedCountAppend | src/client/rust/covenant-rs/src/lib.rs:341 | the completed count of a concatenation is the sum of the counts |
| Progress.Percent | src/client/rust/covenant-rs/src/lib.rs:347-348 | the percentage times the total is the completed count times 100; it lies in 0..100 and is 100 exactly when all steps are completed |
| Progress.GetContractProgress | src/client/rust/covenant-rs/src/lib.rs:339-355 | totals equal the step and participant counts; completed is at most total; complete exactly when every step is completed; a contract with no steps is complete and reports 0 percent |
| SignatureStatus.SignatureOf | src/client/rust/covenant-rs/src/lib.rs:369 | a signature is found exactly when the user has an entry in the step's map and that entry holds a signature |
| SignatureStatus.StatusList | src/client/rust/covenant-rs/src/lib.rs:368-378 | one record per step, in step order, with the step's id, description and completion; signed exactly when the user's entry holds a signature, whose timestamp is then reported |
| SignatureStatus.GetUserSignatureStatus | src/client/rust/covenant-rs/src/lib.rs:358-381 | fails exactly when neither a user nor a signing identity is given; otherwise the records for the given user, or for the identity when no user is given |
| SignatureStatus.ExplicitUserWins | src/client/rust/covenant-rs/src/lib.rs:359-366 | an explicit user is used whatever signing identity the client holds |
| SignatureStatus.CompletedRecordsMatchProgress | src/client/rust/covenant-rs/src/lib.rs:368-378 | the number of records marked completed equals the progress view's completed count, for every user |
| SignatureStatus.SameStepsForEveryUser | src/client/rust/covenant-rs/src/lib.rs:371-376 | two users get the same steps with the same completion; only their signed flags and timestamps differ |
| SignatureStatus.UnknownUserSignedNothing | src/client/rust/covenant-rs/src/lib.rs:369-374 | a user absent from every step's map has signed nothing |
| SignatureStatus.PlaceholderIsNotSigned | src/client/rust/covenant-rs/src/lib.rs:369-375 | an entry recorded without a signature does not count as signed and has no timestamp |
| Client.TrimTrailingSlashes | src/client/rust/covenant-rs/src/lib.rs:133 | the result is a prefix of the input, does not end with a slash, and only slashes were cut off |
| Client.TrimTrailingSlashesUnique | src/client/rust/covenant-rs/src/lib.rs:133 | those three properties determine the trimmed string |
| Client.NormalizeBaseUrl | src/client/rust/covenant-rs/src/lib.rs:132-136 | a URL not ending with a slash is kept as is; otherwise all trailing slashes are stripped |
| Client.NormalizeBaseUrlIsTrim | src/client/rust/covenant-rs/src/lib.rs:132-136 | the `ends_with` guard is redundant: normalising is trimming, and it is idempotent |
| Client.New | src/client/rust/covenant-rs/src/lib.rs:131-145 | creating a client never fails, keeps the signing identity, and stores the trimmed base URL |
| Client.Unwrap | src/client/rust/covenant-rs/src/lib.rs:168-176 | a failure flag gives a service error with the service's text or the endpoint's default; success without data gives a service error; otherwise the data |
| Client.UnwrapRespond | src/client/rust/covenant-rs/src/lib.rs:168-176 | unwrapping the envelope of an outcome recovers the outcome |
| Client.UnwrapDelete | src/client/rust/covenant-rs/src/lib.rs:297-303 | delete reports the service's error on a failure flag, otherwise the uuid asked for, whatever data came back |
| Client.DeleteSkipsMissingDataRule | src/client/rust/covenant-rs/src/lib.rs:297-303 | delete is the one endpoint without the missing-data rule: a successful envelope without data is a success for delete and an error for every other endpoint; a failure flag with error text gives the same service error as the others |
| Client.SvgOutcome | src/client/rust/covenant-rs/src/lib.rs:326-335 | a successful status gives the body text; otherwise the envelope's error text or "SVG generation failed"; a body the HTTP library cannot read, as text or as an envelope, gives a request error |
| Client.SvgErrorFollowsUnwrap | src/client/rust/covenant-rs/src/lib.rs:328-333 | an SVG error reply with error text is reported exactly as a failed envelope with that text is unwrapped |
| Client.SvgParamList | src/client/rust/covenant-rs/src/lib.rs:310-319 | one `key=value` pair per given parameter, theme first and height last, and the pairs read back as the given theme, width and height |
| Client.SvgQuery | src/client/rust/covenant-rs/src/lib.rs:310-324 | the query is empty exactly when no parameter is given, and otherwise starts with `?` |
| Client.ParseSvgQueryRoundTrip | src/client/rust/covenant-rs/src/lib.rs:310-324 | the query reads back as theme, width and height, when the theme holds no `&`, `#`, `%` or `+` |
| Client.UnescapedThemeCollides | src/client/rust/covenant-rs/src/lib.rs:311-312 | the theme is not escaped: a theme containing `&width=5` gives the same query as a separate width of 5 |

## Left out

- HTTP transport and the async request methods (`health_check`,
  `create_contract`, `get_contract`, `update_contract`, `sign_step`,
  `list_contracts`, `get_my_contracts`, `delete_contract`, and the request
  part of `get_contract_svg`): network I/O. Only the pure unwrap rule
  after each request and the SVG query and outcome are modelled. Errors the
  HTTP library raises while sending a request or decoding its reply are
  request errors, raised before the unwrap and passed through unchanged.
- The URL paths of the requests, including the `?participant=` query of
  `list_contracts`: string formatting around network calls.
- JSON (de)serialization: the payload is a Dafny datatype, not JSON text.
  `magic_spell` is an opaque type parameter.
- Signing with `Sessionless` and `chrono::Utc::now()` timestamps in
  `sign_step`: a foreign cryptographic capability and the wall clock. The
  signing identity is modelled only as an optional uuid.
- The records `ContractSummary`, `HealthInfo`, `SignStepRequest` and
  `SignStepResponse`: they are only carried by the request methods.
- `Default for ContractBuilder`: it is `new`.
- The `Display` texts of the error kinds: formatting only. The messages
  the code passes to each kind are kept as constants.
- Builder.UnbuildBuild: the payload is a value, not JSON text. In the
  program, serde writes a missing spell and a spell that is the JSON
  value `null` both as `null`. Those two builders then give the same
  payload. The opaque spell type cannot express this, so the model keeps
  them apart.
- Progress.Percent: computes the exact ratio `completed / total * 100` as a
  real number, not the `f64` value the source computes, because floating
  point rounding is not modelled.
- Progress.GetContractProgress: its percentage is that exact ratio too, for
  the same reason.
- Counts are unbounded naturals, not `usize`, and timestamps are unbounded
  integers, not `i64`. Neither wraps in practice.
- Client.ParseSvgQueryRoundTrip: holds only for themes without `&`, `#`, `%`
  or `+`, because the source does not escape the theme (see
  Client.UnescapedThemeCollides). `&` splits pairs, `#` starts a URL
  fragment, and a URL decoder rewrites `%XX` and `+`.
- Client.ParseSvgQuery: a simplified reader of the query. It splits on `&`
  and reads `key=value` pairs, with no fragment handling and no
  percent-decoding. So the round trip shows only that the pairs are laid
  out recoverably. It does not describe what the service receives for a
  theme holding those characters.
