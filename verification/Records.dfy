/** The governor's durable records and the identities that bind them.

A `Digest` is symbolic: one constructor for each domain-separated hash the governor takes,
carrying the hashed material.  Equal digests therefore have equal material, which is the ideal
(collision-free) reading of the hash; no constructor is shared between two domains.
*/
module Records {

  import opened Basics

  datatype Result<+T> = Ok(value: T) | Err(error: AgdError)

  datatype SessionId = SessionId(text: string)

  datatype Digest =
    | Named(name: string)
    | EmptyBook
    | OfPlaceholder(custodyRecord: Digest)
    | OfBytes(bytes: Bytes)
    | OfPrincipal(principal: Principal)
    | OfSpec(spec: SessionSpec)
    | OfProof(proof: IngressProof)
    | OfCustody(content: Digest, length: nat, semanticType: string, ingressProof: Digest)
    | OfIntent(intent: Intent)
    | OfSubject(domain: string, epoch: nat, proposer: Chain, artifacts: set<Digest>, effects: seq<Effect>)
    | OfJudgment(judgment: JudgmentRecord)
    | OfBookEvent(family: Family, head: Digest, entry: Entry)
    | OfWitness(evidence: Witness)
    | OfContext(heads: seq<Digest>)
    | OfCommit(witnessDigest: Digest, context: Digest)
    | OfExternalSource(domain: string, epoch: nat, proposer: Chain, intentDigest: Digest)
    | OfWorkerSource(domain: string, epoch: nat, proposer: Chain, intentDigest: Digest, source: SourceProof)
    | OfCleanup(after: CleanupCause, session: SessionId, reason: Reason, at: nat)
    | OfAcceptedCleanup(session: SessionId, authority: Authority)

  /** The three domains in which a cleanup after a retirement is digested; an accepted worker's has its own. */
  datatype CleanupCause = FailedActivation | ProcessEnd | Cancellation

  /** A root-to-leaf lineage of principals inside one authority domain and epoch. */
  datatype Chain = Chain(domain: string, epoch: nat, nodes: seq<Digest>)

  // ------------------------------------------------------------ proposals

  datatype Effect =
    | ManagedFilePut(target: string, content: Digest)
    | ManagedPointerPromotion(target: string, artifact: Digest)
    | ManagedFileDelete(target: string)

  /** The caller's correlation label; the governor's own labels name the session and its custody. */
  datatype Label = Text(text: string) | ForCandidate(session: SessionId, custody: Digest)

  datatype Intent = Intent(
    intentId: Label,
    domain: string,
    epoch: nat,
    proposer: Chain,
    judgment: Digest,
    artifacts: set<Digest>,
    effects: seq<Effect>)

  /** The shape checks made before an intent is looked at any further. */
  predicate ValidShape(intent: Intent) {
    && intent.intentId != Text("") && intent.effects != []
    && forall e :: e in intent.effects ==>
         && (e.ManagedFilePut? ==> e.content in intent.artifacts)
         && (e.ManagedPointerPromotion? ==> e.artifact in intent.artifacts)
  }

  /** What a judgment is about: everything in the intent but its label and its judgment. */
  function SubjectOf(intent: Intent): Digest {
    OfSubject(intent.domain, intent.epoch, intent.proposer, intent.artifacts, intent.effects)
  }

  datatype Request =
    | Health
    | SubmitProposal(intent: Intent)
    | LaunchWorker(profileId: string)
    | InspectWorker(session: SessionId)
    | CancelWorker(session: SessionId, reason: Digest)

  /** An authenticated proposer exchange, or a governor-built intent with its worker's proof. */
  datatype Ingress =
    | ExternalSigned(challenge: nat, body: Request)
    | WorkerCandidate(intent: Intent, source: SourceProof)

  function IngressIntent(ingress: Ingress): Option<Intent> {
    match ingress
    case ExternalSigned(_, SubmitProposal(intent)) => Some(intent)
    case ExternalSigned(_, _) => None
    case WorkerCandidate(intent, _) => Some(intent)
  }

  // ------------------------------------------------------------ judgments

  datatype Origin = Origin(domain: string, epoch: nat, nonce: nat)
  datatype BookId = WorkerStanding | WorkerCustody | WorkerMapping | WorkerCapacity | OtherEntry(name: string)
  datatype Ref = Ref(origin: Origin, local: BookId)
  datatype Family = Standing | Custodial | Obligation | Capacity
  datatype Entry = Entry(reference: Ref, subject: Digest)
  datatype Claim = Claim(origin: Origin, subject: Digest, reference: Ref)
  datatype FamilyWitness = FamilyWitness(claim: Claim, head: Digest, observed: Digest)

  datatype Books = Books(origin: Origin, standing: seq<Entry>, custody: seq<Entry>,
                         obligation: seq<Entry>, capacity: seq<Entry>)
  datatype CrossingClaim = CrossingClaim(standing: Claim, custody: Claim, obligation: Claim, capacity: Claim)
  datatype Witness = Witness(standing: FamilyWitness, custody: FamilyWitness,
                             obligation: FamilyWitness, capacity: FamilyWitness)
  datatype Commit = Commit(evidence: Witness, witnessDigest: Digest, context: Digest, commitDigest: Digest)

  /** One native failure of one family against its book. */
  datatype FamilyFailure =
    | BookOriginMismatch(claimOrigin: Origin, bookOrigin: Origin)
    | ReferenceOriginMismatch(claimOrigin: Origin, referenceOrigin: Origin)
    | MissingReference(reference: Ref)
    | SubjectMismatch(reference: Ref, expected: Digest, observed: Digest)

  datatype CrossingFailure =
    | FamilyRefused(family: Family, failures: seq<FamilyFailure>)
    | OriginMismatch(family: Family, expectedOrigin: Origin, observedOrigin: Origin)

  datatype Judgment =
    | Admit(commit: Commit)
    | Refuse(failures: seq<CrossingFailure>)
    | Undecided(envelope: seq<string>)

  datatype JudgmentRecord = JudgmentRecord(subject: Digest, books: Option<Books>, judgment: Judgment)

  /** Evidence that a judgment was rebuilt into authority just before forwarding. */
  datatype Admission = Admission(judgment: Digest, commit: Digest)

  // ------------------------------------------------------------ forward outbox

  datatype Response =
    | ProposalSubmitted(proposalId: string, proposalDigest: Digest)
    | ProposalRefused(refusal: Digest)
    | ProposalIndeterminate(envelope: Digest)

  datatype OutboxState = Pending | Completed(response: Response)

  datatype OutboxRecord = OutboxRecord(source: Digest, intent: Digest, admission: Admission,
                                       ingress: Ingress, state: OutboxState)

  /** A materialized row with the revision its next compare-and-swap must name. */
  datatype Cell<+T> = Cell(state: T, revision: nat)

  // ------------------------------------------------------------ worker sessions

  datatype Principal = Principal(
    domain: string,
    epoch: nat,
    session: SessionId,
    nonce: nat,
    launcher: Digest,
    keyIdentity: Digest,
    workspace: Digest,
    expiresAt: nat,
    outputBudget: nat)

  datatype SessionSpec = SessionSpec(
    session: SessionId,
    domain: string,
    epoch: nat,
    profileId: string,
    worker: Principal,
    chain: Chain,
    workspace: Digest,
    outputBudget: nat)

  /** The signed one-shot exchange by which a worker hands over its candidate. */
  datatype IngressProof = IngressProof(
    governorKey: Digest,
    workerPrincipal: Digest,
    workerKey: Digest,
    challenge: nat,
    nonce: nat,
    semanticType: string,
    content: Bytes)

  datatype SourceProof = SourceProof(
    worker: Principal,
    chain: Chain,
    proof: IngressProof,
    sessionBinding: Digest,
    workspace: Digest,
    launchReceipt: Digest,
    custody: Digest,
    acceptedAt: nat)

  datatype RefusalCode =
    | MalformedFrame
    | AuthenticationFailed
    | PrincipalBindingMismatch
    | ReviewedProfileMismatch
    | Expired

  datatype Failure = ActivationStore | ReleaseGate | AbnormalExit(code: int) | ProcessFault(what: string)

  datatype Reason =
    | CandidateAccepted
    | CandidateRefused(code: RefusalCode)
    | LaunchFailed(failure: Failure)
    | WorkerFailed(failure: Failure)
    | DeadlineExpired
    | OutputBudgetExceeded(observed: nat)
    | Cancelled(reason: Digest)
    | RestartRecovery
    | BoundaryIndeterminate

  datatype Tombstone = Tombstone(principal: Digest, session: SessionId, nonce: nat, reason: Reason, since: nat)

  datatype Cleanup = CleanupPending | CleanupComplete(receipt: Digest, at: nat)

  datatype Authority =
    | Prepared
    | Active(launchReceipt: Digest)
    | Tombstoned(receipt: Option<Digest>, tombstone: Tombstone, cleanup: Cleanup)

  datatype Custody = Custody(content: Digest, length: nat, semanticType: string,
                             ingressProof: Digest, record: Digest)

  datatype BrokerOutcome =
    | Canonicalized(proposal: Digest)
    | Refused(refusal: Digest)
    | Indeterminate(envelope: Digest)

  datatype CandidateState =
    | Awaiting
    | InCustody(custody: Custody)
    | BrokerCompleted(custody: Custody, outcome: BrokerOutcome)

  datatype SessionRecord = SessionRecord(spec: SessionSpec, authority: Authority, candidate: CandidateState)

  // ------------------------------------------------------------ reviewed configuration

  datatype CandidateEffect = PutsFile | PromotesPointer

  datatype Profile = Profile(id: string, semanticType: string, effect: CandidateEffect, target: string,
                             timeout: nat, outputBudget: nat)

  /** The root-owned configuration.  It does not change over a run, restarts included. */
  datatype Config = Config(
    domain: string,
    epoch: nat,
    root: Digest,
    governor: Digest,
    governorKey: Digest,
    profiles: Option<seq<Profile>>,
    maxFrame: nat,
    maxArtifact: nat)

  // ------------------------------------------------------------ errors

  datatype LaunchError = TimedOut | CandidateLimitExceeded(observed: nat) | Boundary | UnknownProfile | OtherFailure(what: string)

  datatype AgdError =
    | StoreFailure
    | SessionStoreFailure
    | Clock
    | Quiesced
    | TransportFailure
    | BrokerFailure
    | JudgmentNotFound
    | JudgmentBindingMismatch
    | JudgmentDidNotAdmit
    | BookReplay
    | AuthorityReplay
    | MalformedIntent
    | ProposerBindingMismatch
    | OutboxBindingMismatch
    | WorkerLaunchFailure(launch: LaunchError)
    | WorkerRuntimeUnavailable
    | WorkerCapacityExhausted
    | WorkerRuntimeMissing
    | WorkerSupervisorBusy
    | WorkerRecoveryRequired
    | WorkerProtocol
    | RpcAuthentication
    | WorkerProofMismatch
    | WorkerCandidateSemanticMismatch
    | WorkerCandidateBudgetExceeded(observed: nat)
    | WorkerCandidateExpired
    | WorkerCandidateNotInCustody
    | WorkerJudgmentDidNotAdmit
    | WorkerProfileBindingMismatch

  /** Failures after which a forward stays pending and may be resumed. */
  predicate IsDeferred(error: AgdError) {
    error.TransportFailure? || error.BrokerFailure?
  }
}
