/** The durable lifecycle of one worker session: prepared, active, fenced for good.

`Advance` is the closed transition function.  The lemmas below say what no sequence of
transitions can undo: the specification, a tombstone, an accepted candidate, a broker outcome.
*/
module Sessions {
  import opened Basics
  import opened Records

  datatype SessionEvent =
    | Activate(launchReceipt: Digest)
    | Fence(tombstone: Tombstone)
    | AcceptCandidate(custody: Custody, tombstone: Tombstone)
    | CompleteCleanup(receipt: Digest, at: nat)
    | RecordBrokerOutcome(outcome: BrokerOutcome)

  function Fresh(spec: SessionSpec): SessionRecord {
    SessionRecord(spec, Prepared, Awaiting)
  }

  function CustodyRecord(content: Digest, length: nat, semanticType: string, ingressProof: Digest): Custody {
    Custody(content, length, semanticType, ingressProof, OfCustody(content, length, semanticType, ingressProof))
  }

  predicate CustodyVerifies(custody: Custody) {
    custody == CustodyRecord(custody.content, custody.length, custody.semanticType, custody.ingressProof)
  }

  predicate TombstoneBinds(spec: SessionSpec, tombstone: Tombstone) {
    && tombstone.principal == OfPrincipal(spec.worker)
    && tombstone.session == spec.session
    && tombstone.nonce == spec.worker.nonce
  }

  /** Every binding a stored record must keep: a custodied candidate is always fenced behind its own acceptance. */
  predicate Coherent(record: SessionRecord) {
    && (record.authority.Tombstoned? ==> TombstoneBinds(record.spec, record.authority.tombstone))
    && (!record.candidate.Awaiting? ==>
          && CustodyVerifies(record.candidate.custody)
          && record.candidate.custody.length <= record.spec.outputBudget
          && record.authority.Tombstoned? && record.authority.receipt.Some?
          && record.authority.tombstone.reason.CandidateAccepted?)
  }

  /** One transition, or `None` where the lifecycle forbids it. */
  function Advance(record: SessionRecord, event: SessionEvent): (next: Option<SessionRecord>)
    ensures next.Some? ==> Coherent(next.value) && next.value.spec == record.spec
  {
    var next := match event
      case Activate(launchReceipt) =>
        if record.authority.Prepared? then Some(record.(authority := Active(launchReceipt))) else None
      case Fence(tombstone) =>
        if record.authority.Tombstoned? || !TombstoneBinds(record.spec, tombstone) then None
        else
          var receipt := if record.authority.Active? then Some(record.authority.launchReceipt) else None;
          Some(record.(authority := Tombstoned(receipt, tombstone, CleanupPending)))
      case AcceptCandidate(custody, tombstone) =>
        if !record.authority.Active? || !record.candidate.Awaiting? || !CustodyVerifies(custody)
           || custody.length > record.spec.outputBudget || !TombstoneBinds(record.spec, tombstone)
           || tombstone.reason != CandidateAccepted
        then None
        else
          Some(record.(authority := Tombstoned(Some(record.authority.launchReceipt), tombstone, CleanupPending),
                       candidate := InCustody(custody)))
      case CompleteCleanup(receipt, at) =>
        if record.authority.Tombstoned? && record.authority.cleanup.CleanupPending?
        then Some(record.(authority := record.authority.(cleanup := CleanupComplete(receipt, at)))) else None
      case RecordBrokerOutcome(outcome) =>
        match record.candidate
        case Awaiting => None
        case InCustody(custody) => Some(record.(candidate := BrokerCompleted(custody, outcome)))
        case BrokerCompleted(_, existing) => if existing == outcome then Some(record) else None;
    if next.Some? && Coherent(next.value) then next else None
  }

  /** The terminal fact of this session's own principal. */
  ghost predicate IsOwnTombstone(spec: SessionSpec, tombstone: Tombstone) {
    tombstone == Tombstone(OfPrincipal(spec.worker), spec.session, spec.worker.nonce, tombstone.reason, tombstone.since)
  }

  /** The lifecycle as a relation between records. */
  ghost predicate Steps(before: SessionRecord, event: SessionEvent, after: SessionRecord) {
    match event
    case Activate(receipt) =>
      before.authority == Prepared && after == SessionRecord(before.spec, Active(receipt), before.candidate)
    case Fence(tombstone) =>
      && IsOwnTombstone(before.spec, tombstone)
      && (|| (before.authority == Prepared
              && after == SessionRecord(before.spec, Tombstoned(None, tombstone, CleanupPending), before.candidate))
          || (exists receipt ::
                && before.authority == Active(receipt)
                && after == SessionRecord(before.spec, Tombstoned(Some(receipt), tombstone, CleanupPending), before.candidate)))
    case AcceptCandidate(custody, tombstone) =>
      && IsOwnTombstone(before.spec, tombstone) && tombstone.reason == CandidateAccepted
      && custody.record == OfCustody(custody.content, custody.length, custody.semanticType, custody.ingressProof)
      && custody.length <= before.spec.outputBudget && before.candidate == Awaiting
      && exists receipt ::
           && before.authority == Active(receipt)
           && after == SessionRecord(before.spec, Tombstoned(Some(receipt), tombstone, CleanupPending), InCustody(custody))
    case CompleteCleanup(receipt, at) =>
      exists launched, tombstone ::
        && before.authority == Tombstoned(launched, tombstone, CleanupPending)
        && after == SessionRecord(before.spec, Tombstoned(launched, tombstone, CleanupComplete(receipt, at)), before.candidate)
    case RecordBrokerOutcome(outcome) =>
      exists custody ::
        && (before.candidate == InCustody(custody) || before.candidate == BrokerCompleted(custody, outcome))
        && after == SessionRecord(before.spec, before.authority, BrokerCompleted(custody, outcome))
  }

  /** The transition function is that relation: the validation that closes every transition never refuses one. */
  lemma AdvancesIff(before: SessionRecord, event: SessionEvent, after: SessionRecord)
    requires Coherent(before)
    ensures Advance(before, event) == Some(after) <==> Steps(before, event, after)
  {
    if Advance(before, event) == Some(after) {
      match event
      case Fence(_) =>
        if before.authority.Active? {
          assert before.authority == Active(before.authority.launchReceipt);
        }
      case AcceptCandidate(_, _) => assert before.authority == Active(before.authority.launchReceipt);
      case CompleteCleanup(_, _) =>
        assert before.authority == Tombstoned(before.authority.receipt, before.authority.tombstone, CleanupPending);
      case RecordBrokerOutcome(_) => assert after.candidate.BrokerCompleted?;
      case _ =>
    }
  }

  /** What a later record may differ from an earlier one in. */
  predicate Grows(before: SessionRecord, after: SessionRecord) {
    && after.spec == before.spec
    && (before.authority.Active? ==> !after.authority.Prepared?)
    && (before.authority.Tombstoned? ==>
          && after.authority.Tombstoned?
          && after.authority.receipt == before.authority.receipt
          && after.authority.tombstone == before.authority.tombstone
          && (before.authority.cleanup.CleanupComplete? ==> after.authority.cleanup == before.authority.cleanup))
    && (!before.candidate.Awaiting? ==>
          && !after.candidate.Awaiting? && after.candidate.custody == before.candidate.custody
          && after.authority.Tombstoned?)
    && (before.candidate.BrokerCompleted? ==> after.candidate == before.candidate)
    && (before.candidate.Awaiting? && before.authority.Tombstoned? ==> after.candidate.Awaiting?)
  }

  lemma AdvanceGrows(record: SessionRecord, event: SessionEvent)
    requires Coherent(record) && Advance(record, event).Some?
    ensures Grows(record, Advance(record, event).value)
  {
  }

  lemma GrowsTransitive(a: SessionRecord, b: SessionRecord, c: SessionRecord)
    requires Grows(a, b) && Grows(b, c)
    ensures Grows(a, c)
  {
  }

  // ------------------------------------------------------------ refusals are closed

  /** The tombstone reason for a candidate refused on its own account, if the error is one. */
  function RefusalReason(error: AgdError): Option<Reason> {
    if error.WorkerProtocol? then Some(CandidateRefused(MalformedFrame))
    else if error.RpcAuthentication? then Some(CandidateRefused(AuthenticationFailed))
    else if error.WorkerProofMismatch? then Some(CandidateRefused(PrincipalBindingMismatch))
    else if error.WorkerProfileBindingMismatch? || error.WorkerCandidateSemanticMismatch? then
      Some(CandidateRefused(ReviewedProfileMismatch))
    else if error.WorkerCandidateExpired? then Some(CandidateRefused(Expired))
    else if error.WorkerCandidateBudgetExceeded? then Some(OutputBudgetExceeded(error.observed))
    else None
  }

  function ProcessFailureReason(error: LaunchError): Reason {
    match error
    case TimedOut => DeadlineExpired
    case CandidateLimitExceeded(observed) => OutputBudgetExceeded(observed)
    case Boundary => BoundaryIndeterminate
    case UnknownProfile => WorkerFailed(ProcessFault(""))
    case OtherFailure(what) => WorkerFailed(ProcessFault(what))
  }

  // ------------------------------------------------------------ rebuilding a forward from custody

  /** The lineage under which a worker's candidate is proposed. */
  function WorkerChain(config: Config, worker: Principal): Option<Chain> {
    if worker.launcher != config.governor then None
    else Some(Chain(config.domain, config.epoch,
                    [config.root] + (if config.governor != config.root then [config.governor] else [])
                    + [OfPrincipal(worker)]))
  }

  function FindProfile(profiles: seq<Profile>, id: string): (found: Option<Profile>)
    ensures found.Some? ==> found.value in profiles && found.value.id == id
  {
    if profiles == [] then None
    else if profiles[0].id == id then Some(profiles[0])
    else FindProfile(profiles[1..], id)
  }

  function ReviewedProfile(config: Config, id: string): Option<Profile> {
    if config.profiles.None? then None else FindProfile(config.profiles.value, id)
  }

  /** The worker's proof, rebuilt from the durable record and the installed ingress-proof blob. */
  function CandidateSource(config: Config, record: SessionRecord, proof: IngressProof): Result<SourceProof> {
    if record.candidate.Awaiting? then Err(WorkerCandidateNotInCustody)
    else if !(&& record.authority.Tombstoned? && record.authority.receipt.Some?
              && record.authority.tombstone.reason.CandidateAccepted?) then Err(WorkerProofMismatch)
    else if record.candidate.custody.ingressProof != OfProof(proof) then Err(WorkerProofMismatch)
    else if config.profiles.None? then Err(WorkerRuntimeUnavailable)
    else
      var chain := WorkerChain(config, record.spec.worker);
      if chain.None? then Err(WorkerProfileBindingMismatch)
      else if chain.value != record.spec.chain then Err(WorkerProofMismatch)
      else Ok(SourceProof(record.spec.worker, chain.value, proof, OfSpec(record.spec), record.spec.workspace,
                          record.authority.receipt.value, record.candidate.custody.record,
                          record.authority.tombstone.since))
  }

  function CandidateEffectOf(profile: Profile, content: Digest): Effect {
    match profile.effect
    case PutsFile => ManagedFilePut(profile.target, content)
    case PromotesPointer => ManagedPointerPromotion(profile.target, content)
  }

  /** The intent before it names the judgment made about it. */
  function UnjudgedIntent(config: Config, record: SessionRecord, profile: Profile, chain: Chain): Intent
    requires !record.candidate.Awaiting?
  {
    var custody := record.candidate.custody;
    Intent(ForCandidate(record.spec.session, custody.record), config.domain, config.epoch, chain,
           OfPlaceholder(custody.record), {custody.content}, [CandidateEffectOf(profile, custody.content)])
  }

  function WorkerOrigin(config: Config, record: SessionRecord): Origin {
    Origin(config.domain, config.epoch, record.spec.worker.nonce)
  }

  datatype Mapping = Mapping(subject: Digest, origin: Origin, unjudged: Intent)

  /** Target and effect come from the reviewed profile; the worker's bytes only fill the content slot. */
  function CandidateMapping(config: Config, record: SessionRecord): Result<Mapping> {
    if !Coherent(record) then Err(SessionStoreFailure)
    else if record.candidate.Awaiting? then Err(WorkerCandidateNotInCustody)
    else if config.profiles.None? then Err(WorkerRuntimeUnavailable)
    else
      var profile := ReviewedProfile(config, record.spec.profileId);
      if profile.None? || record.candidate.custody.semanticType != profile.value.semanticType
      then Err(WorkerProfileBindingMismatch)
      else
        var chain := WorkerChain(config, record.spec.worker);
        if chain.None? then Err(WorkerProfileBindingMismatch)
        else
          var intent := UnjudgedIntent(config, record, profile.value, chain.value);
          Ok(Mapping(SubjectOf(intent), WorkerOrigin(config, record), intent))
  }

  /** Neither cleanup nor the broker's outcome changes what custody rebuilds to. */
  lemma RebuildIsStable(config: Config, before: SessionRecord, after: SessionRecord, proof: IngressProof)
    requires Coherent(before) && Coherent(after) && Grows(before, after)
    requires !before.candidate.Awaiting?
    ensures CandidateSource(config, after, proof) == CandidateSource(config, before, proof)
    ensures CandidateMapping(config, after) == CandidateMapping(config, before)
  {
  }

  /** The rebuilt forward is pinned by the reviewed configuration: for a record both configurations map,
      the results agree exactly when the authority context, the launch lineage and the profile's effect and target do. */
  lemma RebuildDependsOnReview(a: Config, b: Config, record: SessionRecord)
    requires CandidateMapping(a, record).Ok? && CandidateMapping(b, record).Ok?
    ensures CandidateMapping(a, record) == CandidateMapping(b, record) <==>
            && a.domain == b.domain && a.epoch == b.epoch
            && WorkerChain(a, record.spec.worker) == WorkerChain(b, record.spec.worker)
            && ReviewedProfile(a, record.spec.profileId).value.effect == ReviewedProfile(b, record.spec.profileId).value.effect
            && ReviewedProfile(a, record.spec.profileId).value.target == ReviewedProfile(b, record.spec.profileId).value.target
  {
    var pa, pb := ReviewedProfile(a, record.spec.profileId).value, ReviewedProfile(b, record.spec.profileId).value;
    var ia, ib := CandidateMapping(a, record).value.unjudged, CandidateMapping(b, record).value.unjudged;
    if ia == ib {
      assert ia.effects[0] == ib.effects[0];
    }
  }

  function OutcomeOf(response: Response): BrokerOutcome {
    match response
    case ProposalSubmitted(_, proposalDigest) => Canonicalized(proposalDigest)
    case ProposalRefused(refusal) => Refused(refusal)
    case ProposalIndeterminate(envelope) => Indeterminate(envelope)
  }
}
