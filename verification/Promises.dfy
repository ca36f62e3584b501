/** What stored records say of the world, in terms of nothing but what they carry.

The predicates here are written out over record fields and digests alone.  The theorems tie them to every run, so
they hold of whatever the computations of the other modules left behind.
*/
module Promises {
  import opened Basics
  import opened Records
  import opened Kernel
  import opened Sessions
  import opened Governance
  import opened Invariants
  import opened Runs

  // ------------------------------------------------------------ forwards

  /** The forward is about this intent and stored under the key made of it. */
  ghost predicate CarriesIntent(config: Config, key: Digest, record: OutboxRecord, intent: Intent) {
    && record.source == key && record.intent == OfIntent(intent)
    && match record.ingress
       case ExternalSigned(_, body) =>
         && body == SubmitProposal(intent)
         && key == OfExternalSource(config.domain, config.epoch, intent.proposer, OfIntent(intent))
       case WorkerCandidate(built, source) =>
         && built == intent
         && key == OfWorkerSource(config.domain, config.epoch, intent.proposer, OfIntent(intent), source)
  }

  /** A labelled intent with at least one effect, every effect's content among its artifacts. */
  ghost predicate IsFormed(intent: Intent) {
    && intent.intentId != Text("") && |intent.effects| > 0
    && forall i :: 0 <= i < |intent.effects| ==>
         match intent.effects[i]
         case ManagedFilePut(_, content) => content in intent.artifacts
         case ManagedPointerPromotion(_, artifact) => artifact in intent.artifacts
         case ManagedFileDelete(_) => true
  }

  /** Formed, and inside the daemon's own domain and epoch. */
  ghost predicate FitToPropose(config: Config, intent: Intent) {
    && IsFormed(intent)
    && intent.domain == config.domain && intent.proposer.domain == config.domain
    && intent.epoch == config.epoch && intent.proposer.epoch == config.epoch
  }

  /** The judgment the intent names was made about this very intent: stored under its digest, its books orderly, and in
      each of them an entry for the subject made of the intent's domain, epoch, proposer, artifacts and effects. */
  ghost predicate OnOwnJudgment(judgments: Judgments, intent: Intent, admission: Admission) {
    var subject := OfSubject(intent.domain, intent.epoch, intent.proposer, intent.artifacts, intent.effects);
    && AdmitsSubject(judgments, intent.judgment, subject, admission)
    && var w := judgments[intent.judgment].judgment.commit.evidence;
       && w.standing.claim.subject == subject && w.custody.claim.subject == subject
       && w.obligation.claim.subject == subject && w.capacity.claim.subject == subject
  }

  ghost predicate IsAdmitted(judgments: Judgments, intent: Intent) {
    exists admission :: OnOwnJudgment(judgments, intent, admission)
  }

  lemma CurrentIsOnOwnJudgment(judgments: Judgments, intent: Intent, admission: Admission)
    requires JudgmentsBound(judgments)
    ensures VerifyAdmission(judgments, intent.judgment, SubjectOf(intent)) == Ok(admission) <==>
            OnOwnJudgment(judgments, intent, admission)
  {
    hide JudgmentsBound, VerifyAdmission, AdmitsSubject;
    VerifiesIff(judgments, intent.judgment, SubjectOf(intent), admission);
    if AdmitsSubject(judgments, intent.judgment, SubjectOf(intent), admission) {
      AdmittedIsAbout(judgments, intent.judgment, SubjectOf(intent), admission);
    }
  }

  lemma AdmittedIsAbout(judgments: Judgments, judgment: Digest, subject: Digest, admission: Admission)
    requires JudgmentsBound(judgments) && AdmitsSubject(judgments, judgment, subject, admission)
    ensures AboutSubject(judgments[judgment].judgment.commit.evidence, subject)
    ensures judgments[judgment].judgment.Admit?
  {
    hide Genuine, AllOrderly, Reconstruct, BooksReplay;
    assert JudgmentSound(judgments[judgment]);
  }

  /** What is wrong with the judgment an intent names, as each error says. */
  ghost predicate JudgmentFails(judgments: Judgments, intent: Intent, error: AgdError) {
    var subject := OfSubject(intent.domain, intent.epoch, intent.proposer, intent.artifacts, intent.effects);
    if intent.judgment !in judgments then error == JudgmentNotFound
    else
      var record := judgments[intent.judgment];
      match error
      case JudgmentBindingMismatch => record.subject != subject
      case JudgmentDidNotAdmit => record.subject == subject && !record.judgment.Admit?
      case _ => false
  }

  /** In a store of sound judgments nothing else can be wrong. */
  lemma VerificationSays(judgments: Judgments, intent: Intent)
    requires JudgmentsBound(judgments)
    ensures var verified := VerifyAdmission(judgments, intent.judgment, SubjectOf(intent));
            && (verified.Ok? <==> IsAdmitted(judgments, intent))
            && (verified.Err? ==> JudgmentFails(judgments, intent, verified.error))
  {
    var verified := VerifyAdmission(judgments, intent.judgment, SubjectOf(intent));
    RejectionsSayWhy(judgments, intent.judgment, SubjectOf(intent));
    if intent.judgment in judgments {
      SoundIsNeverReplayed(judgments[intent.judgment]);
    }
    hide VerifyAdmission, JudgmentsBound, JudgmentSound, Genuine, AllOrderly, OnOwnJudgment;
    if verified.Ok? {
      CurrentIsOnOwnJudgment(judgments, intent, verified.value);
    }
    forall admission | verified.Err? ensures !OnOwnJudgment(judgments, intent, admission) {
      CurrentIsOnOwnJudgment(judgments, intent, admission);
    }
  }

  lemma AdmittedNeverFails(judgments: Judgments, intent: Intent)
    ensures IsAdmitted(judgments, intent) ==> forall error :: !JudgmentFails(judgments, intent, error)
  {
    hide Genuine, AllOrderly;
  }

  lemma SoundIsNeverReplayed(record: JudgmentRecord)
    ensures JudgmentSound(record) && record.judgment.Admit? ==>
              record.books.Some? && AllOrderly(record.books.value) && Genuine(record.books.value, record.judgment.commit)
  {
    if JudgmentSound(record) && record.judgment.Admit? {
      AllOrderlyMeans(record.books.value);
      OnlyAdmissionReconstructs(record.books.value, record.judgment.commit);
      GenuineMeans(record.books.value, record.judgment.commit);
    }
    hide Genuine, AllOrderly, BooksReplay;
  }

  lemma FormedMeans(intent: Intent)
    ensures ValidShape(intent) <==> IsFormed(intent)
  {
    if IsFormed(intent) {
      forall e | e in intent.effects
        ensures (e.ManagedFilePut? ==> e.content in intent.artifacts)
        ensures e.ManagedPointerPromotion? ==> e.artifact in intent.artifacts
      {
        var i :| 0 <= i < |intent.effects| && intent.effects[i] == e;
      }
    }
  }

  lemma PresentableMeans(config: Config, intent: Intent)
    ensures Presentable(config, intent) <==> FitToPropose(config, intent)
  {
    hide ValidShape, IsFormed;
    FormedMeans(intent);
  }

  lemma SoundForwardSays(config: Config, judgments: Judgments, submissions: Submissions, key: Digest, record: OutboxRecord)
    requires JudgmentsBound(judgments) && ForwardSound(config, judgments, submissions, key, record)
    ensures var intent := IngressIntent(record.ingress).value;
            && CarriesIntent(config, key, record, intent) && FitToPropose(config, intent)
            && OnOwnJudgment(judgments, intent, record.admission)
  {
    hide JudgmentsBound, VerifyAdmission, OnOwnJudgment, ValidShape, FitToPropose;
    var intent := IngressIntent(record.ingress).value;
    CurrentIsOnOwnJudgment(judgments, intent, record.admission);
    PresentableMeans(config, intent);
  }

  /** In every reachable store each forward is about an intent fit to propose, under the key made of it, and rests on a
      judgment of that very intent. */
  lemma ForwardsRestOnTheirJudgment(config: Config, log: seq<Event>, n: nat, key: Digest)
    requires Legal(config, log) && n <= |log| && key in At(config, log, n).outbox
    ensures var w := At(config, log, n);
            var record := w.outbox[key].state;
            exists intent ::
              CarriesIntent(config, key, record, intent) && FitToPropose(config, intent)
              && OnOwnJudgment(w.judgments, intent, record.admission)
  {
    EveryPointIsSound(config, log, n);
    var w := At(config, log, n);
    var record := w.outbox[key].state;
    assert ForwardSound(config, w.judgments, w.submissions, key, record);
    SoundForwardSays(config, w.judgments, w.submissions, key, record);
  }

  /** The key a broker row has for what the broker was shown. */
  ghost predicate KeyedBy(b: BrokerKey, ingress: Ingress) {
    match ingress
    case ExternalSigned(_, body) => body.SubmitProposal? && b == ExternalSubmission(body.intent.proposer, OfIntent(body.intent))
    case WorkerCandidate(_, source) => b == OneShotSubmission(source.worker, source.chain)
  }

  ghost predicate Shows(ingress: Ingress, intent: Intent) {
    match ingress
    case ExternalSigned(_, body) => body == SubmitProposal(intent)
    case WorkerCandidate(built, _) => built == intent
  }

  lemma SoundSubmissionIsKeyed(config: Config, outbox: Outbox, submissions: Submissions, presented: set<Ingress>, b: BrokerKey)
    requires BrokerSound(config, outbox, submissions, presented) && b in submissions
    ensures KeyedBy(b, submissions[b].ingress)
    ensures ForwardSource(config, submissions[b].ingress).Some? && ForwardSource(config, submissions[b].ingress).value in outbox
  {
  }

  /** The broker's rows are keyed by what it was shown, which was stored as a forward before. */
  lemma SubmissionsAreKeyed(config: Config, log: seq<Event>, n: nat, b: BrokerKey)
    requires Legal(config, log) && n <= |log| && b in At(config, log, n).submissions
    ensures var w := At(config, log, n);
            && KeyedBy(b, w.submissions[b].ingress)
            && exists key, intent ::
                 key in w.outbox && CarriesIntent(config, key, w.outbox[key].state, intent) && Shows(w.submissions[b].ingress, intent)
  {
    hide Sound, OutboxSound, BrokerSound, ForwardSound, CarriesIntent, KeyedBy;
    EveryPointIsSound(config, log, n);
    var w := At(config, log, n);
    SoundParts(config, w);
    SoundSubmissionIsKeyed(config, w.outbox, w.submissions, w.presented, b);
    var key := ForwardSource(config, w.submissions[b].ingress).value;
    var intent := SoundCarries(config, w, key);
    SameForward(config, w.outbox[key].state.ingress, w.submissions[b].ingress);
    assert Shows(w.submissions[b].ingress, intent);
  }

  lemma SoundParts(config: Config, w: World)
    requires Sound(config, w)
    ensures BrokerSound(config, w.outbox, w.submissions, w.presented)
    ensures OutboxSound(config, w.judgments, w.submissions, w.outbox)
    ensures JudgmentsBound(w.judgments) && SessionsSound(config, w.outbox, w.proofs, w.blobs, w.sessions)
  {
  }

  lemma SoundCarries(config: Config, w: World, key: Digest) returns (intent: Intent)
    requires OutboxSound(config, w.judgments, w.submissions, w.outbox) && key in w.outbox
    ensures CarriesIntent(config, key, w.outbox[key].state, intent)
    ensures IngressIntent(w.outbox[key].state.ingress) == Some(intent)
    ensures ForwardSource(config, w.outbox[key].state.ingress) == Some(key)
  {
    hide AdmissionCurrent, Presentable, BrokerAnswered;
    var record := w.outbox[key].state;
    assert ForwardSound(config, w.judgments, w.submissions, key, record);
    intent := IngressIntent(record.ingress).value;
    BoundCarries(config, key, record);
  }

  lemma BoundCarries(config: Config, key: Digest, record: OutboxRecord)
    requires RecordBinds(config, key, record)
    ensures IngressIntent(record.ingress).Some? && CarriesIntent(config, key, record, IngressIntent(record.ingress).value)
  {
  }

  // ------------------------------------------------------------ sessions

  /** Root, then the governor where it is another principal, then the worker, inside the daemon's context. */
  ghost predicate HasLineage(config: Config, chain: Chain, worker: Principal) {
    && chain.domain == config.domain && chain.epoch == config.epoch
    && chain.nodes == if config.root == config.governor then [config.root, OfPrincipal(worker)]
                      else [config.root, config.governor, OfPrincipal(worker)]
  }

  /** The first profile of that name is the reviewed one. */
  ghost predicate IsReviewed(config: Config, id: string, profile: Profile) {
    && config.profiles.Some?
    && exists i :: 0 <= i < |config.profiles.value| && config.profiles.value[i] == profile && profile.id == id
                   && forall j :: 0 <= j < i ==> config.profiles.value[j].id != id
  }

  /** A session is launched by this governor, for itself, in this context and with that lineage. */
  ghost predicate LaunchedHere(config: Config, session: SessionId, spec: SessionSpec) {
    && spec.session == session && spec.worker.session == session && spec.worker.launcher == config.governor
    && spec.domain == config.domain && spec.worker.domain == config.domain
    && spec.epoch == config.epoch && spec.worker.epoch == config.epoch
    && HasLineage(config, spec.chain, spec.worker)
    && spec.workspace == spec.worker.workspace && spec.outputBudget == spec.worker.outputBudget
  }

  /** Custody of these bytes: they came with a proof by this session's worker, of the reviewed type, in time and within
      budget, and the session is fenced as accepted behind the receipt it was launched with. */
  ghost predicate HoldsCandidate(config: Config, session: SessionId, record: SessionRecord, profile: Profile, content: Bytes) {
    && !record.candidate.Awaiting? && IsReviewed(config, record.spec.profileId, profile)
    && var custody := record.candidate.custody;
    && custody.ingressProof.OfProof?
    && var proof := custody.ingressProof.proof;
    && proof.content == content && custody.content == OfBytes(content) && custody.length == |content|
    && |content| <= record.spec.outputBudget
    && custody.semanticType == proof.semanticType == profile.semanticType
    && custody.record == OfCustody(OfBytes(content), |content|, profile.semanticType, OfProof(proof))
    && proof.workerPrincipal == OfPrincipal(record.spec.worker) && proof.workerKey == record.spec.worker.keyIdentity
    && proof.nonce == record.spec.worker.nonce && proof.governorKey == config.governorKey
    && record.authority.Tombstoned? && record.authority.receipt.Some?
    && record.authority.tombstone == Tombstone(OfPrincipal(record.spec.worker), session, record.spec.worker.nonce,
                                               CandidateAccepted, record.authority.tombstone.since)
    && record.authority.tombstone.since < record.spec.worker.expiresAt
  }

  /** What a reviewed profile lets some content propose: its one effect on its one target, and nothing else. */
  ghost predicate Proposes(config: Config, session: SessionId, record: SessionRecord, profile: Profile, content: Digest,
                           intent: Intent) {
    && !record.candidate.Awaiting?
    && intent.intentId == ForCandidate(session, record.candidate.custody.record)
    && intent.domain == config.domain && intent.epoch == config.epoch
    && HasLineage(config, intent.proposer, record.spec.worker)
    && intent.artifacts == {content}
    && (profile.effect == PutsFile ==> intent.effects == [ManagedFilePut(profile.target, content)])
    && (profile.effect == PromotesPointer ==> intent.effects == [ManagedPointerPromotion(profile.target, content)])
  }

  ghost predicate IsReviewedProposal(config: Config, session: SessionId, record: SessionRecord, profile: Profile,
                                     content: Bytes, intent: Intent) {
    Proposes(config, session, record, profile, OfBytes(content), intent)
  }

  /** The judgment behind it: each of the governor's four one-entry books is about exactly this proposal. */
  ghost predicate IsOwnJudgment(config: Config, record: SessionRecord, intent: Intent, judgment: JudgmentRecord) {
    var origin := Origin(config.domain, config.epoch, record.spec.worker.nonce);
    var subject := OfSubject(intent.domain, intent.epoch, intent.proposer, intent.artifacts, intent.effects);
    && intent.judgment == OfJudgment(judgment) && judgment.subject == subject && judgment.judgment.Admit?
    && judgment.books == Some(Books(origin,
                                    [Entry(Ref(origin, WorkerStanding), subject)], [Entry(Ref(origin, WorkerCustody), subject)],
                                    [Entry(Ref(origin, WorkerMapping), subject)], [Entry(Ref(origin, WorkerCapacity), subject)]))
  }

  /** The proof that travels with it is what custody, launch and acceptance left in the session. */
  ghost predicate IsOwnProof(config: Config, record: SessionRecord, source: SourceProof) {
    && !record.candidate.Awaiting? && record.authority.Tombstoned?
    && source.worker == record.spec.worker && HasLineage(config, source.chain, record.spec.worker)
    && record.candidate.custody.ingressProof == OfProof(source.proof)
    && source.sessionBinding == OfSpec(record.spec) && source.workspace == record.spec.workspace
    && record.authority.receipt == Some(source.launchReceipt)
    && source.custody == record.candidate.custody.record && source.acceptedAt == record.authority.tombstone.since
  }

  /** The intent is what this session's bytes may propose. */
  ghost predicate ProposesReviewed(config: Config, session: SessionId, record: SessionRecord, intent: Intent) {
    exists profile, content ::
      HoldsCandidate(config, session, record, profile, content)
      && IsReviewedProposal(config, session, record, profile, content, intent)
  }

  lemma {:induction false} FoundIsFirst(profiles: seq<Profile>, id: string)
    ensures var found := FindProfile(profiles, id);
            found.Some? ==> exists i :: 0 <= i < |profiles| && profiles[i] == found.value && found.value.id == id
                                        && forall j :: 0 <= j < i ==> profiles[j].id != id
  {
    if profiles != [] && profiles[0].id != id {
      FoundIsFirst(profiles[1..], id);
      var found := FindProfile(profiles, id);
      if found.Some? {
        var i :| 0 <= i < |profiles[1..]| && profiles[1..][i] == found.value && found.value.id == id
          && forall j :: 0 <= j < i ==> profiles[1..][j].id != id;
        assert profiles[i + 1] == found.value;
        assert forall j :: 0 <= j < i + 1 ==> j == 0 || profiles[j] == profiles[1..][j - 1];
      }
    }
  }

  lemma {:induction false} FirstIsFound(profiles: seq<Profile>, id: string, i: nat)
    requires i < |profiles| && profiles[i].id == id && forall j :: 0 <= j < i ==> profiles[j].id != id
    ensures FindProfile(profiles, id) == Some(profiles[i])
  {
    if i > 0 {
      FirstIsFound(profiles[1..], id, i - 1);
    }
  }

  lemma FoundIsReviewed(config: Config, id: string)
    ensures forall profile :: ReviewedProfile(config, id) == Some(profile) <==> IsReviewed(config, id, profile)
  {
    if config.profiles.Some? {
      var profiles := config.profiles.value;
      FoundIsFirst(profiles, id);
      forall profile | IsReviewed(config, id, profile) ensures ReviewedProfile(config, id) == Some(profile) {
        var i :| 0 <= i < |profiles| && profiles[i] == profile && profile.id == id && forall j :: 0 <= j < i ==> profiles[j].id != id;
        FirstIsFound(profiles, id, i);
      }
    }
  }

  lemma ChainIsLineage(config: Config, worker: Principal)
    ensures forall chain ::
              WorkerChain(config, worker) == Some(chain) <==> worker.launcher == config.governor && HasLineage(config, chain, worker)
  {
    if worker.launcher == config.governor {
      var nodes := WorkerChain(config, worker).value.nodes;
      assert nodes == if config.root == config.governor then [config.root, OfPrincipal(worker)]
                      else [config.root, config.governor, OfPrincipal(worker)];
    }
  }

  /** Any record at all: a proof is rebuilt exactly from custody this governor launched and fenced as accepted, under the
      lineage it was launched with, and is then the session's own. */
  lemma SourceRebuildsIff(config: Config, record: SessionRecord, proof: IngressProof, source: SourceProof)
    ensures CandidateSource(config, record, proof) == Ok(source) <==>
            && IsOwnProof(config, record, source) && source.proof == proof && config.profiles.Some?
            && record.authority.tombstone.reason == CandidateAccepted
            && record.spec.worker.launcher == config.governor && source.chain == record.spec.chain
  {
    ChainIsLineage(config, record.spec.worker);
    hide WorkerChain, HasLineage;
  }

  ghost predicate IsMapping(config: Config, record: SessionRecord, profile: Profile, mapping: Mapping) {
    var intent := mapping.unjudged;
    && !record.candidate.Awaiting? && record.candidate.custody.semanticType == profile.semanticType
    && IsReviewed(config, record.spec.profileId, profile)
    && Proposes(config, record.spec.session, record, profile, record.candidate.custody.content, intent)
    && intent.judgment == OfPlaceholder(record.candidate.custody.record)
    && mapping.subject == OfSubject(intent.domain, intent.epoch, intent.proposer, intent.artifacts, intent.effects)
    && mapping.origin == Origin(config.domain, config.epoch, record.spec.worker.nonce)
  }

  /** And a proposal is rebuilt exactly from coherent custody of the reviewed type, and is what the profile allows. */
  lemma MappingRebuildsIff(config: Config, record: SessionRecord, mapping: Mapping)
    ensures CandidateMapping(config, record) == Ok(mapping) <==>
            && Coherent(record) && record.spec.worker.launcher == config.governor
            && exists profile :: IsMapping(config, record, profile, mapping)
  {
    ChainIsLineage(config, record.spec.worker);
    FoundIsReviewed(config, record.spec.profileId);
    hide WorkerChain, HasLineage, IsReviewed, FindProfile, Coherent;
    if CandidateMapping(config, record) == Ok(mapping) {
      assert IsMapping(config, record, ReviewedProfile(config, record.spec.profileId).value, mapping);
    }
    forall profile | IsMapping(config, record, profile, mapping) && Coherent(record) && record.spec.worker.launcher == config.governor
      ensures CandidateMapping(config, record) == Ok(mapping)
    {
      assert ReviewedProfile(config, record.spec.profileId) == Some(profile);
    }
  }

  lemma SoundCustodySays(config: Config, outbox: Outbox, proofs: set<IngressProof>, blobs: set<Bytes>, session: SessionId,
                         record: SessionRecord)
    requires SessionSound(config, outbox, proofs, blobs, session, record) && !record.candidate.Awaiting?
    ensures LaunchedHere(config, session, record.spec)
    ensures ReviewedProfile(config, record.spec.profileId).Some? && record.candidate.custody.ingressProof.OfProof?
    ensures var profile, content := ReviewedProfile(config, record.spec.profileId).value, record.candidate.custody.ingressProof.proof.content;
            HoldsCandidate(config, session, record, profile, content) && content in blobs
  {
    ChainIsLineage(config, record.spec.worker);
    FoundIsFirst(config.profiles.value, record.spec.profileId);
    hide FindProfile, WorkerChain, HasLineage;
  }

  lemma RebuiltProposal(config: Config, record: SessionRecord, profile: Profile, content: Bytes)
    requires CandidateIngress(config, record).Some? && ReviewedProfile(config, record.spec.profileId) == Some(profile)
    requires record.candidate.custody.content == OfBytes(content)
    ensures var ingress := CandidateIngress(config, record).value;
            ingress.WorkerCandidate? && IsReviewedProposal(config, record.spec.session, record, profile, content, ingress.intent)
  {
    ChainIsLineage(config, record.spec.worker);
    hide ReviewedProfile, WorkerChain, HasLineage, WorkerJudgment;
  }

  lemma RebuiltProof(config: Config, record: SessionRecord)
    requires CandidateIngress(config, record).Some?
    ensures var ingress := CandidateIngress(config, record).value;
            ingress.WorkerCandidate? && IsOwnProof(config, record, ingress.source)
  {
    ChainIsLineage(config, record.spec.worker);
    hide ReviewedProfile, WorkerChain, HasLineage, WorkerJudgment, CandidateMapping;
  }

  /** The rebuilt proof is the session's own, and the session's own proof is what is rebuilt. */
  lemma SourceIsOwn(config: Config, outbox: Outbox, proofs: set<IngressProof>, blobs: set<Bytes>, session: SessionId,
                    record: SessionRecord, source: SourceProof)
    requires SessionSound(config, outbox, proofs, blobs, session, record) && !record.candidate.Awaiting?
    ensures record.candidate.custody.ingressProof.OfProof?
    ensures CandidateSource(config, record, record.candidate.custody.ingressProof.proof) == Ok(source) <==>
            IsOwnProof(config, record, source)
  {
    SoundCustodyRebuilds(config, outbox, proofs, blobs, session, record);
    ChainIsLineage(config, record.spec.worker);
    hide ReviewedProfile, CandidateMapping, ProofBound;
  }

  lemma CustodyProposes(config: Config, outbox: Outbox, proofs: set<IngressProof>, blobs: set<Bytes>, session: SessionId,
                        record: SessionRecord, intent: Intent)
    requires SessionSound(config, outbox, proofs, blobs, session, record) && !record.candidate.Awaiting?
    requires CandidateMapping(config, record).Ok? && intent == JudgedIntent(CandidateMapping(config, record).value)
    ensures ProposesReviewed(config, session, record, intent)
    ensures IsOwnJudgment(config, record, intent, WorkerJudgment(WorkerOrigin(config, record), SubjectOf(intent)))
  {
    SoundCustodySays(config, outbox, proofs, blobs, session, record);
    SoundCustodyRebuilds(config, outbox, proofs, blobs, session, record);
    var profile, content := ReviewedProfile(config, record.spec.profileId).value, record.candidate.custody.ingressProof.proof.content;
    HeldBytes(config, session, record, profile, content);
    RebuiltProposal(config, record, profile, content);
    RebuiltJudgment(config, record);
    SoundIsOfSession(config, outbox, proofs, blobs, session, record);
    assert CandidateIngress(config, record).value.intent == intent;
    hide *;
  }

  lemma RebuiltJudgment(config: Config, record: SessionRecord)
    requires CandidateIngress(config, record).Some?
    ensures var ingress := CandidateIngress(config, record).value;
            && ingress.WorkerCandidate?
            && IsOwnJudgment(config, record, ingress.intent, WorkerJudgment(WorkerOrigin(config, record), SubjectOf(ingress.intent)))
  {
    hide ReviewedProfile, WorkerChain, WorkerJudgment, CandidateSource, UnjudgedIntent;
    var intent := CandidateIngress(config, record).value.intent;
    WorkerJudgmentSays(WorkerOrigin(config, record), SubjectOf(intent));
  }

  lemma WorkerJudgmentSays(origin: Origin, subject: Digest)
    ensures var judgment := WorkerJudgment(origin, subject);
            && judgment.subject == subject && judgment.judgment.Admit?
            && judgment.books == Some(Books(origin,
                 [Entry(Ref(origin, WorkerStanding), subject)], [Entry(Ref(origin, WorkerCustody), subject)],
                 [Entry(Ref(origin, WorkerMapping), subject)], [Entry(Ref(origin, WorkerCapacity), subject)]))
  {
    WorkerJudgmentAdmits(origin, subject);
    hide Evaluate, BooksReplay, VerifyAdmission, JudgmentSound;
  }

  /** From the bytes in custody to the forward they stand for: in every reachable store a session with custody was
      launched here, holds the bytes its own worker proved under the reviewed profile, and stands for exactly the
      profile's effect on the profile's target with those bytes, on a judgment of exactly that. */
  lemma CustodyProposesWhatWasReviewed(config: Config, log: seq<Event>, n: nat, s: SessionId)
    requires Legal(config, log) && n <= |log|
    requires s in At(config, log, n).sessions && !At(config, log, n).sessions[s].state.candidate.Awaiting?
    ensures var w := At(config, log, n);
            var record := w.sessions[s].state;
            && LaunchedHere(config, s, record.spec)
            && exists profile, content, intent, source, judgment ::
                 && HoldsCandidate(config, s, record, profile, content) && content in w.blobs
                 && CandidateIngress(config, record) == Some(WorkerCandidate(intent, source))
                 && IsReviewedProposal(config, s, record, profile, content, intent)
                 && IsOwnJudgment(config, record, intent, judgment) && IsOwnProof(config, record, source)
  {
    hide Sound, SessionsSound, HoldsCandidate, IsReviewedProposal, IsOwnJudgment, IsOwnProof, LaunchedHere;
    EveryPointIsSound(config, log, n);
    var w := At(config, log, n);
    SoundParts(config, w);
    CustodySays(config, w, s);
  }

  lemma CustodySays(config: Config, w: World, s: SessionId)
    requires SessionsSound(config, w.outbox, w.proofs, w.blobs, w.sessions)
    requires s in w.sessions && !w.sessions[s].state.candidate.Awaiting?
    ensures var record := w.sessions[s].state;
            && LaunchedHere(config, s, record.spec)
            && exists profile, content, intent, source, judgment ::
                 && HoldsCandidate(config, s, record, profile, content) && content in w.blobs
                 && CandidateIngress(config, record) == Some(WorkerCandidate(intent, source))
                 && IsReviewedProposal(config, s, record, profile, content, intent)
                 && IsOwnJudgment(config, record, intent, judgment) && IsOwnProof(config, record, source)
  {
    var record := w.sessions[s].state;
    assert SessionSound(config, w.outbox, w.proofs, w.blobs, s, record);
    SoundCustodySays(config, w.outbox, w.proofs, w.blobs, s, record);
    SoundCustodyRebuilds(config, w.outbox, w.proofs, w.blobs, s, record);
    var profile, content := ReviewedProfile(config, record.spec.profileId).value, record.candidate.custody.ingressProof.proof.content;
    HeldBytes(config, s, record, profile, content);
    RebuiltProposal(config, record, profile, content);
    RebuiltProof(config, record);
    RebuiltJudgment(config, record);
    SoundIsOfSession(config, w.outbox, w.proofs, w.blobs, s, record);
    hide *;
    var ingress := CandidateIngress(config, record).value;
    assert ingress == WorkerCandidate(ingress.intent, ingress.source);
  }

  lemma HeldBytes(config: Config, s: SessionId, record: SessionRecord, profile: Profile, content: Bytes)
    requires HoldsCandidate(config, s, record, profile, content)
    ensures record.candidate.custody.content == OfBytes(content)
  {
  }

  lemma SoundIsOfSession(config: Config, outbox: Outbox, proofs: set<IngressProof>, blobs: set<Bytes>, s: SessionId, record: SessionRecord)
    requires SessionSound(config, outbox, proofs, blobs, s, record)
    ensures record.spec.session == s
  {
  }

  /** So in a rooted run a worker's forward carries its own session's proposal, proof and judgment, and no other. */
  lemma WorkerForwardsAreReviewed(config: Config, log: seq<Event>, n: nat, key: Digest)
    requires Rooted(config, log) && n <= |log| && key in At(config, log, n).outbox && key.OfWorkerSource?
    ensures var w := At(config, log, n);
            var s := key.source.worker.session;
            && s in w.sessions
            && exists profile, content, intent, judgment ::
                 && HoldsCandidate(config, s, w.sessions[s].state, profile, content)
                 && w.outbox[key].state.ingress == WorkerCandidate(intent, key.source)
                 && IsReviewedProposal(config, s, w.sessions[s].state, profile, content, intent)
                 && IsOwnJudgment(config, w.sessions[s].state, intent, judgment)
                 && IsOwnProof(config, w.sessions[s].state, key.source)
                 && intent.judgment in w.judgments && w.judgments[intent.judgment] == judgment
  {
    hide Sound, SessionsSound, OutboxSound, JudgmentsBound, HoldsCandidate, IsReviewedProposal, IsOwnJudgment, IsOwnProof,
         LaunchedHere, OnOwnJudgment;
    var w, s := At(config, log, n), key.source.worker.session;
    EveryPointIsSound(config, log, n);
    SoundParts(config, w);
    assert RootedAt(config, log, n);
    RootedStands(config, log, n, key);
    CustodySays(config, w, s);
    var intent := SoundCarries(config, w, key);
    SameForward(config, CandidateIngress(config, w.sessions[s].state).value, w.outbox[key].state.ingress);
    StoredJudgment(config, w, key, intent);
    OwnJudgmentIsNamed(config);
  }

  lemma RootedStands(config: Config, log: seq<Event>, n: nat, key: Digest)
    requires Legal(config, log) && n <= |log| && RootedAt(config, log, n) && key in At(config, log, n).outbox && key.OfWorkerSource?
    ensures var w, s := At(config, log, n), key.source.worker.session;
            && s in w.sessions && CandidateIngress(config, w.sessions[s].state).Some?
            && ForwardSource(config, CandidateIngress(config, w.sessions[s].state).value) == Some(key)
            && !w.sessions[s].state.candidate.Awaiting?
  {
    assert StandsFor(config, At(config, log, n).sessions, key);
  }

  lemma StoredJudgment(config: Config, w: World, key: Digest, intent: Intent)
    requires JudgmentsBound(w.judgments) && OutboxSound(config, w.judgments, w.submissions, w.outbox) && key in w.outbox
    requires IngressIntent(w.outbox[key].state.ingress) == Some(intent)
    ensures intent.judgment in w.judgments && OfJudgment(w.judgments[intent.judgment]) == intent.judgment
  {
    assert ForwardSound(config, w.judgments, w.submissions, key, w.outbox[key].state);
  }

  lemma OwnJudgmentIsNamed(config: Config)
    ensures forall record, intent, judgment :: IsOwnJudgment(config, record, intent, judgment) ==> intent.judgment == OfJudgment(judgment)
  {
  }

  // ------------------------------------------------------------ outcomes

  /** What a session outcome says of the broker's response: which of the three it was, and about which digest. */
  ghost predicate Tells(outcome: BrokerOutcome, response: Response) {
    forall d ::
      && (outcome == Canonicalized(d) <==> response.ProposalSubmitted? && response.proposalDigest == d)
      && (outcome == Refused(d) <==> response == ProposalRefused(d))
      && (outcome == Indeterminate(d) <==> response == ProposalIndeterminate(d))
  }

  lemma OutcomeTells(response: Response)
    ensures forall outcome :: Tells(outcome, response) <==> outcome == OutcomeOf(response)
  {
    forall outcome | Tells(outcome, response) ensures outcome == OutcomeOf(response) {
      match response
      case ProposalSubmitted(_, d) => assert outcome == Canonicalized(d);
      case ProposalRefused(d) => assert outcome == Refused(d);
      case ProposalIndeterminate(d) => assert outcome == Indeterminate(d);
    }
  }

  /** The forward a session's custody stands for is completed with a response that this outcome tells. */
  ghost predicate OutcomeIsTold(config: Config, outbox: Outbox, record: SessionRecord, outcome: BrokerOutcome) {
    var key := CustodyForward(config, record);
    && key.Some? && key.value in outbox && outbox[key.value].state.state.Completed?
    && Tells(outcome, outbox[key.value].state.state.response)
  }

  lemma StoredIsTold(config: Config, outbox: Outbox, record: SessionRecord, outcome: BrokerOutcome)
    ensures OutcomeIsStored(config, outbox, record, outcome) <==> OutcomeIsTold(config, outbox, record, outcome)
  {
    hide CandidateIngress, Tells;
    var key := CustodyForward(config, record);
    if key.Some? && key.value in outbox && outbox[key.value].state.state.Completed? {
      OutcomeTells(outbox[key.value].state.state.response);
    }
  }

  /** In every reachable store a recorded session outcome is Canonicalized, Refused or Indeterminate exactly as the
      completed response under its rebuilt key was a submission, a refusal or neither, of the same digest. */
  lemma OutcomesMatchTheOutbox(config: Config, log: seq<Event>, n: nat, s: SessionId)
    requires Legal(config, log) && n <= |log|
    requires s in At(config, log, n).sessions && At(config, log, n).sessions[s].state.candidate.BrokerCompleted?
    ensures var w := At(config, log, n);
            OutcomeIsTold(config, w.outbox, w.sessions[s].state, w.sessions[s].state.candidate.outcome)
  {
    EveryPointIsSound(config, log, n);
    var w := At(config, log, n);
    assert SessionSound(config, w.outbox, w.proofs, w.blobs, s, w.sessions[s].state);
    StoredIsTold(config, w.outbox, w.sessions[s].state, w.sessions[s].state.candidate.outcome);
  }

  datatype Answer = Submitted | Declined | Undetermined

  /** The forward this session's custody stands for was answered in this way. */
  ghost predicate AnsweredAs(config: Config, outbox: Outbox, record: SessionRecord, answer: Answer) {
    var key := CustodyForward(config, record);
    && key.Some? && key.value in outbox && outbox[key.value].state.state.Completed?
    && match answer
       case Submitted => outbox[key.value].state.state.response.ProposalSubmitted?
       case Declined => outbox[key.value].state.state.response.ProposalRefused?
       case Undetermined => outbox[key.value].state.state.response.ProposalIndeterminate?
  }

  lemma ToldIsAnswered(config: Config, outbox: Outbox, record: SessionRecord, outcome: BrokerOutcome)
    requires OutcomeIsTold(config, outbox, record, outcome)
    ensures outcome.Canonicalized? <==> AnsweredAs(config, outbox, record, Submitted)
    ensures outcome.Refused? <==> AnsweredAs(config, outbox, record, Declined)
    ensures outcome.Indeterminate? <==> AnsweredAs(config, outbox, record, Undetermined)
  {
    hide CustodyForward;
    OutcomeTells(outbox[CustodyForward(config, record).value].state.state.response);
  }
}
