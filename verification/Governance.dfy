/** Everything that outlives a governor operation, and the steps that may change it.

A run is the list of its events in order.  Each durable commit is one event, so a crash between any
two commits of an operation is simply where a list stops: what holds of every permitted log holds at
every crash point.  The effect broker's own durable table is part of the world, because the promise
made to a proposer spans both daemons.
*/
module Governance {
  import opened Basics
  import opened Records
  import opened Kernel
  import opened Sessions

  // ------------------------------------------------------------ forward identity

  /** The stable key of a forward: independent of challenges, nonces and transport. */
  function ForwardSource(config: Config, ingress: Ingress): Option<Digest> {
    var intent := IngressIntent(ingress);
    if intent.None? then None
    else match ingress
      case ExternalSigned(_, _) =>
        Some(OfExternalSource(config.domain, config.epoch, intent.value.proposer, OfIntent(intent.value)))
      case WorkerCandidate(_, source) =>
        Some(OfWorkerSource(config.domain, config.epoch, intent.value.proposer, OfIntent(intent.value), source))
  }

  /** A stored forward recomputes to the key it is stored under. */
  predicate RecordBinds(config: Config, key: Digest, record: OutboxRecord) {
    && IngressIntent(record.ingress).Some?
    && record.intent == OfIntent(IngressIntent(record.ingress).value)
    && record.source == key
    && ForwardSource(config, record.ingress) == Some(key)
  }

  /** The gates on content that every forward passes before it is stored: its shape, and the daemon's own context. */
  predicate Presentable(config: Config, intent: Intent) {
    && ValidShape(intent)
    && intent.domain == intent.proposer.domain == config.domain && intent.epoch == intent.proposer.epoch == config.epoch
  }

  predicate AdmissionCurrent(judgments: map<Digest, JudgmentRecord>, record: OutboxRecord) {
    var intent := IngressIntent(record.ingress);
    intent.Some? &&
    VerifyAdmission(judgments, intent.value.judgment, SubjectOf(intent.value)) == Ok(record.admission)
  }

  /** The broker's own idempotency key for the same exchange. */
  datatype BrokerKey =
    | ExternalSubmission(proposer: Chain, intent: Digest)
    | OneShotSubmission(worker: Principal, chain: Chain)

  function BrokerKeyOf(ingress: Ingress): BrokerKey
    requires IngressIntent(ingress).Some?
  {
    match ingress
    case ExternalSigned(_, _) =>
      ExternalSubmission(IngressIntent(ingress).value.proposer, OfIntent(IngressIntent(ingress).value))
    case WorkerCandidate(_, source) => OneShotSubmission(source.worker, source.chain)
  }

  datatype Submission = Submission(ingress: Ingress, response: Response)

  /** Two ingresses with one forward key carry the same intent and meet the same broker key. */
  lemma SameForward(config: Config, a: Ingress, b: Ingress)
    requires ForwardSource(config, a).Some? && ForwardSource(config, a) == ForwardSource(config, b)
    ensures IngressIntent(a) == IngressIntent(b)
    ensures BrokerKeyOf(a) == BrokerKeyOf(b)
    ensures a.WorkerCandidate? ==> a == b
  {
  }

  // ------------------------------------------------------------ forwards rebuilt from custody

  function JudgedIntent(mapping: Mapping): Intent {
    mapping.unjudged.(judgment := OfJudgment(WorkerJudgment(mapping.origin, mapping.subject)))
  }

  /** The ingress that accepted custody stands for; a function of the record and the configuration alone. */
  function CandidateIngress(config: Config, record: SessionRecord): Option<Ingress> {
    if record.candidate.Awaiting? || !record.candidate.custody.ingressProof.OfProof? then None
    else
      var source := CandidateSource(config, record, record.candidate.custody.ingressProof.proof);
      var mapping := CandidateMapping(config, record);
      if source.Err? || mapping.Err? then None
      else Some(WorkerCandidate(JudgedIntent(mapping.value), source.value))
  }

  /** The forward that accepted custody stands for. */
  function CustodyForward(config: Config, record: SessionRecord): Option<Digest> {
    var ingress := CandidateIngress(config, record);
    if ingress.None? then None else ForwardSource(config, ingress.value)
  }

  /** The broker outcome is the image of the response stored under the rebuilt key. */
  predicate OutcomeIsStored(config: Config, outbox: map<Digest, Cell<OutboxRecord>>, record: SessionRecord,
                            outcome: BrokerOutcome) {
    var ingress := CandidateIngress(config, record);
    && ingress.Some?
    && var key := ForwardSource(config, ingress.value);
    && key.Some? && key.value in outbox
    && outbox[key.value].state.state.Completed?
    && OutcomeOf(outbox[key.value].state.state.response) == outcome
  }

  // ------------------------------------------------------------ session bindings

  predicate SpecBound(config: Config, spec: SessionSpec) {
    && spec.domain == config.domain == spec.worker.domain
    && spec.epoch == config.epoch == spec.worker.epoch
    && spec.worker.session == spec.session
    && spec.worker.launcher == config.governor
    && Some(spec.chain) == WorkerChain(config, spec.worker)
    && spec.workspace == spec.worker.workspace
    && spec.outputBudget == spec.worker.outputBudget
  }

  /** The live checks a candidate passed on its way into custody. */
  predicate ProofBound(config: Config, spec: SessionSpec, custody: Custody, acceptedAt: nat) {
    && custody.ingressProof.OfProof?
    && var proof := custody.ingressProof.proof;
    && custody == CustodyRecord(OfBytes(proof.content), |proof.content|, proof.semanticType, OfProof(proof))
    && proof.workerPrincipal == OfPrincipal(spec.worker)
    && proof.workerKey == spec.worker.keyIdentity
    && proof.governorKey == config.governorKey
    && proof.nonce == spec.worker.nonce
    && acceptedAt < spec.worker.expiresAt
    && var profile := ReviewedProfile(config, spec.profileId);
    && profile.Some? && profile.value.semanticType == proof.semanticType
  }

  // ------------------------------------------------------------ the world

  /** A worker's process as its retained handle knows it. */
  datatype Process = Gated | Running | Killed | Reaped

  datatype World = World(
    judgments: map<Digest, JudgmentRecord>,
    outbox: map<Digest, Cell<OutboxRecord>>,
    sessions: map<SessionId, Cell<SessionRecord>>,
    proofs: set<IngressProof>,
    blobs: set<Bytes>,
    submissions: map<BrokerKey, Submission>,
    presented: set<Ingress>,
    processes: map<SessionId, Process>,
    released: set<SessionId>,
    poisoned: bool)

  function Empty(): World {
    World(map[], map[], map[], {}, {}, map[], {}, map[], {}, false)
  }

  datatype ForwardChange =
    | Opened(record: OutboxRecord)
    | Reproofed(revision: nat, ingress: Ingress)
    | Closed(revision: nat, response: Response)

  datatype SessionChange =
    | Begun(spec: SessionSpec)
    | Advanced(revision: nat, step: SessionEvent)

  datatype BrokerChange =
    | Called(ingress: Ingress)
    | Recorded(ingress: Ingress, response: Response)

  datatype Signal = Gate | Release | Abort | Exit | Terminate | Reap | Drop

  datatype Event =
    | JudgmentCommitted(record: JudgmentRecord)
    | Forward(key: Digest, forward: ForwardChange)
    | Session(session: SessionId, change: SessionChange)
    | ProofInstalled(proof: IngressProof)
    | BlobInstalled(bytes: Bytes)
    | Broker(broker: BrokerChange)
    | Worker(session: SessionId, signal: Signal)
    | GovernorPoisoned
    | GovernorCrashed

  // ------------------------------------------------------------ when a change may happen, and what it does

  type Judgments = map<Digest, JudgmentRecord>
  type Outbox = map<Digest, Cell<OutboxRecord>>
  type SessionTable = map<SessionId, Cell<SessionRecord>>
  type Submissions = map<BrokerKey, Submission>

  predicate StillPending(outbox: Outbox, key: Digest, revision: nat) {
    key in outbox && outbox[key].revision == revision && outbox[key].state.state.Pending?
  }

  /** The broker's stored answer is one to this ingress: a fresh external proof of the same intent is answered from
      the table, while a worker is one-shot, so a different proof or candidate under its principal is not. */
  predicate BrokerAnswered(submissions: Submissions, ingress: Ingress, response: Response) {
    && IngressIntent(ingress).Some? && BrokerKeyOf(ingress) in submissions
    && submissions[BrokerKeyOf(ingress)].response == response
    && (ingress.WorkerCandidate? ==> submissions[BrokerKeyOf(ingress)].ingress == ingress)
  }

  /** A forward opens on a current admission, and closes only on what the broker durably recorded. */
  predicate ForwardPermitted(config: Config, judgments: Judgments, submissions: Submissions, outbox: Outbox,
                             key: Digest, change: ForwardChange) {
    match change
    case Opened(record) =>
      && key !in outbox && record.state.Pending? && RecordBinds(config, key, record) && AdmissionCurrent(judgments, record)
      && Presentable(config, IngressIntent(record.ingress).value)
    case Reproofed(revision, ingress) =>
      StillPending(outbox, key, revision) && ForwardSource(config, ingress) == Some(key)
    case Closed(revision, response) =>
      StillPending(outbox, key, revision) && BrokerAnswered(submissions, outbox[key].state.ingress, response)
  }

  function ForwardAfter(outbox: Outbox, key: Digest, change: ForwardChange): Outbox
    requires !change.Opened? ==> key in outbox
  {
    match change
    case Opened(record) => outbox[key := Cell(record, 1)]
    case Reproofed(revision, ingress) => outbox[key := Cell(outbox[key].state.(ingress := ingress), revision + 1)]
    case Closed(revision, response) => outbox[key := Cell(outbox[key].state.(state := Completed(response)), revision + 1)]
  }

  /** A change of a stored forward is a change of that one field under the next revision. */
  lemma RowAfter(outbox: Outbox, key: Digest, revision: nat, ingress: Ingress, response: Response)
    requires key in outbox
    ensures ForwardAfter(outbox, key, Reproofed(revision, ingress))
         == outbox[key := Cell(outbox[key].state.(ingress := ingress), revision + 1)]
    ensures ForwardAfter(outbox, key, Closed(revision, response))
         == outbox[key := Cell(outbox[key].state.(state := Completed(response)), revision + 1)]
  {
  }

  predicate StepPermitted(config: Config, outbox: Outbox, proofs: set<IngressProof>, blobs: set<Bytes>,
                          record: SessionRecord, step: SessionEvent) {
    match step
    case AcceptCandidate(custody, tombstone) =>
      && ProofBound(config, record.spec, custody, tombstone.since)
      && custody.ingressProof.proof in proofs && custody.ingressProof.proof.content in blobs
    case RecordBrokerOutcome(outcome) => OutcomeIsStored(config, outbox, record, outcome)
    case _ => true
  }

  predicate SessionPermitted(config: Config, outbox: Outbox, proofs: set<IngressProof>, blobs: set<Bytes>,
                             sessions: SessionTable, session: SessionId, change: SessionChange) {
    match change
    case Begun(spec) => session !in sessions && spec.session == session && SpecBound(config, spec)
    case Advanced(revision, step) =>
      && session in sessions && sessions[session].revision == revision
      && Advance(sessions[session].state, step).Some?
      && StepPermitted(config, outbox, proofs, blobs, sessions[session].state, step)
  }

  function SessionAfter(sessions: SessionTable, session: SessionId, change: SessionChange): SessionTable
    requires change.Advanced? ==> session in sessions && Advance(sessions[session].state, change.step).Some?
  {
    match change
    case Begun(spec) => sessions[session := Cell(Fresh(spec), 1)]
    case Advanced(revision, step) =>
      sessions[session := Cell(Advance(sessions[session].state, step).value, revision + 1)]
  }

  /** The governor calls only for a pending forward, with the ingress that is stored; the broker may act on a
      call at any later time, but records one answer per key. */
  predicate BrokerPermitted(config: Config, outbox: Outbox, submissions: Submissions, presented: set<Ingress>,
                            change: BrokerChange) {
    match change
    case Called(ingress) =>
      var key := ForwardSource(config, ingress);
      && key.Some? && key.value in outbox
      && outbox[key.value].state.state.Pending? && outbox[key.value].state.ingress == ingress
    case Recorded(ingress, _) =>
      ingress in presented && IngressIntent(ingress).Some? && BrokerKeyOf(ingress) !in submissions
  }

  predicate Fenced(sessions: SessionTable, session: SessionId) {
    session in sessions && sessions[session].state.authority.Tombstoned?
  }

  predicate SignalPermitted(sessions: SessionTable, processes: map<SessionId, Process>, released: set<SessionId>,
                            poisoned: bool, session: SessionId, signal: Signal) {
    match signal
    case Gate => session in processes ==> processes[session].Reaped?
    case Release =>
      && session in processes && processes[session].Gated? && session !in released
      && session in sessions && sessions[session].state.authority.Active?
    case Abort => session in processes && processes[session].Gated?
    case Exit => session in processes && processes[session].Running?
    case Terminate => session in processes && processes[session].Running? && Fenced(sessions, session)
    case Reap => session in processes && processes[session].Killed?
    case Drop => session in processes && processes[session].Running? && (Fenced(sessions, session) || poisoned)
  }

  function ProcessAfter(signal: Signal): Process {
    match signal
    case Gate => Gated
    case Release => Running
    case Abort => Killed
    case Terminate => Killed
    case _ => Reaped
  }

  /** When an event may happen.  Everything the governor does must be one of these. */
  predicate Permitted(config: Config, w: World, event: Event) {
    match event
    case JudgmentCommitted(record) => OfJudgment(record) !in w.judgments && JudgmentSound(record)
    case Forward(key, change) => ForwardPermitted(config, w.judgments, w.submissions, w.outbox, key, change)
    case Session(session, change) => SessionPermitted(config, w.outbox, w.proofs, w.blobs, w.sessions, session, change)
    case ProofInstalled(_) => true
    case BlobInstalled(_) => true
    case Broker(change) => BrokerPermitted(config, w.outbox, w.submissions, w.presented, change)
    case Worker(session, signal) => SignalPermitted(w.sessions, w.processes, w.released, w.poisoned, session, signal)
    case GovernorPoisoned => true
    case GovernorCrashed => true
  }

  function After(config: Config, w: World, event: Event): World
    requires Permitted(config, w, event)
  {
    match event
    case JudgmentCommitted(record) => w.(judgments := w.judgments[OfJudgment(record) := record])
    case Forward(key, change) => w.(outbox := ForwardAfter(w.outbox, key, change))
    case Session(session, change) => w.(sessions := SessionAfter(w.sessions, session, change))
    case ProofInstalled(proof) => w.(proofs := w.proofs + {proof})
    case BlobInstalled(bytes) => w.(blobs := w.blobs + {bytes})
    case Broker(Called(ingress)) => w.(presented := w.presented + {ingress})
    case Broker(Recorded(ingress, response)) =>
      w.(submissions := w.submissions[BrokerKeyOf(ingress) := Submission(ingress, response)])
    case Worker(session, signal) =>
      w.(processes := w.processes[session := ProcessAfter(signal)],
         released := if signal.Release? then w.released + {session} else w.released)
    case GovernorPoisoned => w.(poisoned := true)
    case GovernorCrashed => w.(processes := map[], poisoned := false)
  }

  // ------------------------------------------------------------ runs

  /** Every event of the log was permitted when it happened. */
  predicate Legal(config: Config, log: seq<Event>)
    decreases |log|, 0
  {
    log != [] ==>
      var front, last := log[..|log| - 1], log[|log| - 1];
      Legal(config, front) && Permitted(config, Replay(config, front), last)
  }

  /** The world a permitted log leads to. */
  function Replay(config: Config, log: seq<Event>): World
    requires Legal(config, log)
    decreases |log|, 1
  {
    if log == [] then Empty()
    else After(config, Replay(config, log[..|log| - 1]), log[|log| - 1])
  }

  lemma LegalExtends(config: Config, log: seq<Event>, event: Event)
    requires Legal(config, log) && Permitted(config, Replay(config, log), event)
    ensures Legal(config, log + [event])
    ensures Replay(config, log + [event]) == After(config, Replay(config, log), event)
  {
    assert (log + [event])[..|log + [event]| - 1] == log;
  }

  lemma {:induction false} LegalPrefix(config: Config, log: seq<Event>, n: nat)
    requires Legal(config, log) && n <= |log|
    ensures Legal(config, log[..n])
    decreases |log| - n
  {
    if n == |log| {
      assert log[..n] == log;
    } else {
      LegalPrefix(config, log, n + 1);
      assert log[..n + 1][..n] == log[..n];
    }
  }
}
