/** The single-writer governor core.

Each method follows the daemon's own order of checks and durable writes.  Outcomes the core cannot choose
(store failures, commit ambiguity, clocks, transport, the broker, process exits) are nondeterministic.
Every durable write, broker call and process signal is an event on the log, and `Traced` says the log is
permitted and leads to the present state, so the run theorems apply to anything these methods do, and to
every prefix of it.
*/
module Governor {
  import opened Basics
  import opened Records
  import opened Kernel
  import opened Sessions
  import opened Governance
  import opened Invariants
  import opened Runs
  import opened Promises
  import opened Paging
  import opened Artifacts
  import opened Recovery

  /** The launcher-retained facts of one live worker, captured before its session was written. */
  datatype Runtime = Runtime(sessionBinding: Digest, workerPrincipal: Digest, workerKey: Digest, governorKey: Digest,
                             challenge: nat)

  /** What a launch draws from outside: random identity, a fresh key, the spawned child's evidence, the clock. */
  datatype Draw = Draw(session: SessionId, nonce: nat, key: Digest, workspace: Digest, receipt: Digest,
                       challenge: nat, preparedAt: nat)

  /** What a worker leaves on its output when it exits: one exactly decoded and authenticated exchange, or not. */
  datatype Frame =
    | Garbled
    | Unauthentic
    | Signed(named: SessionId, nonce: nat, semanticType: string, content: Bytes)

  /** What one poll of a retained process reports. */
  datatype Poll = StillRunning | Faulted(error: LaunchError, reaped: bool) | Exited(code: int, frame: Frame)

  datatype Polled = PolledPending | PolledFailed | PolledAccepted(deferred: bool)

  datatype PollReport = PollReport(pending: nat, accepted: nat, failed: nat, deferred: nat)

  datatype Reply =
    | HealthReported
    | ProposalAnswered(response: Response)
    | WorkerLaunched(session: SessionId)
    | WorkerStatus(record: SessionRecord)
    | WorkerCancelled(session: SessionId)

  datatype Resumption = NothingToDo | Resolved | PutOff

  datatype Conclusion = NotWaiting | Concluded(outcome: BrokerOutcome) | StillWaiting

  datatype ForwardReport = ForwardReport(completed: nat, deferred: nat)

  datatype RetirementReport = RetirementReport(tombstoned: nat, alreadyTerminal: nat)

  datatype CandidateReport = CandidateReport(canonicalized: nat, refused: nat, indeterminate: nat, deferred: nat)

  // When a row is open to a recovery pass, and the ways it may be settled.
  predicate IsPending(cell: Cell<OutboxRecord>) { cell.state.state.Pending? }
  predicate IsLive(cell: Cell<SessionRecord>) { !cell.state.authority.Tombstoned? }
  predicate AwaitsOutcome(cell: Cell<SessionRecord>) { cell.state.candidate.InCustody? }
  predicate Any<T>(value: T) { true }
  predicate WasCanonicalized(cell: Cell<SessionRecord>) {
    cell.state.candidate.BrokerCompleted? && cell.state.candidate.outcome.Canonicalized?
  }
  predicate WasRefused(cell: Cell<SessionRecord>) {
    cell.state.candidate.BrokerCompleted? && cell.state.candidate.outcome.Refused?
  }
  predicate WasIndeterminate(cell: Cell<SessionRecord>) {
    cell.state.candidate.BrokerCompleted? && cell.state.candidate.outcome.Indeterminate?
  }

  datatype Preparation =
    | AlreadyCompleted(response: Response)
    | StillToForward(record: OutboxRecord, revision: nat)

  // What each durable session step leaves, written out.

  ghost predicate FencedWith(before: SessionRecord, after: SessionRecord, session: SessionId, reason: Reason, since: nat) {
    && !before.authority.Tombstoned?
    && after.spec == before.spec && after.candidate == before.candidate
    && after.authority.Tombstoned? && after.authority.cleanup == CleanupPending
    && after.authority.tombstone == Tombstone(OfPrincipal(before.spec.worker), session, before.spec.worker.nonce, reason, since)
    && after.authority.receipt == match before.authority { case Active(receipt) => Some(receipt) case _ => None }
  }

  ghost predicate CleanedWith(record: SessionRecord, receipt: Digest) {
    && record.authority.Tombstoned? && record.authority.cleanup.CleanupComplete? && record.authority.cleanup.receipt == receipt
  }

  /** Fenced for this reason and cleaned up with the receipt of exactly that end. */
  ghost predicate RetiredFor(record: SessionRecord, session: SessionId, after: CleanupCause, reason: Reason) {
    && record.authority.Tombstoned? && record.authority.tombstone.reason == reason
    && CleanedWith(record, OfCleanup(after, session, reason, record.authority.tombstone.since))
  }

  ghost predicate IsCustodyOf(custody: Custody, runtime: Runtime, frame: Frame) {
    && frame.Signed?
    && var proof := OfProof(IngressProof(runtime.governorKey, runtime.workerPrincipal, runtime.workerKey, runtime.challenge,
                                         frame.nonce, frame.semanticType, frame.content));
       custody == Custody(OfBytes(frame.content), |frame.content|, frame.semanticType, proof,
                          OfCustody(OfBytes(frame.content), |frame.content|, frame.semanticType, proof))
  }

  /** Fenced as accepted at this time, behind the launch receipt, and cleaned up with the receipt of exactly that. */
  ghost predicate AcceptedAt(before: SessionRecord, after: SessionRecord, session: SessionId, at: nat) {
    && before.authority.Active? && after.authority.Tombstoned?
    && var fenced := Tombstoned(Some(before.authority.launchReceipt),
                                Tombstone(OfPrincipal(before.spec.worker), session, before.spec.worker.nonce, CandidateAccepted, at),
                                CleanupPending);
       after.authority.tombstone == fenced.tombstone && CleanedWith(after, OfAcceptedCleanup(session, fenced))
  }

  lemma AcceptanceShows(before: SessionRecord, after: SessionRecord, session: SessionId, at: nat)
    requires AcceptedAt(before, after, session, at)
    ensures after.authority.Tombstoned? && after.authority.tombstone.reason == CandidateAccepted
  {
  }

  ghost predicate TakenIntoCustody(before: SessionRecord, after: SessionRecord, session: SessionId, runtime: Runtime,
                                   frame: Frame, at: nat) {
    && after.spec == before.spec && before.authority.Active?
    && after.authority == Tombstoned(Some(before.authority.launchReceipt),
                                     Tombstone(OfPrincipal(before.spec.worker), session, before.spec.worker.nonce, CandidateAccepted, at),
                                     CleanupPending)
    && after.candidate.InCustody? && IsCustodyOf(after.candidate.custody, runtime, frame)
  }

  /** What a launch under a profile writes down: the draw's identity and workspace, the profile's time and budget. */
  ghost predicate IsLaunched(config: Config, profile: Profile, draw: Draw, spec: SessionSpec) {
    && LaunchedHere(config, draw.session, spec) && spec.profileId == profile.id
    && spec.worker.nonce == draw.nonce && spec.worker.keyIdentity == draw.key && spec.workspace == draw.workspace
    && spec.worker.expiresAt == draw.preparedAt + profile.timeout && spec.outputBudget == profile.outputBudget
  }

  /** A forward can cross at all: a worker's candidate travels inside its proof, an external intent needs its artifacts. */
  ghost predicate Carriable(config: Config, blobs: set<Bytes>, ingress: Ingress) {
    && IngressIntent(ingress).Some?
    && (ingress.ExternalSigned? ==>
          Fits(blobs, IngressIntent(ingress).value.artifacts, config.maxFrame, config.maxArtifact))
  }

  // ------------------------------------------------------------ what a supervisor pass counts

  predicate WasAccepted(sessions: SessionTable, s: SessionId) {
    Fenced(sessions, s) && sessions[s].state.authority.tombstone.reason == CandidateAccepted
  }

  predicate WasDeferred(sessions: SessionTable, s: SessionId) {
    WasAccepted(sessions, s) && sessions[s].state.candidate.InCustody?
  }

  /** Of the workers retained before: the ones still retained, the ones fenced as accepted, the ones fenced otherwise, and
      of the accepted ones those whose candidate still waits for the broker. */
  ghost predicate PollCounts(before: set<SessionId>, after: set<SessionId>, sessions: SessionTable, report: PollReport) {
    && report.pending == |before * after|
    && report.accepted == |set s | s in before - after && WasAccepted(sessions, s)|
    && report.failed == |set s | s in before - after && Fenced(sessions, s) && !WasAccepted(sessions, s)|
    && report.deferred == |set s | s in before - after && WasDeferred(sessions, s)|
  }

  lemma PollCounted(session: SessionId, after: set<SessionId>, sessions: SessionTable, report: PollReport)
    requires after == {session} || after == {}
    requires after == {} ==> Fenced(sessions, session)
    requires report == if after == {session} then PollReport(1, 0, 0, 0)
                       else if !WasAccepted(sessions, session) then PollReport(0, 0, 1, 0)
                       else PollReport(0, 1, 0, if sessions[session].state.candidate.InCustody? then 1 else 0)
    ensures PollCounts({session}, after, sessions, report)
  {
    var before := {session};
    if after == {session} {
      assert before * after == {session} && before - after == {};
      assert (set s | s in before - after && WasAccepted(sessions, s)) == {};
      assert (set s | s in before - after && Fenced(sessions, s) && !WasAccepted(sessions, s)) == {};
      assert (set s | s in before - after && WasDeferred(sessions, s)) == {};
    } else {
      assert before * after == {} && before - after == {session};
      assert (set s | s in before - after && WasAccepted(sessions, s)) == if WasAccepted(sessions, session) then {session} else {};
      assert (set s | s in before - after && Fenced(sessions, s) && !WasAccepted(sessions, s))
          == if WasAccepted(sessions, session) then {} else {session};
      assert (set s | s in before - after && WasDeferred(sessions, s))
          == if WasAccepted(sessions, session) && sessions[session].state.candidate.InCustody? then {session} else {};
    }
  }

  // ------------------------------------------------------------ what the recovery passes count

  /** What the counters say once these forwards have been visited. */
  ghost predicate ForwardTally(before: Outbox, after: Outbox, visited: set<Digest>, report: ForwardReport) {
    && Resumed(IsPending, before, after, visited)
    && report.completed == Saturated(|Settled(IsPending, Any, before, after)|)
    && report.deferred == Saturated(|LeftOpen(IsPending, after, visited)|)
  }

  lemma ForwardsBegin(outbox: Outbox)
    ensures ForwardTally(outbox, outbox, Elements([]), ForwardReport(0, 0))
  {
    NothingSettled(IsPending, Any, outbox);
  }

  lemma ForwardCounted(before: Outbox, middle: Outbox, after: Outbox, visited: set<Digest>, key: Digest,
                       report: ForwardReport, resumption: Resumption)
    requires ForwardTally(before, middle, visited, report) && key in before && key !in visited
    requires after.Keys == middle.Keys && forall k :: k in middle && k != key ==> after[k] == middle[k]
    requires resumption.NothingToDo? <==> !IsPending(middle[key])
    requires if resumption.Resolved? then !IsPending(after[key]) else after == middle
    ensures ForwardTally(before, after, visited + {key}, Noted(report, resumption))
  {
    ResumeStep(IsPending, before, middle, after, visited, key);
    SettleStep(IsPending, Any, before, middle, after, visited, key);
  }

  function Noted(report: ForwardReport, resumption: Resumption): ForwardReport {
    match resumption
    case NothingToDo => report
    case Resolved => report.(completed := AddOne(report.completed))
    case PutOff => report.(deferred := AddOne(report.deferred))
  }

  /** Completed and deferred forwards together are the forwards that were pending, and exactly the deferred ones
      still are. */
  lemma ForwardsAddUp(before: Outbox, after: Outbox, report: ForwardReport)
    requires ForwardTally(before, after, before.Keys, report)
    requires |LeftOpen(IsPending, before, before.Keys)| <= U64_MAX
    ensures report.completed + report.deferred == |LeftOpen(IsPending, before, before.Keys)|
    ensures report.deferred == |LeftOpen(IsPending, after, after.Keys)|
  {
    PassConserves(IsPending, Any, before, after);
  }

  /** Every visited forward that was pending and not held back by the cut could cross. */
  ghost predicate AllCarriable(config: Config, blobs: set<Bytes>, before: Outbox, visited: set<Digest>,
                               cut: Digest -> bool) {
    forall k :: k in visited && k in before && IsPending(before[k]) && !cut(k) ==>
                  Carriable(config, blobs, before[k].state.ingress)
  }

  ghost predicate RetirementTally(before: SessionTable, after: SessionTable, visited: set<SessionId>,
                                  report: RetirementReport) {
    && Resumed(IsLive, before, after, visited) && LeftOpen(IsLive, after, visited) == {}
    && report.tombstoned == |Settled(IsLive, Any, before, after)|
    && report.tombstoned + report.alreadyTerminal == |visited|
  }

  lemma RetirementBegins(sessions: SessionTable)
    ensures RetirementTally(sessions, sessions, Elements([]), RetirementReport(0, 0))
  {
    NothingSettled(IsLive, Any, sessions);
  }

  lemma RetirementCounted(before: SessionTable, middle: SessionTable, after: SessionTable, visited: set<SessionId>,
                          session: SessionId, report: RetirementReport)
    requires RetirementTally(before, middle, visited, report) && session in before && session !in visited
    requires after.Keys == middle.Keys && forall s :: s in middle && s != session ==> after[s] == middle[s]
    requires IsLive(middle[session]) || after == middle
    requires !IsLive(after[session])
    ensures RetirementTally(before, after, visited + {session}, if IsLive(middle[session]) then
                              report.(tombstoned := report.tombstoned + 1)
                            else report.(alreadyTerminal := report.alreadyTerminal + 1))
  {
    ResumeStep(IsLive, before, middle, after, visited, session);
    SettleStep(IsLive, Any, before, middle, after, visited, session);
  }

  lemma RetirementEnds(before: SessionTable, after: SessionTable, report: RetirementReport)
    requires RetirementTally(before, after, before.Keys, report)
    ensures forall s :: s in after ==> Fenced(after, s)
    ensures report.tombstoned == |LeftOpen(IsLive, before, before.Keys)|
    ensures report.tombstoned + report.alreadyTerminal == |before.Keys|
  {
    PassConserves(IsLive, Any, before, after);
    forall s | s in after ensures Fenced(after, s) {
      assert s !in LeftOpen(IsLive, after, before.Keys);
    }
  }

  /** What the counters say once these candidates have been visited. */
  ghost predicate CandidateTally(before: SessionTable, after: SessionTable, visited: set<SessionId>,
                                 report: CandidateReport) {
    && Resumed(AwaitsOutcome, before, after, visited)
    && (forall s :: s in before && s in after && after[s] != before[s] ==> after[s].state.candidate.BrokerCompleted?)
    && report.canonicalized == Saturated(|Settled(AwaitsOutcome, WasCanonicalized, before, after)|)
    && report.refused == Saturated(|Settled(AwaitsOutcome, WasRefused, before, after)|)
    && report.indeterminate == Saturated(|Settled(AwaitsOutcome, WasIndeterminate, before, after)|)
    && report.deferred == Saturated(|LeftOpen(AwaitsOutcome, after, visited)|)
  }

  function Counted(report: CandidateReport, conclusion: Conclusion): CandidateReport {
    match conclusion
    case NotWaiting => report
    case Concluded(Canonicalized(_)) => report.(canonicalized := AddOne(report.canonicalized))
    case Concluded(Refused(_)) => report.(refused := AddOne(report.refused))
    case Concluded(Indeterminate(_)) => report.(indeterminate := AddOne(report.indeterminate))
    case StillWaiting => report.(deferred := AddOne(report.deferred))
  }

  lemma CandidatesBegin(sessions: SessionTable)
    ensures CandidateTally(sessions, sessions, Elements([]), CandidateReport(0, 0, 0, 0))
  {
    NothingSettled(AwaitsOutcome, WasCanonicalized, sessions);
    NothingSettled(AwaitsOutcome, WasRefused, sessions);
    NothingSettled(AwaitsOutcome, WasIndeterminate, sessions);
  }

  /** Visiting one more session moves exactly the counter its conclusion names. */
  lemma CandidateCounted(before: SessionTable, middle: SessionTable, after: SessionTable, visited: set<SessionId>,
                         session: SessionId, report: CandidateReport, conclusion: Conclusion)
    requires CandidateTally(before, middle, visited, report) && session in before && session !in visited
    requires after.Keys == middle.Keys && forall s :: s in middle && s != session ==> after[s] == middle[s]
    requires conclusion.NotWaiting? <==> !AwaitsOutcome(middle[session])
    requires !conclusion.Concluded? ==> after == middle
    requires conclusion.Concluded? ==>
               after[session].state.candidate.BrokerCompleted? && after[session].state.candidate.outcome == conclusion.outcome
    ensures CandidateTally(before, after, visited + {session}, Counted(report, conclusion))
  {
    assert OneRowMoves(AwaitsOutcome, middle, after, session);
    ResumeStep(AwaitsOutcome, before, middle, after, visited, session);
    SettleStep(AwaitsOutcome, WasCanonicalized, before, middle, after, visited, session);
    SettleStep(AwaitsOutcome, WasRefused, before, middle, after, visited, session);
    SettleStep(AwaitsOutcome, WasIndeterminate, before, middle, after, visited, session);
  }

  /** Every candidate that awaited an outcome when the pass began is counted once, under the outcome it reached or as
      deferred. */
  lemma CandidatesAddUp(before: SessionTable, after: SessionTable, report: CandidateReport)
    requires CandidateTally(before, after, before.Keys, report)
    requires |LeftOpen(AwaitsOutcome, before, before.Keys)| <= U64_MAX
    ensures report.canonicalized + report.refused + report.indeterminate + report.deferred
         == |LeftOpen(AwaitsOutcome, before, before.Keys)|
  {
    PassConserves(AwaitsOutcome, Any, before, after);
    WaysPartition(AwaitsOutcome, WasCanonicalized, WasRefused, WasIndeterminate, Any, before, after);
  }

  class AgdCore {
    const config: Config

    // The bytewise order of entity names in the two paged tables.
    const forwardOrder: (Digest, Digest) -> bool
    const sessionOrder: (SessionId, SessionId) -> bool

    // The durable store.
    var judgments: Judgments
    var outbox: Outbox
    var sessions: SessionTable
    var proofs: set<IngressProof>
    var blobs: set<Bytes>

    // The effect broker on the other end of the proposal socket.
    var submissions: Submissions
    var presented: set<Ingress>

    // Operating-system processes, as far as their retained handles know.
    var processes: map<SessionId, Process>
    var released: set<SessionId>

    // Volatile state, lost with the process.
    var poisoned: bool
    var active: map<SessionId, Runtime>

    // The run so far, from the first start of the first process.  Nothing reads it but a restart.
    var log: seq<Event>

    ghost function Now(): World
      reads `judgments, `outbox, `sessions, `proofs, `blobs, `submissions, `presented, `processes, `released, `poisoned
    {
      World(judgments, outbox, sessions, proofs, blobs, submissions, presented, processes, released, poisoned)
    }

    ghost predicate Traced()
      reads `judgments, `outbox, `sessions, `proofs, `blobs, `submissions, `presented, `processes, `released, `poisoned, `log
    {
      Legal(config, log) && Replay(config, log) == Now()
    }

    lemma TracedIsSound()
      requires Traced()
      ensures JudgmentsBound(judgments)
      ensures OutboxSound(config, judgments, submissions, outbox)
      ensures BrokerSound(config, outbox, submissions, presented)
      ensures SessionsSound(config, outbox, proofs, blobs, sessions)
      ensures ProcessesSound(sessions, processes, released)
    {
      EveryPointIsSound(config, log, |log|);
      assert log[..|log|] == log;
    }

    /** Whatever the core did since an earlier point, nothing durable was taken back. */
    twostate lemma KeptSince()
      requires old(Traced()) && Traced() && old(log) <= log
      ensures Kept(old(Now()), Now())
    {
      NothingIsTakenBack(config, log, |old(log)|, |log|);
      assert log[..|old(log)|] == old(log) && log[..|log|] == log;
    }

    /** Steps that open no forward but those of custody held before them keep the run rooted. */
    twostate lemma StillRooted()
      requires old(Traced()) && Traced() && old(log) <= log
      requires forall key :: key in outbox ==> key in old(outbox) || StandsFor(config, old(sessions), key)
      ensures Rooted(config, old(log)) ==> Rooted(config, log)
    {
      if Rooted(config, old(log)) {
        assert log[..|old(log)|] == old(log) && log[..|log|] == log;
        RootsExtend(config, log, |old(log)|);
      }
    }

    lemma RootedHasOneForwardEach()
      requires Traced() && Rooted(config, log)
      ensures OneForwardEach(outbox)
    {
      assert log[..|log|] == log;
      forall a, b | a in outbox && b in outbox && a.OfWorkerSource? && b.OfWorkerSource? && a != b
        ensures a.source.worker.session != b.source.worker.session
      {
        if a.source.worker.session == b.source.worker.session {
          OneForwardPerSession(config, log, |log|, |log|, a, b);
        }
      }
    }

    // ---------------------------------------------------------- events

    method EmitForward(key: Digest, change: ForwardChange)
      requires Traced() && ForwardPermitted(config, judgments, submissions, outbox, key, change)
      modifies `outbox, `log
      ensures Traced() && log == old(log) + [Forward(key, change)]
      ensures outbox == ForwardAfter(old(outbox), key, change)
    {
      hide Legal, Replay, RecordBinds, AdmissionCurrent, BrokerAnswered, SessionPermitted, SessionAfter, BrokerPermitted, SignalPermitted;
      LegalExtends(config, log, Forward(key, change));
      outbox := ForwardAfter(outbox, key, change);
      log := log + [Forward(key, change)];
    }

    method EmitSession(session: SessionId, change: SessionChange)
      requires Traced() && SessionPermitted(config, outbox, proofs, blobs, sessions, session, change)
      modifies `sessions, `log
      ensures Traced() && log == old(log) + [Session(session, change)]
      ensures sessions == SessionAfter(old(sessions), session, change)
    {
      hide Legal, Replay, ForwardPermitted, ForwardAfter, StepPermitted, BrokerPermitted, SignalPermitted;
      LegalExtends(config, log, Session(session, change));
      sessions := SessionAfter(sessions, session, change);
      log := log + [Session(session, change)];
    }

    method EmitJudgment(record: JudgmentRecord)
      requires Traced() && OfJudgment(record) !in judgments && JudgmentSound(record)
      modifies `judgments, `log
      ensures Traced() && log == old(log) + [JudgmentCommitted(record)]
      ensures judgments == old(judgments)[OfJudgment(record) := record]
    {
      hide Legal, Replay, ForwardPermitted, ForwardAfter, SessionPermitted, SessionAfter, BrokerPermitted, SignalPermitted, JudgmentSound;
      LegalExtends(config, log, JudgmentCommitted(record));
      judgments := judgments[OfJudgment(record) := record];
      log := log + [JudgmentCommitted(record)];
    }

    method EmitBroker(change: BrokerChange)
      requires Traced() && BrokerPermitted(config, outbox, submissions, presented, change)
      modifies `submissions, `presented, `log
      ensures Traced() && log == old(log) + [Broker(change)]
      ensures change.Called? ==> submissions == old(submissions) && presented == old(presented) + {change.ingress}
      ensures change.Recorded? ==>
                && presented == old(presented) && IngressIntent(change.ingress).Some?
                && submissions == old(submissions)[BrokerKeyOf(change.ingress) := Submission(change.ingress, change.response)]
    {
      hide Legal, Replay, ForwardPermitted, ForwardAfter, SessionPermitted, SessionAfter, SignalPermitted;
      LegalExtends(config, log, Broker(change));
      match change {
        case Called(ingress) => presented := presented + {ingress};
        case Recorded(ingress, response) => submissions := submissions[BrokerKeyOf(ingress) := Submission(ingress, response)];
      }
      log := log + [Broker(change)];
    }

    method EmitSignal(session: SessionId, signal: Signal)
      requires Traced() && SignalPermitted(sessions, processes, released, poisoned, session, signal)
      modifies `processes, `released, `log
      ensures Traced() && log == old(log) + [Worker(session, signal)]
      ensures processes == old(processes)[session := ProcessAfter(signal)]
      ensures released == if signal.Release? then old(released) + {session} else old(released)
    {
      hide Legal, Replay, ForwardPermitted, ForwardAfter, SessionPermitted, SessionAfter, BrokerPermitted;
      LegalExtends(config, log, Worker(session, signal));
      processes := processes[session := ProcessAfter(signal)];
      if signal.Release? {
        released := released + {session};
      }
      log := log + [Worker(session, signal)];
    }

    method EmitBlobs(proof: IngressProof)
      requires Traced()
      modifies `proofs, `blobs, `log
      ensures Traced() && old(log) <= log
      ensures proofs == old(proofs) + {proof} && blobs == old(blobs) + {proof.content}
    {
      hide Legal, Replay, ForwardPermitted, ForwardAfter, SessionPermitted, SessionAfter, BrokerPermitted, SignalPermitted;
      LegalExtends(config, log, ProofInstalled(proof));
      proofs := proofs + {proof};
      log := log + [ProofInstalled(proof)];
      LegalExtends(config, log, BlobInstalled(proof.content));
      blobs := blobs + {proof.content};
      log := log + [BlobInstalled(proof.content)];
    }

    method Poison()
      requires Traced()
      modifies `poisoned, `log
      ensures Traced() && log == old(log) + [GovernorPoisoned] && poisoned
    {
      hide Legal, Replay, ForwardPermitted, ForwardAfter, SessionPermitted, SessionAfter, BrokerPermitted, SignalPermitted;
      LegalExtends(config, log, GovernorPoisoned);
      poisoned := true;
      log := log + [GovernorPoisoned];
    }

    // ---------------------------------------------------------- the store boundary

    /** An append either does nothing, or commits; a failure reported after the commit is ambiguous to the caller. */
    method CommitForward(key: Digest, change: ForwardChange) returns (ok: bool)
      requires Traced() && ForwardPermitted(config, judgments, submissions, outbox, key, change)
      modifies `outbox, `log
      ensures Traced() && old(log) <= log
      ensures ok ==> outbox == ForwardAfter(old(outbox), key, change)
      ensures outbox == old(outbox) || outbox == ForwardAfter(old(outbox), key, change)
    {
      hide Traced, ForwardAfter;
      ok := false;
      if * {
        return;
      }
      EmitForward(key, change);
      ok := *;
    }

    method CommitSession(session: SessionId, change: SessionChange) returns (ok: bool)
      requires Traced() && SessionPermitted(config, outbox, proofs, blobs, sessions, session, change)
      modifies `sessions, `log
      ensures Traced() && old(log) <= log
      ensures ok ==> sessions == SessionAfter(old(sessions), session, change)
      ensures sessions == old(sessions) || sessions == SessionAfter(old(sessions), session, change)
    {
      hide Traced, SessionAfter, StepPermitted;
      ok := false;
      if * {
        return;
      }
      EmitSession(session, change);
      ok := *;
    }

    // ---------------------------------------------------------- judgments

    /** Stores one evaluation's record under its own digest; an equal record already there is returned as it is. */
    method EvaluateAndCommit(subject: Digest, books: Books, claim: CrossingClaim) returns (r: Result<Digest>)
      requires Traced()
      modifies `judgments, `log
      ensures Traced() && old(log) <= log && JudgmentsKept(old(judgments), judgments)
      ensures r.Ok? ==>
                && r.value == OfJudgment(Judge(subject, books, claim))
                && r.value in judgments && judgments[r.value] == Judge(subject, books, claim)
                && BooksReplay(books)
                && claim.standing.subject == claim.custody.subject == claim.obligation.subject == claim.capacity.subject == subject
      ensures r.Err? ==> r.error in {Quiesced, StoreFailure, JudgmentBindingMismatch, BookReplay}
      ensures r == Err(JudgmentBindingMismatch) ==>
                !(claim.standing.subject == claim.custody.subject == claim.obligation.subject == claim.capacity.subject == subject)
      ensures r == Err(BookReplay) ==> !BooksReplay(books)
    {
      if * {
        return Err(Quiesced);
      }
      if !(claim.standing.subject == claim.custody.subject == claim.obligation.subject == claim.capacity.subject == subject) {
        return Err(JudgmentBindingMismatch);
      }
      if !BooksReplay(books) {
        return Err(BookReplay);
      }
      var record := Judge(subject, books, claim);
      EvaluationIsSound(subject, books, claim);
      var digest := OfJudgment(record);
      if * {
        return Err(StoreFailure);
      }
      if digest in judgments {
        TracedIsSound();
        if judgments[digest] != record {
          assert false;
          return Err(JudgmentBindingMismatch);
        }
        return Ok(digest);
      }
      if * {
        return Err(StoreFailure);
      }
      EmitJudgment(record);
      if * {
        return Err(StoreFailure);
      }
      return Ok(digest);
    }

    // ---------------------------------------------------------- the forward outbox

    /** What preparing a forward leaves behind, on success. */
    ghost predicate Prepared(source: Digest, ingress: Ingress, preparation: Preparation)
      reads this
    {
      source in outbox &&
      match preparation
      case AlreadyCompleted(response) => outbox[source].state.state == Completed(response)
      case StillToForward(record, revision) =>
        outbox[source] == Cell(record, revision) && record.state.Pending? && record.ingress == ingress
    }

    /** Makes the forward durable before anything crosses to the broker.  An existing record is reused, a fresh
        proof replaces the stored one under the same key, and a completed record is returned as it is. */
    method PrepareForwardOutbox(source: Digest, intent: Intent, admission: Admission, ingress: Ingress)
      returns (r: Result<Preparation>)
      requires Traced()
      requires IngressIntent(ingress) == Some(intent) && ForwardSource(config, ingress) == Some(source)
      requires VerifyAdmission(judgments, intent.judgment, SubjectOf(intent)) == Ok(admission) && Presentable(config, intent)
      modifies `outbox, `log
      ensures Traced() && old(log) <= log && OutboxKept(old(outbox), outbox)
      ensures source in old(outbox) && old(outbox)[source].state.state.Completed? ==>
                unchanged(this) && (r.Ok? ==> r == Ok(AlreadyCompleted(old(outbox)[source].state.state.response)))
      ensures outbox.Keys <= old(outbox).Keys + {source}
      ensures r.Ok? ==> Prepared(source, ingress, r.value)
      ensures r.Err? ==> r.error == StoreFailure
    {
      hide Traced;
      if * {
        return Err(StoreFailure);
      }
      if source in outbox {
        r := ReuseForward(source, intent, admission, ingress);
      } else {
        r := OpenForward(source, intent, admission, ingress);
      }
    }

    method OpenForward(source: Digest, intent: Intent, admission: Admission, ingress: Ingress)
      returns (r: Result<Preparation>)
      requires Traced() && source !in outbox
      requires IngressIntent(ingress) == Some(intent) && ForwardSource(config, ingress) == Some(source)
      requires VerifyAdmission(judgments, intent.judgment, SubjectOf(intent)) == Ok(admission) && Presentable(config, intent)
      modifies `outbox, `log
      ensures Traced() && old(log) <= log && OutboxKept(old(outbox), outbox)
      ensures outbox.Keys <= old(outbox).Keys + {source}
      ensures outbox == old(outbox)
              || outbox == old(outbox)[source := Cell(OutboxRecord(source, OfIntent(intent), admission, ingress, Pending), 1)]
      ensures r.Ok? ==> Prepared(source, ingress, r.value)
      ensures r.Err? ==> r.error == StoreFailure
    {
      var record := OutboxRecord(source, OfIntent(intent), admission, ingress, Pending);
      ForwardKeeps(config, judgments, submissions, outbox, source, Opened(record));
      var ok := CommitForward(source, Opened(record));
      return if ok then Ok(StillToForward(record, 1)) else Err(StoreFailure);
    }

    lemma StoredForwardMatches(source: Digest, intent: Intent, admission: Admission, ingress: Ingress)
      requires Traced() && source in outbox
      requires IngressIntent(ingress) == Some(intent) && ForwardSource(config, ingress) == Some(source)
      requires VerifyAdmission(judgments, intent.judgment, SubjectOf(intent)) == Ok(admission)
      ensures var record := outbox[source].state;
              && RecordBinds(config, source, record)
              && record.source == source && record.intent == OfIntent(intent) && record.admission == admission
    {
      TracedIsSound();
      var record := outbox[source].state;
      assert ForwardSound(config, judgments, submissions, source, record);
      SameForward(config, record.ingress, ingress);
    }

    /** Nothing changed, or this row's proof under its next revision. */
    ghost predicate SameButProof(before: Outbox, after: Outbox, key: Digest, ingress: Ingress) {
      && key in before
      && (after == before || after == before[key := Cell(before[key].state.(ingress := ingress), before[key].revision + 1)])
    }

    lemma SameIsSame(before: Outbox, key: Digest, ingress: Ingress)
      requires key in before
      ensures SameButProof(before, before, key, ingress)
    {
    }

    method ValidateStored(source: Digest, intent: Intent, admission: Admission, record: OutboxRecord) returns (ok: bool)
      ensures ok <==> RecordBinds(config, source, record) && record.intent == OfIntent(intent) && record.admission == admission
    {
      return !(!RecordBinds(config, source, record) || record.source != source || record.intent != OfIntent(intent)
               || record.admission != admission);
    }

    method ReuseForward(source: Digest, intent: Intent, admission: Admission, ingress: Ingress)
      returns (r: Result<Preparation>)
      requires Traced() && source in outbox
      requires IngressIntent(ingress) == Some(intent) && ForwardSource(config, ingress) == Some(source)
      requires VerifyAdmission(judgments, intent.judgment, SubjectOf(intent)) == Ok(admission) && Presentable(config, intent)
      modifies `outbox, `log
      ensures Traced() && old(log) <= log && OutboxKept(old(outbox), outbox)
      ensures old(outbox)[source].state.state.Completed? ==>
                unchanged(this) && r == Ok(AlreadyCompleted(old(outbox)[source].state.state.response))
      ensures SameButProof(old(outbox), outbox, source, ingress)
      ensures r.Ok? ==> Prepared(source, ingress, r.value)
      ensures r.Err? ==> r.error == StoreFailure
    {
      var loaded := outbox[source];
      StoredForwardMatches(source, intent, admission, ingress);
      TablesKeepThemselves(outbox, submissions);
      SameIsSame(outbox, source, ingress);
      hide Traced, VerifyAdmission, SubjectOf, Presentable, SameButProof, OutboxKept;
      var valid := ValidateStored(source, intent, admission, loaded.state);
      if !valid {
        assert false;
        return Err(OutboxBindingMismatch);
      }
      if loaded.state.state.Completed? {
        return Ok(AlreadyCompleted(loaded.state.state.response));
      }
      if loaded.state.ingress == ingress {
        return Ok(StillToForward(loaded.state, loaded.revision));
      }
      r := ReproofForward(source, ingress);
    }

    /** A fresh proof of the same intent replaces the stored one, and nothing else. */
    method ReproofForward(source: Digest, ingress: Ingress) returns (r: Result<Preparation>)
      requires Traced() && source in outbox && outbox[source].state.state.Pending? && ForwardSource(config, ingress) == Some(source)
      modifies `outbox, `log
      ensures Traced() && old(log) <= log && OutboxKept(old(outbox), outbox)
      ensures SameButProof(old(outbox), outbox, source, ingress)
      ensures r.Ok? ==> Prepared(source, ingress, r.value)
      ensures r.Err? ==> r.error == StoreFailure
    {
      hide Traced;
      var loaded := outbox[source];
      ForwardKeeps(config, judgments, submissions, outbox, source, Reproofed(loaded.revision, ingress));
      RowAfter(outbox, source, loaded.revision, ingress, ProposalRefused(EmptyBook));
      var ok := CommitForward(source, Reproofed(loaded.revision, ingress));
      r := if ok then Ok(StillToForward(loaded.state.(ingress := ingress), loaded.revision + 1)) else Err(StoreFailure);
    }

    method CompleteForwardOutbox(key: Digest, revision: nat, response: Response) returns (ok: bool)
      requires Traced() && ForwardPermitted(config, judgments, submissions, outbox, key, Closed(revision, response))
      modifies `outbox, `log
      ensures Traced() && old(log) <= log && OutboxKept(old(outbox), outbox)
      ensures ok ==> outbox[key].state.state == Completed(response)
      ensures var was := old(outbox)[key];
              || outbox == old(outbox)
              || outbox == old(outbox)[key := Cell(was.state.(state := Completed(response)), was.revision + 1)]
    {
      ForwardKeeps(config, judgments, submissions, outbox, key, Closed(revision, response));
      ok := CommitForward(key, Closed(revision, response));
    }

    // ---------------------------------------------------------- the broker

    /** The broker's side of one call: an exchange it has already answered is a lookup, never a second act. */
    method EffectdSubmit(ingress: Ingress) returns (answer: Option<Response>)
      requires Traced() && ingress in presented && IngressIntent(ingress).Some?
      modifies `submissions, `presented, `log
      ensures Traced() && old(log) <= log && presented == old(presented)
      ensures SubmissionsKept(old(submissions), submissions)
      ensures answer.Some? ==> BrokerAnswered(submissions, ingress, answer.value)
      ensures BrokerKeyOf(ingress) in old(submissions) ==> log == old(log)
      ensures exists b ::
                && KeyedBy(b, ingress)
                && (submissions == old(submissions)
                    || (b !in old(submissions) && exists response :: submissions == old(submissions)[b := Submission(ingress, response)]))
                && (answer.Some? ==>
                      && b in submissions && submissions[b].response == answer.value
                      && (ingress.WorkerCandidate? ==> submissions[b].ingress == ingress))
    {
      assert KeyedBy(BrokerKeyOf(ingress), ingress);
      if * {
        return None;
      }
      var key := BrokerKeyOf(ingress);
      if key in submissions {
        if submissions[key].ingress != ingress {
          if ingress.WorkerCandidate? {
            return None;
          }
          if * {
            return None;
          }
        }
        return Some(submissions[key].response);
      }
      if * {
        return None;
      }
      var response: Response := *;
      EmitBroker(Recorded(ingress, response));
      if * {
        return None;
      }
      return Some(response);
    }

    /** One signed exchange.  The request or the reply may be lost, and the broker may act although the caller hears nothing. */
    method SubmitToEffectd(ingress: Ingress) returns (r: Result<Response>)
      requires Traced() && BrokerPermitted(config, outbox, submissions, presented, Called(ingress))
      modifies `submissions, `presented, `log
      ensures Traced() && old(log) + [Broker(Called(ingress))] <= log && SubmissionsKept(old(submissions), submissions)
      ensures r.Ok? ==> BrokerAnswered(submissions, ingress, r.value)
      ensures r.Err? ==> IsDeferred(r.error)
    {
      EmitBroker(Called(ingress));
      if * {
        return Err(TransportFailure);
      }
      var answer := EffectdSubmit(ingress);
      if * {
        return Err(TransportFailure);
      }
      if answer.None? {
        return Err(BrokerFailure);
      }
      return Ok(answer.value);
    }

    // ---------------------------------------------------------- forwarding

    /** The gates every forward passes before its record is looked at. */
    ghost predicate ForwardRefused(intent: Intent, error: AgdError)
      reads this
    {
      || (error == WorkerRecoveryRequired && poisoned)
      || (error == WorkerSupervisorBusy && active != map[])
      || (error == MalformedIntent && !IsFormed(intent))
      || (error == ProposerBindingMismatch && IsFormed(intent) && !FitToPropose(config, intent))
      || (JudgmentFails(judgments, intent, error) && FitToPropose(config, intent))
      || error in {Quiesced, StoreFailure, TransportFailure, BrokerFailure}
    }

    /** The gates in the daemon's order; the first that is shut names the error, and nothing is written. */
    method PassGates(intent: Intent) returns (r: Result<Admission>)
      requires Traced()
      ensures r.Ok? ==>
                && !poisoned && active == map[] && FitToPropose(config, intent) && IsAdmitted(judgments, intent)
                && Presentable(config, intent) && VerifyAdmission(judgments, intent.judgment, SubjectOf(intent)) == r
      ensures r.Err? ==> ForwardRefused(intent, r.error) && !IsDeferred(r.error)
    {
      GatesMean(intent);
      ShutGates(intent);
      hide Traced, ValidShape, VerifyAdmission, IsFormed, FitToPropose,
           JudgmentFails, IsAdmitted, Presentable, SubjectOf, ForwardRefused, IsDeferred;
      if poisoned {
        return Err(WorkerRecoveryRequired);
      }
      if active != map[] {
        return Err(WorkerSupervisorBusy);
      }
      if * {
        return Err(Quiesced);
      }
      if !ValidShape(intent) {
        return Err(MalformedIntent);
      }
      if !(intent.domain == intent.proposer.domain == config.domain && intent.epoch == intent.proposer.epoch == config.epoch) {
        return Err(ProposerBindingMismatch);
      }
      r := VerifyAdmission(judgments, intent.judgment, SubjectOf(intent));
    }

    method ForwardGovernedIntent(intent: Intent, ingress: Ingress) returns (r: Result<Response>)
      requires Traced() && IngressIntent(ingress) == Some(intent)
      modifies `outbox, `submissions, `presented, `log
      ensures Traced() && old(log) <= log
      ensures OutboxKept(old(outbox), outbox) && SubmissionsKept(old(submissions), submissions)
      ensures r.Ok? ==>
                var key := ForwardSource(config, ingress).value;
                key in outbox && outbox[key].state.state == Completed(r.value)
      ensures var key := ForwardSource(config, ingress).value;
              key in old(outbox) && old(outbox)[key].state.state.Completed? ==>
                && unchanged(this) && (r.Ok? ==> r.value == old(outbox)[key].state.state.response)
                && (r.Err? ==> !IsDeferred(r.error))
      ensures outbox.Keys <= old(outbox).Keys + {ForwardSource(config, ingress).value}
      ensures r.Err? ==> old(ForwardRefused(intent, r.error))
      ensures !FitToPropose(config, intent) || !IsAdmitted(judgments, intent) ==> r.Err? && unchanged(this)
      ensures poisoned || active != map[] ==> r.Err? && unchanged(this)
    {
      TablesKeepThemselves(outbox, submissions);
      hide Traced, ForwardSource, VerifyAdmission, FitToPropose, IsAdmitted, Presentable, ForwardRefused, OutboxKept, SubmissionsKept;
      OperationalIsRefused(intent);
      var passed := PassGates(intent);
      if passed.Err? {
        return Err(passed.error);
      }
      r := ForwardAdmitted(intent, ingress, passed.value);
    }

    lemma OperationalIsRefused(intent: Intent)
      ensures forall error :: error in {Quiesced, StoreFailure, TransportFailure, BrokerFailure} ==> ForwardRefused(intent, error)
    {
    }

    lemma ShutGates(intent: Intent)
      ensures poisoned ==> ForwardRefused(intent, WorkerRecoveryRequired)
      ensures active != map[] ==> ForwardRefused(intent, WorkerSupervisorBusy)
      ensures ForwardRefused(intent, Quiesced)
      ensures !IsFormed(intent) ==> ForwardRefused(intent, MalformedIntent)
      ensures IsFormed(intent) && !FitToPropose(config, intent) ==> ForwardRefused(intent, ProposerBindingMismatch)
      ensures forall error :: FitToPropose(config, intent) && JudgmentFails(judgments, intent, error) ==> ForwardRefused(intent, error)
      ensures !IsDeferred(WorkerRecoveryRequired) && !IsDeferred(WorkerSupervisorBusy) && !IsDeferred(Quiesced)
      ensures !IsDeferred(MalformedIntent) && !IsDeferred(ProposerBindingMismatch)
    {
    }

    /** What the three tests on content decide. */
    lemma GatesMean(intent: Intent)
      requires Traced()
      ensures ValidShape(intent) <==> IsFormed(intent)
      ensures Presentable(config, intent) <==> FitToPropose(config, intent)
      ensures var verified := VerifyAdmission(judgments, intent.judgment, SubjectOf(intent));
              && (verified.Ok? <==> IsAdmitted(judgments, intent))
              && (verified.Err? ==> JudgmentFails(judgments, intent, verified.error) && !IsDeferred(verified.error))
      ensures FitToPropose(config, intent) <==>
              && IsFormed(intent)
              && intent.domain == intent.proposer.domain == config.domain && intent.epoch == intent.proposer.epoch == config.epoch
    {
      TracedIsSound();
      FormedMeans(intent);
      PresentableMeans(config, intent);
      VerificationSays(judgments, intent);
      hide Traced, ValidShape, IsFormed, VerifyAdmission, IsAdmitted, JudgmentsBound, OutboxSound, BrokerSound, SessionsSound, ProcessesSound;
    }

    method ForwardAdmitted(intent: Intent, ingress: Ingress, admission: Admission) returns (r: Result<Response>)
      requires Traced() && IngressIntent(ingress) == Some(intent)
      requires VerifyAdmission(judgments, intent.judgment, SubjectOf(intent)) == Ok(admission) && Presentable(config, intent)
      modifies `outbox, `submissions, `presented, `log
      ensures Traced() && old(log) <= log
      ensures OutboxKept(old(outbox), outbox) && SubmissionsKept(old(submissions), submissions)
      ensures r.Ok? ==>
                var key := ForwardSource(config, ingress).value;
                key in outbox && outbox[key].state.state == Completed(r.value)
      ensures var key := ForwardSource(config, ingress).value;
              key in old(outbox) && old(outbox)[key].state.state.Completed? ==>
                && unchanged(this) && (r.Ok? ==> r.value == old(outbox)[key].state.state.response)
                && (r.Err? ==> !IsDeferred(r.error))
      ensures outbox.Keys <= old(outbox).Keys + {ForwardSource(config, ingress).value}
      ensures r.Err? ==> r.error in {StoreFailure, TransportFailure, BrokerFailure}
    {
      hide Traced;
      var key := ForwardSource(config, ingress).value;
      var prepared := PrepareForwardOutbox(key, intent, admission, ingress);
      if prepared.Err? {
        return Err(prepared.error);
      }
      if prepared.value.AlreadyCompleted? {
        return Ok(prepared.value.response);
      }
      ghost var between := outbox;
      r := CarryForward(key, intent, ingress, prepared.value.revision);
      OutboxKeptTransitive(old(outbox), between, outbox);
    }

    /** The crossing itself, for a forward that is durable and pending. */
    method CarryForward(key: Digest, intent: Intent, ingress: Ingress, revision: nat) returns (r: Result<Response>)
      requires Traced() && IngressIntent(ingress) == Some(intent) && ForwardSource(config, ingress) == Some(key)
      requires StillPending(outbox, key, revision) && outbox[key].state.ingress == ingress
      modifies `outbox, `submissions, `presented, `log
      ensures Traced() && old(log) <= log
      ensures OutboxKept(old(outbox), outbox) && SubmissionsKept(old(submissions), submissions)
      ensures outbox.Keys == old(outbox).Keys
      ensures forall k :: k in outbox && k != key ==> outbox[k] == old(outbox)[k]
      ensures r.Ok? ==> outbox[key].state.state == Completed(r.value)
      ensures r.Err? && IsDeferred(r.error) ==> outbox == old(outbox)
      ensures r.Err? ==> r.error in {StoreFailure, TransportFailure, BrokerFailure}
      ensures if Carriable(config, blobs, ingress) then old(log) + [Broker(Called(ingress))] <= log
              else r == Err(StoreFailure) && unchanged(this)
    {
      hide Traced;
      if ingress.ExternalSigned? {
        var transfers := LoadArtifactTransfers(blobs, intent.artifacts, config.maxFrame, config.maxArtifact);
        if transfers.None? {
          return Err(StoreFailure);
        }
      }
      r := SubmitToEffectd(ingress);
      if r.Err? {
        return;
      }
      var ok := CompleteForwardOutbox(key, revision, r.value);
      if !ok {
        r := Err(StoreFailure);
      }
    }

    // ---------------------------------------------------------- session custody

    /** A session operation leaves every other session as it was, never lifts a fence and never changes custody. */
    ghost predicate OnlyTouches(before: SessionTable, after: SessionTable, session: SessionId) {
      && after.Keys == before.Keys
      && (forall s :: s in before && s != session ==> after[s] == before[s])
      && (Fenced(before, session) ==>
            && Fenced(after, session) && after[session].state.authority.tombstone == before[session].state.authority.tombstone
            && (before[session].state.authority.cleanup.CleanupComplete? ==>
                  after[session].state.authority.cleanup == before[session].state.authority.cleanup))
      && (session in before && !before[session].state.candidate.Awaiting? ==>
            && !after[session].state.candidate.Awaiting?
            && after[session].state.candidate.custody == before[session].state.candidate.custody)
    }

    method AdvanceSession(session: SessionId, step: SessionEvent) returns (ok: bool)
      requires Traced() && session in sessions
      requires Advance(sessions[session].state, step).Some?
      requires StepPermitted(config, outbox, proofs, blobs, sessions[session].state, step)
      modifies `sessions, `log
      ensures Traced() && old(log) <= log
      ensures OnlyTouches(old(sessions), sessions, session)
      ensures ok ==> sessions[session].state == Advance(old(sessions)[session].state, step).value
      ensures sessions[session].state in {old(sessions)[session].state, Advance(old(sessions)[session].state, step).value}
    {
      hide Traced, StepPermitted;
      ok := CommitSession(session, Advanced(sessions[session].revision, step));
    }

    static function TombstoneFor(record: SessionRecord, session: SessionId, reason: Reason, since: nat): Tombstone {
      Tombstone(OfPrincipal(record.spec.worker), session, record.spec.worker.nonce, reason, since)
    }

    /** Permanently fences a principal that holds no candidate.  Repeating the same terminal fact is idempotent,
        a different one is refused. */
    method TombstoneSession(session: SessionId, reason: Reason, since: nat) returns (ok: bool)
      requires Traced()
      modifies `sessions, `log
      ensures Traced() && old(log) <= log
      ensures OnlyTouches(old(sessions), sessions, session)
      ensures ok ==> Fenced(sessions, session)
      ensures ok ==> sessions[session].state.authority.tombstone == TombstoneFor(old(sessions)[session].state, session, reason, since)
      ensures Fenced(old(sessions), session) ==> unchanged(this)
      ensures session in old(sessions) ==>
                || sessions[session].state == old(sessions)[session].state
                || FencedWith(old(sessions)[session].state, sessions[session].state, session, reason, since)
    {
      hide Traced, Advance, FencedWith, StepPermitted;
      if * {
        return false;
      }
      if session !in sessions {
        return false;
      }
      var record := sessions[session].state;
      var tombstone := TombstoneFor(record, session, reason, since);
      if record.authority.Tombstoned? {
        return record.authority.tombstone == tombstone;
      }
      FenceIsPermitted(session, reason, since);
      ok := AdvanceSession(session, Fence(tombstone));
    }

    lemma FenceIsPermitted(session: SessionId, reason: Reason, since: nat)
      requires Traced() && session in sessions && !sessions[session].state.authority.Tombstoned?
      ensures var record := sessions[session].state;
              var tombstone := TombstoneFor(record, session, reason, since);
              var next := Advance(record, Fence(tombstone));
              && StepPermitted(config, outbox, proofs, blobs, record, Fence(tombstone))
              && next.Some? && FencedWith(record, next.value, session, reason, since)
              && next.value.authority.Tombstoned? && next.value.authority.tombstone == tombstone
    {
      TracedIsSound();
      hide Traced;
      assert SessionSound(config, outbox, proofs, blobs, session, sessions[session].state);
    }

    method CompleteSessionCleanup(session: SessionId, receipt: Digest, at: nat) returns (ok: bool)
      requires Traced()
      modifies `sessions, `log
      ensures Traced() && old(log) <= log
      ensures OnlyTouches(old(sessions), sessions, session)
      ensures ok ==>
                && Fenced(old(sessions), session)
                && var was := old(sessions)[session].state;
                   sessions[session].state == was.(authority := was.authority.(cleanup := CleanupComplete(receipt, at)))
      ensures session in old(sessions) ==> sessions[session].state.candidate == old(sessions)[session].state.candidate
    {
      TracedIsSound();
      assert session in sessions ==> SessionSound(config, outbox, proofs, blobs, session, sessions[session].state);
      if * {
        return false;
      }
      if session !in sessions || !sessions[session].state.authority.Tombstoned? {
        return false;
      }
      var cleanup := sessions[session].state.authority.cleanup;
      if cleanup.CleanupComplete? {
        return cleanup == CleanupComplete(receipt, at);
      }
      ok := AdvanceSession(session, CompleteCleanup(receipt, at));
    }

    // ---------------------------------------------------------- processes

    /** The handle's own termination: nothing to do for a reaped child, otherwise kill and reap.  A failed kill leaves the
        child as it was and a failed reap leaves it killed; both keep custody, and a repeat takes up where this ended. */
    method TerminateProcess(session: SessionId) returns (ok: bool)
      requires Traced() && session in processes
      requires processes[session].Running? ==> Fenced(sessions, session)
      modifies `processes, `released, `log
      ensures Traced() && old(log) <= log && released == old(released)
      ensures processes.Keys == old(processes).Keys
      ensures forall s :: s in processes && s != session ==> processes[s] == old(processes)[s]
      ensures ok ==> processes[session].Reaped?
      ensures !ok ==> processes[session] in {old(processes)[session], Killed} && !processes[session].Reaped?
      ensures old(processes)[session].Reaped? ==> ok && log == old(log) && processes == old(processes)
    {
      hide Traced;
      ok := true;
      if processes[session].Reaped? {
        return;
      }
      if !processes[session].Killed? {
        if * {
          return false;
        }
        EmitSignal(session, if processes[session].Gated? then Abort else Terminate);
      }
      ok := *;
      if ok {
        EmitSignal(session, Reap);
      }
    }

    /** Losing the handle: a gated child is killed through its gate, a running one by the best-effort destructor. */
    method DropProcess(session: SessionId)
      requires Traced() && session in processes
      requires processes[session].Running? ==> Fenced(sessions, session) || poisoned
      modifies `processes, `released, `log
      ensures Traced() && old(log) <= log && released == old(released)
      ensures processes == old(processes)[session := Reaped]
    {
      hide Traced;
      if processes[session].Gated? {
        EmitSignal(session, Abort);
      }
      if processes[session].Running? {
        EmitSignal(session, Drop);
      } else if processes[session].Killed? {
        EmitSignal(session, Reap);
      }
    }

    // ---------------------------------------------------------- supervision

    /** At most one worker is live; a poisoned core has none; every live process is a retained one; and, while
        unpoisoned, every durable session that is not fenced is the retained one. */
    ghost predicate Supervised()
      reads this
    {
      && |active| <= 1
      && (poisoned ==> active == map[])
      && (forall s :: s in active ==>
            && s in sessions && s in processes && processes[s].Running?
            && active[s].governorKey == config.governorKey)
      && (forall s :: s in processes && !processes[s].Reaped? ==> s in active)
      && (!poisoned ==> forall s :: s in sessions && !Fenced(sessions, s) ==> s in active)
    }

    /** In between: nothing is retained and only this one session may still be unfenced or have a live process. */
    ghost predicate OnlyLoose(session: SessionId)
      reads this
    {
      && active == map[] && session in processes
      && (forall s :: s in processes && s != session ==> processes[s].Reaped?)
      && (forall s :: s in sessions && s != session ==> Fenced(sessions, s))
    }

    twostate lemma StaysLoose(session: SessionId)
      requires old(OnlyLoose(session)) && active == old(active) && OnlyTouches(old(sessions), sessions, session)
      requires session in processes && processes == old(processes)[session := processes[session]]
      ensures OnlyLoose(session)
    {
    }

    lemma LooseEndTied(session: SessionId)
      requires OnlyLoose(session) && processes[session].Reaped?
      requires poisoned || session !in sessions || Fenced(sessions, session)
      ensures Supervised()
    {
    }

    lemma ReleasedAreKnown()
      requires Traced()
      ensures forall s :: s in released ==> s in sessions
    {
      TracedIsSound();
    }

    /** Not fenced yet, or fenced for this very reason. */
    predicate FencedFor(table: SessionTable, session: SessionId, reason: Reason) {
      Fenced(table, session) ==> table[session].state.authority.tombstone.reason == reason
    }

    /** Once a session is fenced: stop its process, then record the completed cleanup.  Neither failure poisons. */
    method StopAndClean(session: SessionId, receipt: Digest) returns (r: Result<()>)
      requires Traced() && session in processes && Fenced(sessions, session)
      modifies `sessions, `processes, `released, `log
      ensures Traced() && old(log) <= log && released == old(released)
      ensures OnlyTouches(old(sessions), sessions, session)
      ensures processes.Keys == old(processes).Keys
      ensures forall s :: s in processes && s != session ==> processes[s] == old(processes)[s]
      ensures old(processes)[session].Reaped? ==> processes == old(processes)
      ensures r.Ok? ==> processes[session].Reaped? && CleanedWith(sessions[session].state, receipt)
      ensures session in old(sessions) ==> sessions[session].state.candidate == old(sessions)[session].state.candidate
      ensures r.Err? ==> r.error in {WorkerLaunchFailure(Boundary), Clock, SessionStoreFailure}
    {
      hide Traced;
      var stopped := TerminateProcess(session);
      if !stopped {
        return Err(WorkerLaunchFailure(Boundary));
      }
      if * {
        return Err(Clock);
      }
      var at: nat := *;
      var done := CompleteSessionCleanup(session, receipt, at);
      return if done then Ok(()) else Err(SessionStoreFailure);
    }

    /** Fences durably, and only then signals.  If the fence cannot be made durable the core poisons itself instead. */
    method FenceAndCleanup(session: SessionId, reason: Reason) returns (r: Result<()>)
      requires Traced() && OnlyLoose(session) && !poisoned
      modifies `sessions, `processes, `released, `poisoned, `log
      ensures Traced() && OnlyLoose(session) && old(log) <= log
      ensures released == old(released) && sessions.Keys == old(sessions).Keys
      ensures poisoned || Fenced(sessions, session)
      ensures r.Ok? ==>
                && !poisoned && processes[session].Reaped? && RetiredFor(sessions[session].state, session, ProcessEnd, reason)
      ensures poisoned ==> r == Err(WorkerRecoveryRequired)
      ensures FencedFor(old(sessions), session, reason) || poisoned
      ensures r.Err? ==> r.error in {WorkerRecoveryRequired, WorkerLaunchFailure(Boundary), Clock, SessionStoreFailure}
    {
      hide Traced;
      var fenced := false;
      var at: nat := *;
      if * {
        fenced := TombstoneSession(session, reason, at);
      }
      if !fenced {
        Poison();
        return Err(WorkerRecoveryRequired);
      }
      r := StopAndClean(session, OfCleanup(ProcessEnd, session, reason, at));
    }

    /** Fence and cleanup, after which the handle goes out of scope. */
    method RetireWorker(session: SessionId, reason: Reason) returns (r: Result<()>)
      requires Traced() && OnlyLoose(session) && !poisoned
      modifies `sessions, `processes, `released, `poisoned, `log
      ensures Traced() && Supervised() && old(log) <= log && active == old(active)
      ensures released == old(released) && sessions.Keys == old(sessions).Keys
      ensures r.Ok? ==>
                && !poisoned && Fenced(sessions, session) && RetiredFor(sessions[session].state, session, ProcessEnd, reason)
      ensures poisoned ==> r == Err(WorkerRecoveryRequired)
      ensures FencedFor(old(sessions), session, reason) || poisoned
      ensures r.Err? ==> r.error in {WorkerRecoveryRequired, WorkerLaunchFailure(Boundary), Clock, SessionStoreFailure}
    {
      hide Traced;
      r := FenceAndCleanup(session, reason);
      DropProcess(session);
      LooseEndTied(session);
    }

    // ---------------------------------------------------------- launching

    /** Records a new session, or recognises an exact retry. */
    method PrepareSession(spec: SessionSpec) returns (ok: bool)
      requires Traced() && SpecBound(config, spec)
      modifies `sessions, `log
      ensures Traced() && old(log) <= log
      ensures forall s :: s in old(sessions) ==> s in sessions && sessions[s] == old(sessions)[s]
      ensures forall s :: s in sessions && s !in old(sessions) ==>
                s == spec.session && sessions[s].state == SessionRecord(spec, Authority.Prepared, Awaiting)
      ensures ok ==> spec.session in sessions && sessions[spec.session].state.spec == spec
    {
      if * {
        return false;
      }
      if spec.session in sessions {
        return sessions[spec.session].state.spec == spec;
      }
      ok := CommitSession(spec.session, Begun(spec));
    }

    method ActivateSession(session: SessionId, receipt: Digest) returns (ok: bool)
      requires Traced()
      modifies `sessions, `log
      ensures Traced() && old(log) <= log
      ensures OnlyTouches(old(sessions), sessions, session)
      ensures ok ==> session in sessions && sessions[session].state == old(sessions)[session].state.(authority := Active(receipt))
      ensures Fenced(old(sessions), session) ==> !ok
    {
      TracedIsSound();
      assert session in sessions ==> SessionSound(config, outbox, proofs, blobs, session, sessions[session].state);
      if * {
        return false;
      }
      if session !in sessions {
        return false;
      }
      match sessions[session].state.authority
      case Active(existing) => return existing == receipt;
      case Tombstoned(_, _, _) => return false;
      case Prepared => ok := AdvanceSession(session, Activate(receipt));
    }

    /** Activation failed, perhaps ambiguously: fence, abort the gate, stop, clean up; whatever is left open poisons. */
    method AbandonActivation(session: SessionId, at: nat)
      requires Traced() && OnlyLoose(session) && !poisoned && processes[session].Gated?
      modifies `sessions, `processes, `released, `poisoned, `log
      ensures Traced() && Supervised() && old(log) <= log && active == old(active)
      ensures released == old(released) && sessions.Keys == old(sessions).Keys
      ensures poisoned ||
              (&& Fenced(sessions, session)
               && RetiredFor(sessions[session].state, session, FailedActivation, LaunchFailed(ActivationStore)))
    {
      hide Traced;
      var reason := LaunchFailed(ActivationStore);
      var fenced := TombstoneSession(session, reason, at);
      var stopped := AbortGate(session);
      if fenced && stopped {
        var cleaned := StopAndClean(session, OfCleanup(FailedActivation, session, reason, at));
        if cleaned.Ok? {
          LooseEndTied(session);
          return;
        }
      }
      PoisonAndDrop(session);
    }

    /** A gated child is killed through its gate; reaping it may still fail. */
    method AbortGate(session: SessionId) returns (stopped: bool)
      requires Traced() && OnlyLoose(session) && processes[session].Gated?
      modifies `processes, `released, `log
      ensures Traced() && old(log) <= log && OnlyLoose(session) && released == old(released)
      ensures processes[session] == if stopped then Reaped else Killed
    {
      hide Traced;
      EmitSignal(session, Abort);
      stopped := TerminateProcess(session);
    }

    /** The core gives up on its store, and the handle goes out of scope. */
    method PoisonAndDrop(session: SessionId)
      requires Traced() && OnlyLoose(session)
      modifies `processes, `released, `poisoned, `log
      ensures Traced() && Supervised() && old(log) <= log && active == old(active) && released == old(released) && poisoned
    {
      hide Traced;
      Poison();
      DropProcess(session);
      LooseEndTied(session);
    }

    /** The durable part of a launch: prepared, then active, and only then is the gate opened. */
    method CommitLaunch(spec: SessionSpec, receipt: Digest, runtime: Runtime, at: nat) returns (r: Result<SessionId>)
      requires Traced() && OnlyLoose(spec.session) && !poisoned && processes[spec.session].Gated?
      requires spec.session in sessions ==> Fenced(sessions, spec.session)
      requires SpecBound(config, spec) && runtime.governorKey == config.governorKey
      modifies `sessions, `processes, `released, `poisoned, `active, `log
      ensures Traced() && Supervised() && old(log) <= log
      ensures r.Ok? ==>
                && r.value == spec.session && r.value !in old(sessions) && active == map[r.value := runtime]
                && sessions[r.value].state == SessionRecord(spec, Active(receipt), Awaiting)
      ensures r.Err? ==> active == map[]
    {
      hide Traced;
      ReleasedAreKnown();
      var session := spec.session;
      var prepared := PrepareSession(spec);
      if !prepared {
        Poison();
        DropProcess(session);
        LooseEndTied(session);
        return Err(WorkerRecoveryRequired);
      }
      var activated := ActivateSession(session, receipt);
      if !activated {
        AbandonActivation(session, at);
        return Err(if poisoned then WorkerRecoveryRequired else SessionStoreFailure);
      }
      r := OpenGate(session, runtime);
    }

    method OpenGate(session: SessionId, runtime: Runtime) returns (r: Result<SessionId>)
      requires Traced() && OnlyLoose(session) && !poisoned && processes[session].Gated?
      requires session in sessions && sessions[session].state.authority.Active? && session !in released
      requires runtime.governorKey == config.governorKey
      modifies `sessions, `processes, `released, `poisoned, `active, `log
      ensures Traced() && Supervised() && old(log) <= log
      ensures r.Ok? ==> r.value == session && sessions == old(sessions) && active == map[session := runtime]
      ensures r.Err? ==> active == map[]
    {
      hide Traced;
      if * {
        var cleaned := RetireWorker(session, DeadlineExpired);
        return Err(if cleaned.Err? then cleaned.error else WorkerLaunchFailure(TimedOut));
      }
      if * {
        EmitSignal(session, Abort);
        var cleaned := RetireWorker(session, LaunchFailed(ReleaseGate));
        return Err(if cleaned.Err? then cleaned.error else WorkerLaunchFailure(Boundary));
      }
      EmitSignal(session, Release);
      active := map[session := runtime];
      return Ok(session);
    }

    /** What a launch writes into the session: everything the running configuration decides, and a random nonce. */
    function LaunchSpec(profile: Profile, draw: Draw): (spec: SessionSpec)
      ensures spec.session == draw.session && SpecBound(config, spec) && IsLaunched(config, profile, draw, spec)
    {
      var worker := Principal(config.domain, config.epoch, draw.session, draw.nonce, config.governor, draw.key, draw.workspace,
                              draw.preparedAt + profile.timeout, profile.outputBudget);
      SessionSpec(draw.session, config.domain, config.epoch, profile.id, worker, WorkerChain(config, worker).value,
                  draw.workspace, profile.outputBudget)
    }

    /** The launch facts the core keeps to itself. */
    function RuntimeFor(spec: SessionSpec, draw: Draw): Runtime {
      Runtime(OfSpec(spec), OfPrincipal(spec.worker), spec.worker.keyIdentity, config.governorKey, draw.challenge)
    }

    /** A second worker is never launched beside a live one, nor any by a poisoned core.  A failed launch retains nothing. */
    method LaunchWorker(profileId: string, draw: Draw) returns (r: Result<SessionId>)
      requires Traced() && Supervised()
      modifies `sessions, `processes, `released, `poisoned, `active, `log
      ensures Traced() && Supervised() && old(log) <= log
      ensures old(poisoned) ==> r == Err(WorkerRecoveryRequired) && log == old(log)
      ensures old(active) != map[] ==> r.Err? && log == old(log)
      ensures r.Ok? ==>
                && !poisoned && r.value == draw.session && r.value !in old(sessions)
                && r.value in sessions && r.value in processes && processes[r.value].Running?
                && exists profile ::
                     IsReviewed(config, profileId, profile) && IsLaunched(config, profile, draw, sessions[r.value].state.spec)
      ensures r.Ok? ==>
                var spec := sessions[r.value].state.spec;
                && sessions[r.value].state == SessionRecord(spec, Active(draw.receipt), Awaiting)
                && active == map[r.value := Runtime(OfSpec(spec), OfPrincipal(spec.worker), draw.key, config.governorKey, draw.challenge)]
      ensures r.Err? ==> active == old(active)
    {
      hide Traced, IsLaunched, IsReviewed;
      if poisoned {
        return Err(WorkerRecoveryRequired);
      }
      if * {
        return Err(Quiesced);
      }
      if active != map[] {
        return Err(WorkerCapacityExhausted);
      }
      if config.profiles.None? {
        return Err(WorkerRuntimeUnavailable);
      }
      var profile := FindProfile(config.profiles.value, profileId);
      if profile.None? {
        return Err(WorkerLaunchFailure(UnknownProfile));
      }
      FoundIsReviewed(config, profileId);
      if * {
        return Err(WorkerLaunchFailure(Boundary));
      }
      r := SpawnGated(profile.value, draw);
    }

    /** The child exists but cannot run until its gate opens; failing before the session is written just drops it. */
    method SpawnGated(profile: Profile, draw: Draw) returns (r: Result<SessionId>)
      requires Traced() && Supervised() && !poisoned && active == map[]
      modifies `sessions, `processes, `released, `poisoned, `active, `log
      ensures Traced() && Supervised() && old(log) <= log
      ensures r.Ok? ==>
                && !poisoned && r.value == draw.session && r.value !in old(sessions)
                && r.value in sessions && r.value in processes && processes[r.value].Running?
                && IsLaunched(config, profile, draw, sessions[r.value].state.spec)
      ensures r.Ok? ==>
                var spec := sessions[r.value].state.spec;
                && sessions[r.value].state == SessionRecord(spec, Active(draw.receipt), Awaiting)
                && active == map[r.value := Runtime(OfSpec(spec), OfPrincipal(spec.worker), draw.key, config.governorKey, draw.challenge)]
      ensures r.Err? ==> active == map[]
    {
      hide Traced, LaunchedHere;
      var session := draw.session;
      EmitSignal(session, Gate);
      if * {
        DropProcess(session);
        LooseEndTied(session);
        return Err(Clock);
      }
      var spec := LaunchSpec(profile, draw);
      r := CommitLaunch(spec, draw.receipt, RuntimeFor(spec, draw), draw.preparedAt);
    }

    // ---------------------------------------------------------- accepting a candidate

    /** A frame that may be taken into custody: the retained launch facts still match the durable session, the
        session is live and unexpired, and the exchange fits what was reviewed. */
    predicate Acceptable(record: SessionRecord, session: SessionId, runtime: Runtime, frame: Frame, at: nat) {
      var profile := ReviewedProfile(config, record.spec.profileId);
      && at < record.spec.worker.expiresAt
      && runtime.sessionBinding == OfSpec(record.spec)
      && runtime.workerPrincipal == OfPrincipal(record.spec.worker)
      && runtime.workerKey == record.spec.worker.keyIdentity
      && record.authority.Active? && record.candidate.Awaiting?
      && frame.Signed? && frame.named == session && frame.nonce == record.spec.worker.nonce
      && profile.Some? && profile.value.outputBudget == record.spec.outputBudget
      && frame.semanticType == profile.value.semanticType
      && |frame.content| <= record.spec.outputBudget
    }

    /** A worker launched under a reviewed profile is heard: before its deadline, its own frame of the reviewed type
        and within budget is acceptable. */
    lemma LaunchedWorkerIsHeard(profile: Profile, draw: Draw, receipt: Digest, content: Bytes, at: nat)
      requires ReviewedProfile(config, profile.id) == Some(profile)
      requires at < draw.preparedAt + profile.timeout && |content| <= profile.outputBudget
      ensures var spec := LaunchSpec(profile, draw);
              Acceptable(SessionRecord(spec, Active(receipt), Awaiting), draw.session, RuntimeFor(spec, draw),
                         Signed(draw.session, draw.nonce, profile.semanticType, content), at)
    {
    }

    function ProofOf(runtime: Runtime, frame: Frame): IngressProof
      requires frame.Signed?
    {
      IngressProof(runtime.governorKey, runtime.workerPrincipal, runtime.workerKey, runtime.challenge,
                   frame.nonce, frame.semanticType, frame.content)
    }

    /** Installs the proof and the bytes, then exchanges the principal for custody in one transition. */
    method InstallCandidate(session: SessionId, runtime: Runtime, frame: Frame, at: nat) returns (ok: bool)
      requires Traced() && session in sessions && runtime.governorKey == config.governorKey
      requires Acceptable(sessions[session].state, session, runtime, frame, at)
      modifies `sessions, `proofs, `blobs, `log
      ensures Traced() && old(log) <= log
      ensures OnlyTouches(old(sessions), sessions, session)
      ensures ok ==> TakenIntoCustody(old(sessions)[session].state, sessions[session].state, session, runtime, frame, at)
    {
      AcceptanceIsPermitted(session, runtime, frame, at);
      hide Traced, Acceptable, ProofOf, CustodyRecord, TombstoneFor, ProofBound;
      if * {
        return false;
      }
      var record := sessions[session].state;
      var proof := ProofOf(runtime, frame);
      EmitBlobs(proof);
      var custody := CustodyRecord(OfBytes(proof.content), |proof.content|, proof.semanticType, OfProof(proof));
      ok := AdvanceSession(session, AcceptCandidate(custody, TombstoneFor(record, session, CandidateAccepted, at)));
    }

    lemma AcceptanceIsPermitted(session: SessionId, runtime: Runtime, frame: Frame, at: nat)
      requires Traced() && session in sessions && runtime.governorKey == config.governorKey
      requires Acceptable(sessions[session].state, session, runtime, frame, at)
      ensures var record, proof := sessions[session].state, ProofOf(runtime, frame);
              var custody := CustodyRecord(OfBytes(proof.content), |proof.content|, proof.semanticType, OfProof(proof));
              var tombstone := TombstoneFor(record, session, CandidateAccepted, at);
              var next := Advance(record, AcceptCandidate(custody, tombstone));
              && proof.content == frame.content && custody.ingressProof == OfProof(proof)
              && custody.content == OfBytes(frame.content) && tombstone.reason == CandidateAccepted
              && ProofBound(config, record.spec, custody, tombstone.since)
              && next.Some? && next.value.candidate == InCustody(custody)
              && next.value.authority.Tombstoned? && next.value.authority.tombstone == tombstone
    {
      TracedIsSound();
      assert SessionSound(config, outbox, proofs, blobs, session, sessions[session].state);
    }

    /** The checks in the daemon's order: the first that fails names the error. */
    function Refusal(record: SessionRecord, session: SessionId, runtime: Runtime, frame: Frame,
                     at: nat): (error: Option<AgdError>)
      ensures error.None? <==> Acceptable(record, session, runtime, frame, at)
      ensures error.Some? ==> RefusalReason(error.value).Some?
    {
      var principal := record.spec.worker;
      var profile := ReviewedProfile(config, record.spec.profileId);
      if at >= principal.expiresAt then Some(WorkerCandidateExpired)
      else if runtime.sessionBinding != OfSpec(record.spec) || runtime.workerPrincipal != OfPrincipal(principal)
              || principal.keyIdentity != runtime.workerKey then Some(WorkerProofMismatch)
      else if !record.authority.Active? || !record.candidate.Awaiting? then Some(WorkerProofMismatch)
      else if frame.Garbled? then Some(WorkerProtocol)
      else if frame.Unauthentic? then Some(RpcAuthentication)
      else if frame.named != session then Some(WorkerProofMismatch)
      else if profile.None? || record.spec.outputBudget != profile.value.outputBudget then Some(WorkerProfileBindingMismatch)
      else if frame.nonce != principal.nonce then Some(WorkerProofMismatch)
      else if frame.semanticType != profile.value.semanticType then Some(WorkerCandidateSemanticMismatch)
      else if |frame.content| > record.spec.outputBudget then Some(WorkerCandidateBudgetExceeded(|frame.content|))
      else None
    }

    /** Whatever is the worker's own fault is a closed refusal that wrote nothing; everything else is a boundary the
        caller must not paper over. */
    method AcceptWorkerCandidate(session: SessionId, runtime: Runtime, frame: Frame, at: nat) returns (r: Result<()>)
      requires Traced() && runtime.governorKey == config.governorKey
      modifies `sessions, `proofs, `blobs, `log
      ensures Traced() && old(log) <= log
      ensures OnlyTouches(old(sessions), sessions, session)
      ensures r.Ok? ==>
                && session in old(sessions) && Acceptable(old(sessions)[session].state, session, runtime, frame, at)
                && TakenIntoCustody(old(sessions)[session].state, sessions[session].state, session, runtime, frame, at)
      ensures r.Err? && RefusalReason(r.error).Some? ==>
                && log == old(log) && sessions == old(sessions)
                && session in sessions && Refusal(sessions[session].state, session, runtime, frame, at) == Some(r.error)
      ensures r.Err? && RefusalReason(r.error).None? ==> r.error in {Clock, SessionStoreFailure}
    {
      hide Traced, Acceptable;
      if * {
        return Err(Clock);
      }
      if * {
        return Err(SessionStoreFailure);
      }
      if session !in sessions {
        return Err(SessionStoreFailure);
      }
      var refusal := Refusal(sessions[session].state, session, runtime, frame, at);
      if refusal.Some? {
        return Err(refusal.value);
      }
      var ok := InstallCandidate(session, runtime, frame, at);
      return if ok then Ok(()) else Err(SessionStoreFailure);
    }

    // ---------------------------------------------------------- forwarding from custody

    predicate HasCustody(session: SessionId)
      reads `sessions
    {
      session in sessions && !sessions[session].state.candidate.Awaiting?
    }

    /** The forward that this session's custody stands for. */
    function CustodyKey(session: SessionId): Option<Digest>
      requires session in sessions
      reads `sessions
    {
      CustodyForward(config, sessions[session].state)
    }

    lemma CustodyIsSound(session: SessionId)
      requires Traced() && session in sessions
      ensures SessionSound(config, outbox, proofs, blobs, session, sessions[session].state)
      ensures HasCustody(session) ==>
                var record := sessions[session].state;
                && CandidateMapping(config, record).Ok?
                && CandidateSource(config, record, record.candidate.custody.ingressProof.proof).Ok?
    {
      TracedIsSound();
      var record := sessions[session].state;
      assert SessionSound(config, outbox, proofs, blobs, session, record);
      if !record.candidate.Awaiting? {
        SoundCustodyRebuilds(config, outbox, proofs, blobs, session, record);
      }
    }

    /** Rebuilds the worker's proof from durable custody.  In a store only this core has written, nothing but the
        store itself can make that fail. */
    method WorkerCandidateSource(session: SessionId) returns (r: Result<SourceProof>)
      requires Traced()
      ensures r.Ok? ==>
                && HasCustody(session) && sessions[session].state.candidate.custody.ingressProof.OfProof?
                && r == CandidateSource(config, sessions[session].state, sessions[session].state.candidate.custody.ingressProof.proof)
                && IsOwnProof(config, sessions[session].state, r.value)
      ensures r.Err? ==> r.error == SessionStoreFailure
    {
      hide Traced, CandidateSource, IsOwnProof;
      if * {
        return Err(SessionStoreFailure);
      }
      if session !in sessions {
        return Err(SessionStoreFailure);
      }
      CustodyIsSound(session);
      var record := sessions[session].state;
      if record.candidate.Awaiting? {
        return Err(SessionStoreFailure);
      }
      r := CandidateSource(config, record, record.candidate.custody.ingressProof.proof);
      SourceIsOwn(config, outbox, proofs, blobs, session, record, r.value);
    }

    /** Maps custody through the one reviewed effect and commits the judgment that admits it. */
    method AdmitWorkerCandidate(session: SessionId) returns (r: Result<Intent>)
      requires Traced()
      modifies `judgments, `log
      ensures Traced() && old(log) <= log && JudgmentsKept(old(judgments), judgments)
      ensures r.Ok? ==>
                && HasCustody(session) && CandidateMapping(config, sessions[session].state).Ok?
                && r.value == JudgedIntent(CandidateMapping(config, sessions[session].state).value)
                && ValidShape(r.value) && VerifyAdmission(judgments, r.value.judgment, SubjectOf(r.value)).Ok?
      ensures r.Ok? ==>
                && ProposesReviewed(config, session, sessions[session].state, r.value)
                && r.value.judgment in judgments
                && IsOwnJudgment(config, sessions[session].state, r.value, judgments[r.value.judgment])
      ensures r.Err? ==> r.error in {SessionStoreFailure, StoreFailure, Quiesced, WorkerCandidateNotInCustody}
      ensures HasCustody(session) ==> r != Err(WorkerCandidateNotInCustody)
    {
      hide Traced, CandidateMapping, ValidShape, JudgedIntent, VerifyAdmission, ProposesReviewed, IsOwnJudgment, WorkerJudgment;
      if * {
        return Err(SessionStoreFailure);
      }
      if session !in sessions {
        return Err(SessionStoreFailure);
      }
      var record := sessions[session].state;
      if record.candidate.Awaiting? {
        return Err(WorkerCandidateNotInCustody);
      }
      MappingIsWellShaped(session);
      MappingProposes(session);
      r := JudgeMapping(CandidateMapping(config, record).value);
    }

    lemma MappingIsWellShaped(session: SessionId)
      requires Traced() && HasCustody(session)
      ensures CandidateMapping(config, sessions[session].state).Ok?
      ensures var mapping := CandidateMapping(config, sessions[session].state).value;
              SubjectOf(mapping.unjudged) == mapping.subject && ValidShape(mapping.unjudged) && ValidShape(JudgedIntent(mapping))
    {
      CustodyIsSound(session);
    }

    lemma MappingProposes(session: SessionId)
      requires Traced() && HasCustody(session) && CandidateMapping(config, sessions[session].state).Ok?
      ensures var mapping, record := CandidateMapping(config, sessions[session].state).value, sessions[session].state;
              && ProposesReviewed(config, session, record, JudgedIntent(mapping))
              && IsOwnJudgment(config, record, JudgedIntent(mapping), WorkerJudgment(mapping.origin, mapping.subject))
    {
      hide Traced, ProposesReviewed, IsOwnJudgment, WorkerJudgment, SessionSound, CandidateSource;
      CustodyIsSound(session);
      CustodyProposes(config, outbox, proofs, blobs, session, sessions[session].state,
                      JudgedIntent(CandidateMapping(config, sessions[session].state).value));
    }

    method JudgeMapping(mapping: Mapping) returns (r: Result<Intent>)
      requires Traced() && SubjectOf(mapping.unjudged) == mapping.subject && ValidShape(mapping.unjudged)
      modifies `judgments, `log
      ensures Traced() && old(log) <= log && JudgmentsKept(old(judgments), judgments)
      ensures r.Ok? ==>
                && r.value == JudgedIntent(mapping) && VerifyAdmission(judgments, r.value.judgment, SubjectOf(r.value)).Ok?
                && r.value.judgment in judgments && judgments[r.value.judgment] == WorkerJudgment(mapping.origin, mapping.subject)
      ensures r.Err? ==> r.error in {StoreFailure, Quiesced}
    {
      WorkerJudgmentAdmits(mapping.origin, mapping.subject);
      var committed := EvaluateAndCommit(mapping.subject, WorkerBooks(mapping.origin, mapping.subject),
                                         WorkerClaim(mapping.origin, mapping.subject));
      if committed.Err? {
        return Err(committed.error);
      }
      if !judgments[committed.value].judgment.Admit? {
        assert false;
        return Err(WorkerJudgmentDidNotAdmit);
      }
      return Ok(mapping.unjudged.(judgment := committed.value));
    }

    /** The governor's own check of a rebuilt proof before it leaves: principal, key, lineage, time and custody agree. */
    predicate SourceHolds(intent: Intent, source: SourceProof) {
      var worker, proof := source.worker, source.proof;
      && proof.workerPrincipal == OfPrincipal(worker) && proof.workerKey == worker.keyIdentity
      && intent.proposer == source.chain
      && source.chain.domain == worker.domain == config.domain && source.chain.epoch == worker.epoch == config.epoch
      && worker.workspace == source.workspace && source.acceptedAt < worker.expiresAt
      && proof.governorKey == config.governorKey
      && proof.nonce == worker.nonce
      && source.custody == CustodyRecord(OfBytes(proof.content), |proof.content|, proof.semanticType, OfProof(proof)).record
    }

    /** What custody rebuilds to passes every one of those checks. */
    lemma RebuiltSourceHolds(session: SessionId)
      requires Traced() && HasCustody(session)
      ensures var record := sessions[session].state;
              && record.candidate.custody.ingressProof.OfProof?
              && CandidateSource(config, record, record.candidate.custody.ingressProof.proof).Ok?
              && CandidateMapping(config, record).Ok?
              && var source := CandidateSource(config, record, record.candidate.custody.ingressProof.proof).value;
                 source.worker.session == session && SourceHolds(JudgedIntent(CandidateMapping(config, record).value), source)
    {
      CustodyIsSound(session);
    }

    /** Of a session's own proof only the lineage can disagree with the intent it is to carry; another proof is not rebuilt. */
    lemma OnlyLineageCanFail(intent: Intent, source: SourceProof)
      requires Traced() && HasCustody(source.worker.session)
      ensures var record := sessions[source.worker.session].state;
              && record.candidate.custody.ingressProof.OfProof?
              && (CandidateSource(config, record, record.candidate.custody.ingressProof.proof) == Ok(source) <==>
                    IsOwnProof(config, record, source))
              && (IsOwnProof(config, record, source) ==> (SourceHolds(intent, source) <==> intent.proposer == source.chain))
    {
      CustodyIsSound(source.worker.session);
      var record := sessions[source.worker.session].state;
      SourceIsOwn(config, outbox, proofs, blobs, source.worker.session, record, source);
      hide CandidateSource, CandidateMapping;
    }

    method ForwardWorkerCandidate(intent: Intent, source: SourceProof) returns (r: Result<Response>)
      requires Traced()
      modifies `outbox, `submissions, `presented, `log
      ensures Traced() && old(log) <= log
      ensures OutboxKept(old(outbox), outbox) && SubmissionsKept(old(submissions), submissions)
      ensures outbox.Keys <= old(outbox).Keys + {ForwardSource(config, WorkerCandidate(intent, source)).value}
      ensures var key := ForwardSource(config, WorkerCandidate(intent, source)).value;
              && (r.Ok? ==> key in outbox && outbox[key].state.state == Completed(r.value))
              && (key in old(outbox) && old(outbox)[key].state.state.Completed? ==>
                    unchanged(this) && (r.Ok? ==> r.value == old(outbox)[key].state.state.response))
      ensures r.Ok? ==>
                && HasCustody(source.worker.session) && IsOwnProof(config, sessions[source.worker.session].state, source)
                && intent.proposer == source.chain
      ensures r.Err? ==>
                || r.error == SessionStoreFailure
                || (r.error == WorkerProofMismatch && HasCustody(source.worker.session) &&
                    !(IsOwnProof(config, sessions[source.worker.session].state, source) && intent.proposer == source.chain))
                || old(ForwardRefused(intent, r.error))
      ensures HasCustody(source.worker.session) &&
                !(IsOwnProof(config, sessions[source.worker.session].state, source) && intent.proposer == source.chain) ==>
                r.Err? && unchanged(this)
    {
      TablesKeepThemselves(outbox, submissions);
      hide Traced, CandidateSource, SourceHolds, IsOwnProof, ForwardRefused, OutboxKept, SubmissionsKept, ForwardSource, FitToPropose,
           IsAdmitted, IsDeferred;
      var durable := WorkerCandidateSource(source.worker.session);
      if durable.Err? {
        return Err(durable.error);
      }
      OnlyLineageCanFail(intent, source);
      if durable.value != source || !SourceHolds(intent, source) {
        return Err(WorkerProofMismatch);
      }
      r := ForwardGovernedIntent(intent, WorkerCandidate(intent, source));
    }

    lemma RecordIsCoherent(session: SessionId)
      requires Traced() && session in sessions
      ensures Coherent(sessions[session].state)
    {
      CustodyIsSound(session);
    }

    method RecordOutcome(session: SessionId, outcome: BrokerOutcome) returns (ok: bool)
      requires Traced() && session in sessions && OutcomeIsStored(config, outbox, sessions[session].state, outcome)
      requires !sessions[session].state.candidate.Awaiting?
      modifies `sessions, `log
      ensures Traced() && old(log) <= log && OnlyTouches(old(sessions), sessions, session)
      ensures ok ==>
                var was := old(sessions)[session].state;
                sessions[session].state == was.(candidate := BrokerCompleted(was.candidate.custody, outcome))
    {
      hide Traced, OutcomeIsStored;
      RecordIsCoherent(session);
      if * {
        return false;
      }
      if sessions[session].state.candidate.BrokerCompleted? {
        return sessions[session].state.candidate.outcome == outcome;
      }
      ok := AdvanceSession(session, RecordBrokerOutcome(outcome));
    }

    lemma OutcomeIsAlwaysTold(session: SessionId)
      requires Traced() && session in sessions && sessions[session].state.candidate.BrokerCompleted?
      ensures OutcomeIsTold(config, outbox, sessions[session].state, sessions[session].state.candidate.outcome)
    {
      assert log[..|log|] == log;
      OutcomesMatchTheOutbox(config, log, |log|, session);
      hide OutcomeIsTold;
    }

    /** Errors that say nothing about the candidate: the store, the clock, a backup barrier, the broker connection. */
    predicate Operational(error: AgdError) {
      error in {SessionStoreFailure, StoreFailure, Clock, Quiesced, TransportFailure, BrokerFailure}
    }

    /** Custody rebuilds to a forward that no gate on its content can refuse. */
    lemma RebuiltIsForwardable(session: SessionId, intent: Intent, source: SourceProof)
      requires Traced() && HasCustody(session) && sessions[session].state.candidate.custody.ingressProof.OfProof?
      requires CandidateMapping(config, sessions[session].state).Ok?
      requires intent == JudgedIntent(CandidateMapping(config, sessions[session].state).value)
      requires CandidateSource(config, sessions[session].state, sessions[session].state.candidate.custody.ingressProof.proof) == Ok(source)
      ensures source.worker.session == session && SourceHolds(intent, source)
      ensures CandidateIngress(config, sessions[session].state) == Some(WorkerCandidate(intent, source))
      ensures intent.domain == intent.proposer.domain == config.domain && intent.epoch == intent.proposer.epoch == config.epoch
    {
      RebuiltSourceHolds(session);
    }

    /** An intent that is presentable and verified is refused, if at all, for no reason of its own. */
    lemma GatesAreOpen(intent: Intent)
      requires Traced() && ValidShape(intent) && VerifyAdmission(judgments, intent.judgment, SubjectOf(intent)).Ok?
      requires intent.domain == intent.proposer.domain == config.domain && intent.epoch == intent.proposer.epoch == config.epoch
      ensures forall error :: ForwardRefused(intent, error) ==>
                || Operational(error)
                || (error == WorkerRecoveryRequired && poisoned) || (error == WorkerSupervisorBusy && active != map[])
    {
      GatesMean(intent);
      AdmittedNeverFails(judgments, intent);
      hide Traced, ValidShape, VerifyAdmission, IsFormed, IsAdmitted, JudgmentFails;
    }

    /** The forward of what custody rebuilds to can only be deferred or fail in the store. */
    method ForwardRebuilt(session: SessionId, intent: Intent, source: SourceProof) returns (r: Result<Response>)
      requires Traced() && HasCustody(session) && sessions[session].state.candidate.custody.ingressProof.OfProof?
      requires CandidateMapping(config, sessions[session].state).Ok?
      requires intent == JudgedIntent(CandidateMapping(config, sessions[session].state).value)
      requires ValidShape(intent) && VerifyAdmission(judgments, intent.judgment, SubjectOf(intent)).Ok?
      requires CandidateSource(config, sessions[session].state, sessions[session].state.candidate.custody.ingressProof.proof) == Ok(source)
      modifies `outbox, `submissions, `presented, `log
      ensures Traced() && old(log) <= log && OutboxKept(old(outbox), outbox)
      ensures CandidateIngress(config, sessions[session].state) == Some(WorkerCandidate(intent, source))
      ensures r.Ok? ==> OutcomeIsStored(config, outbox, sessions[session].state, OutcomeOf(r.value))
      ensures CustodyKey(session).Some? && StandsFor(config, sessions, CustodyKey(session).value)
      ensures outbox.Keys <= old(outbox).Keys + {CustodyKey(session).value}
      ensures var key := CustodyKey(session).value;
              key in old(outbox) && old(outbox)[key].state.state.Completed? ==> unchanged(this)
      ensures r.Err? ==>
                || Operational(r.error)
                || (r.error == WorkerRecoveryRequired && poisoned) || (r.error == WorkerSupervisorBusy && active != map[])
    {
      hide Traced, CandidateMapping, CandidateSource, SourceHolds, CandidateIngress, VerifyAdmission, ValidShape, JudgedIntent, IsOwnProof,
           ForwardRefused, SessionSound;
      CustodyIsSound(session);
      RebuiltIsForwardable(session, intent, source);
      GatesAreOpen(intent);
      SourceIsOwn(config, outbox, proofs, blobs, session, sessions[session].state, source);
      r := ForwardWorkerCandidate(intent, source);
    }

    /** Everything up to the recorded outcome, which is the only part that touches the session. */
    method AdmitAndForward(session: SessionId) returns (r: Result<Response>)
      requires Traced()
      modifies `judgments, `outbox, `submissions, `presented, `log
      ensures Traced() && old(log) <= log && OutboxKept(old(outbox), outbox)
      ensures forall key :: key in outbox ==> key in old(outbox) || StandsFor(config, sessions, key)
      ensures r.Ok? ==> HasCustody(session) && OutcomeIsStored(config, outbox, sessions[session].state, OutcomeOf(r.value))
      ensures HasCustody(session) && CustodyKey(session).Some?
              && CustodyKey(session).value in old(outbox)
              && old(outbox)[CustodyKey(session).value].state.state.Completed? ==>
                presented == old(presented) && submissions == old(submissions) && outbox == old(outbox)
      ensures r.Err? ==>
                || Operational(r.error)
                || (r.error == WorkerRecoveryRequired && poisoned) || (r.error == WorkerSupervisorBusy && active != map[])
    {
      hide Traced, CandidateMapping, CandidateSource, CandidateIngress, OutcomeIsStored, JudgedIntent, VerifyAdmission, ValidShape, StandsFor,
           ProposesReviewed, IsOwnJudgment, IsOwnProof;
      var source := WorkerCandidateSource(session);
      if source.Err? {
        return Err(source.error);
      }
      var intent := AdmitWorkerCandidate(session);
      if intent.Err? {
        return Err(intent.error);
      }
      r := ForwardRebuilt(session, intent.value, source.value);
    }

    /** Carries the candidate in custody to a recorded broker outcome.  No check on the rebuilt material can fail,
        whatever was interrupted before; a forward already completed is only read back. */
    method ForwardCustodied(session: SessionId) returns (r: Result<BrokerOutcome>)
      requires Traced()
      modifies `judgments, `outbox, `sessions, `submissions, `presented, `log
      ensures Traced() && old(log) <= log
      ensures OutboxKept(old(outbox), outbox) && OnlyTouches(old(sessions), sessions, session)
      ensures Rooted(config, old(log)) ==> Rooted(config, log)
      ensures r.Err? && IsDeferred(r.error) ==> sessions == old(sessions)
      ensures r.Ok? ==> HasCustody(session) && sessions[session].state.candidate.BrokerCompleted?
                        && sessions[session].state.candidate.outcome == r.value
                        && OutcomeIsTold(config, outbox, sessions[session].state, r.value)
      ensures session in old(sessions) && old(sessions)[session].state.candidate.BrokerCompleted? ==>
                log == old(log) && (r.Ok? ==> r.value == old(sessions)[session].state.candidate.outcome)
      ensures r.Err? ==>
                || Operational(r.error)
                || (r.error == WorkerRecoveryRequired && poisoned) || (r.error == WorkerSupervisorBusy && active != map[])
      ensures old(HasCustody(session)) && old(CustodyKey(session)).Some?
              && old(CustodyKey(session)).value in old(outbox)
              && old(outbox)[old(CustodyKey(session)).value].state.state.Completed? ==>
                presented == old(presented) && submissions == old(submissions) && outbox == old(outbox)
    {
      hide Traced, CandidateIngress, OutcomeIsStored, OutcomeIsTold, StandsFor, Rooted;
      if * {
        return Err(SessionStoreFailure);
      }
      if session !in sessions {
        return Err(SessionStoreFailure);
      }
      var record := sessions[session].state;
      if record.candidate.BrokerCompleted? {
        OutcomeIsAlwaysTold(session);
        return Ok(record.candidate.outcome);
      }
      var response := AdmitAndForward(session);
      StillRooted();
      label Forwarded:
      if response.Err? {
        return Err(response.error);
      }
      if * {
        return Err(Clock);
      }
      var ok := RecordOutcome(session, OutcomeOf(response.value));
      StillRooted@Forwarded();
      if ok {
        OutcomeIsAlwaysTold(session);
      }
      return if ok then Ok(OutcomeOf(response.value)) else Err(SessionStoreFailure);
    }

    // ---------------------------------------------------------- supervising

    lemma OnlyActive(session: SessionId)
      requires |active| <= 1 && session in active
      ensures active.Keys == {session}
    {
      assert |active.Keys - {session}| == |active| - 1;
    }

    /** Takes the one retained worker out of the table; from here on it is the single loose end. */
    method TakeRuntime(session: SessionId) returns (runtime: Runtime)
      requires Supervised() && session in active
      modifies `active
      ensures OnlyLoose(session) && !poisoned && active == map[]
      ensures runtime == old(active)[session] && runtime.governorKey == config.governorKey
      ensures session in sessions && processes[session].Running?
    {
      OnlyActive(session);
      runtime := active[session];
      active := active - {session};
    }

    /** Errors a poll may end the daemon with. */
    predicate PollError(error: AgdError) {
      Operational(error) || error == WorkerRecoveryRequired || error == WorkerLaunchFailure(Boundary)
    }

    /** Fenced by a cancellation. */
    predicate WasCancelled(table: SessionTable, session: SessionId) {
      Fenced(table, session) && table[session].state.authority.tombstone.reason.Cancelled?
    }

    /** A worker that failed, by its own or its process's fault, is fenced before anything else happens to it. */
    method PollFault(session: SessionId, reason: Reason, reaped: bool) returns (r: Result<Polled>)
      requires Traced() && OnlyLoose(session) && !poisoned && session in sessions && processes[session].Running?
      modifies `sessions, `processes, `released, `poisoned, `log
      ensures Traced() && Supervised() && old(log) <= log && active == old(active)
      ensures r.Ok? ==>
                && r.value == PolledFailed && !poisoned
                && Fenced(sessions, session) && sessions[session].state.authority.tombstone.reason == reason
      ensures poisoned ==> r == Err(WorkerRecoveryRequired)
      ensures FencedFor(old(sessions), session, reason) || poisoned
      ensures r.Err? ==> PollError(r.error)
    {
      hide Traced;
      if reaped {
        EmitSignal(session, Exit);
      }
      var retired := RetireWorker(session, reason);
      return if retired.Ok? then Ok(PolledFailed) else Err(retired.error);
    }

    /** No custody came of the exit: a closed refusal fences the session, any other error poisons the core. */
    method EndUnheard(session: SessionId, error: AgdError) returns (r: Result<Polled>)
      requires Traced() && OnlyLoose(session) && !poisoned && processes[session].Reaped?
      modifies `sessions, `processes, `released, `poisoned, `log
      ensures Traced() && Supervised() && old(log) <= log && active == old(active)
      ensures Rooted(config, old(log)) ==> Rooted(config, log)
      ensures r.Ok? ==>
                && r.value == PolledFailed && !poisoned && Fenced(sessions, session)
                && Some(sessions[session].state.authority.tombstone.reason) == RefusalReason(error)
      ensures RefusalReason(error).None? ==> poisoned
      ensures WasCancelled(old(sessions), session) ==> poisoned
      ensures poisoned ==> r == Err(WorkerRecoveryRequired)
      ensures r.Err? ==> PollError(r.error)
    {
      hide Traced, Rooted, StandsFor;
      if RefusalReason(error).Some? {
        var retired := RetireWorker(session, RefusalReason(error).value);
        r := if retired.Ok? then Ok(PolledFailed) else Err(retired.error);
      } else {
        Poison();
        LooseEndTied(session);
        r := Err(WorkerRecoveryRequired);
      }
      StillRooted();
    }

    lemma FencedIsNotAcceptable(record: SessionRecord, session: SessionId, runtime: Runtime, frame: Frame, at: nat)
      ensures Acceptable(record, session, runtime, frame, at) ==> !record.authority.Tombstoned?
    {
    }

    /** The child is reaped and its frame judged. */
    method HearExit(session: SessionId, runtime: Runtime, frame: Frame, at: nat) returns (accepted: Result<()>)
      requires Traced() && OnlyLoose(session) && !poisoned && session in sessions && processes[session].Running?
      requires runtime.governorKey == config.governorKey
      modifies `sessions, `proofs, `blobs, `processes, `released, `log
      ensures Traced() && old(log) <= log && OnlyLoose(session) && processes[session].Reaped?
      ensures Rooted(config, old(log)) ==> Rooted(config, log)
      ensures accepted.Ok? ==>
                && Acceptable(old(sessions)[session].state, session, runtime, frame, at)
                && session in sessions
                && TakenIntoCustody(old(sessions)[session].state, sessions[session].state, session, runtime, frame, at)
      ensures accepted.Err? && RefusalReason(accepted.error).Some? ==>
                Refusal(old(sessions)[session].state, session, runtime, frame, at) == Some(accepted.error)
      ensures WasCancelled(old(sessions), session) ==> accepted.Err? && WasCancelled(sessions, session)
      ensures accepted.Err? ==> accepted.error in {Clock, SessionStoreFailure} || RefusalReason(accepted.error).Some?
    {
      assert session in processes;
      FencedIsNotAcceptable(sessions[session].state, session, runtime, frame, at);
      hide Traced, Acceptable, Refusal, Rooted, StandsFor, RefusalReason, OnlyLoose, TakenIntoCustody;
      EmitSignal(session, Exit);
      accepted := AcceptWorkerCandidate(session, runtime, frame, at);
      StaysLoose(session);
      StillRooted();
    }

    /** The worker exited cleanly: take its candidate, or fence it with the closed refusal, or poison the core when
        the store may have committed what the core did not hear about. */
    method PollExit(session: SessionId, runtime: Runtime, frame: Frame, at: nat) returns (r: Result<Polled>)
      requires Traced() && OnlyLoose(session) && !poisoned && session in sessions && processes[session].Running?
      requires runtime.governorKey == config.governorKey
      modifies `judgments, `outbox, `sessions, `proofs, `blobs, `submissions, `presented, `processes, `released, `poisoned, `log
      ensures Traced() && Supervised() && old(log) <= log && active == old(active)
      ensures r.Ok? ==> !r.value.PolledPending? && !poisoned && Fenced(sessions, session)
      ensures r.Ok? && r.value.PolledAccepted? ==>
                && Acceptable(old(sessions)[session].state, session, runtime, frame, at)
                && HasCustody(session) && IsCustodyOf(sessions[session].state.candidate.custody, runtime, frame)
                && AcceptedAt(old(sessions)[session].state, sessions[session].state, session, at)
                && (r.value.deferred <==> sessions[session].state.candidate.InCustody?)
      ensures r.Ok? && r.value.PolledFailed? ==>
                var refusal := Refusal(old(sessions)[session].state, session, runtime, frame, at);
                refusal.Some? && Some(sessions[session].state.authority.tombstone.reason) == RefusalReason(refusal.value)
      ensures WasCancelled(old(sessions), session) ==> poisoned && r == Err(WorkerRecoveryRequired)
      ensures Rooted(config, old(log)) ==> Rooted(config, log)
      ensures r.Err? ==> PollError(r.error)
    {
      hide Traced, Acceptable, Refusal, Rooted, StandsFor, OnlyLoose, RefusalReason, Supervised;
      var accepted := HearExit(session, runtime, frame, at);
      if accepted.Ok? {
        r := FinishAccepted(session);
        return;
      }
      r := EndUnheard(session, accepted.error);
    }

    method FinishAccepted(session: SessionId) returns (r: Result<Polled>)
      requires Traced() && OnlyLoose(session) && !poisoned && Fenced(sessions, session) && processes[session].Reaped?
      requires sessions[session].state.candidate.InCustody? && sessions[session].state.authority.cleanup == CleanupPending
      modifies `judgments, `outbox, `sessions, `submissions, `presented, `processes, `released, `log
      ensures Traced() && Supervised() && old(log) <= log && active == old(active)
      ensures Fenced(sessions, session)
      ensures r.Ok? ==>
                && r.value.PolledAccepted? && HasCustody(session)
                && sessions[session].state.candidate.custody == old(sessions)[session].state.candidate.custody
                && sessions[session].state.authority.tombstone == old(sessions)[session].state.authority.tombstone
                && CleanedWith(sessions[session].state, OfAcceptedCleanup(session, old(sessions)[session].state.authority))
                && (r.value.deferred <==> sessions[session].state.candidate.InCustody?)
      ensures Rooted(config, old(log)) ==> Rooted(config, log)
      ensures r.Err? ==> PollError(r.error)
    {
      hide Traced, Rooted, OutcomeIsTold, StandsFor;
      if * {
        return Err(SessionStoreFailure);
      }
      var authority := sessions[session].state.authority;
      var cleaned := StopAndClean(session, OfAcceptedCleanup(session, authority));
      StillRooted();
      if cleaned.Err? {
        return Err(cleaned.error);
      }
      r := CarryAccepted(session);
    }

    /** A deferred forward leaves the candidate waiting, and is no error. */
    method CarryAccepted(session: SessionId) returns (r: Result<Polled>)
      requires Traced() && session in sessions && sessions[session].state.candidate.InCustody? && !poisoned && active == map[]
      modifies `judgments, `outbox, `sessions, `submissions, `presented, `log
      ensures Traced() && old(log) <= log && OnlyTouches(old(sessions), sessions, session)
      ensures Rooted(config, old(log)) ==> Rooted(config, log)
      ensures r.Ok? ==> r.value.PolledAccepted? && (r.value.deferred <==> sessions[session].state.candidate.InCustody?)
      ensures r.Err? ==> PollError(r.error)
    {
      hide Traced, Rooted, OutcomeIsTold;
      var outcome := ForwardCustodied(session);
      if outcome.Ok? {
        return Ok(PolledAccepted(false));
      }
      return if IsDeferred(outcome.error) then Ok(PolledAccepted(true)) else Err(outcome.error);
    }

    /** Why a poll retires its worker, if it does. */
    function FailureReason(record: SessionRecord, session: SessionId, runtime: Runtime, poll: Poll,
                           at: nat): Option<Reason> {
      match poll
      case StillRunning => None
      case Faulted(error, _) => Some(ProcessFailureReason(error))
      case Exited(code, frame) =>
        if code != 0 then Some(WorkerFailed(AbnormalExit(code)))
        else
          var refusal := Refusal(record, session, runtime, frame, at);
          if refusal.None? then None else RefusalReason(refusal.value)
    }

    /** The retained launch facts are the session's own, and it still awaits a candidate before its deadline. */
    predicate Listening(record: SessionRecord, runtime: Runtime, at: nat) {
      && at < record.spec.worker.expiresAt
      && runtime.sessionBinding == OfSpec(record.spec) && runtime.workerPrincipal == OfPrincipal(record.spec.worker)
      && runtime.workerKey == record.spec.worker.keyIdentity
      && record.authority.Active? && record.candidate.Awaiting?
    }

    /** The profile the session was launched under is still reviewed, with the session's budget. */
    ghost predicate BoundTo(record: SessionRecord, profile: Profile) {
      IsReviewed(config, record.spec.profileId, profile) && profile.outputBudget == record.spec.outputBudget
    }

    /** The session's own worker speaks, under a profile that still binds it. */
    ghost predicate Recognised(record: SessionRecord, session: SessionId, runtime: Runtime, frame: Frame, at: nat, profile: Profile) {
      && Listening(record, runtime, at) && BoundTo(record, profile)
      && frame.Signed? && frame.named == session && frame.nonce == record.spec.worker.nonce
    }

    /** When a clean exit is fenced for a reason.  A late worker is told only that; a session no longer listening blames
        neither form nor signature; the profile is looked at before the nonce, the type after it, and size last, so a
        worker fenced for its budget had sent a frame that was right but for its length, and is told that length. */
    ghost predicate IsFault(record: SessionRecord, session: SessionId, runtime: Runtime, frame: Frame, at: nat, reason: Reason) {
      match reason
      case CandidateRefused(Expired) => at >= record.spec.worker.expiresAt
      case CandidateRefused(MalformedFrame) => frame.Garbled? && Listening(record, runtime, at)
      case CandidateRefused(AuthenticationFailed) => frame.Unauthentic? && Listening(record, runtime, at)
      case CandidateRefused(PrincipalBindingMismatch) =>
        && at < record.spec.worker.expiresAt
        && (|| !Listening(record, runtime, at)
            || (frame.Signed? && frame.named != session)
            || (frame.Signed? && frame.nonce != record.spec.worker.nonce && exists profile :: BoundTo(record, profile)))
      case CandidateRefused(ReviewedProfileMismatch) =>
        && Listening(record, runtime, at) && frame.Signed? && frame.named == session
        && (|| (forall profile :: !BoundTo(record, profile))
            || exists profile :: Recognised(record, session, runtime, frame, at, profile) && frame.semanticType != profile.semanticType)
      case OutputBudgetExceeded(observed) =>
        && frame.Signed? && observed == |frame.content| > record.spec.outputBudget
        && exists profile :: Recognised(record, session, runtime, frame, at, profile) && frame.semanticType == profile.semanticType
      case _ => false
    }

    /** Why a poll retires its worker. */
    ghost predicate IsWhy(record: SessionRecord, session: SessionId, runtime: Runtime, poll: Poll, at: nat, reason: Reason) {
      match poll
      case StillRunning => false
      case Faulted(TimedOut, _) => reason == DeadlineExpired
      case Faulted(CandidateLimitExceeded(observed), _) => reason == OutputBudgetExceeded(observed)
      case Faulted(Boundary, _) => reason == BoundaryIndeterminate
      case Faulted(UnknownProfile, _) => reason == WorkerFailed(ProcessFault(""))
      case Faulted(OtherFailure(what), _) => reason == WorkerFailed(ProcessFault(what))
      case Exited(code, frame) =>
        if code != 0 then reason == WorkerFailed(AbnormalExit(code)) else IsFault(record, session, runtime, frame, at, reason)
    }

    /** What the fence says is true of the exit, and all of it: a reason is given exactly when it is the case, and none
        exactly when the frame is taken. */
    lemma ReasonsTellTheFault(record: SessionRecord, session: SessionId, runtime: Runtime, poll: Poll, at: nat, reason: Reason)
      ensures FailureReason(record, session, runtime, poll, at) == Some(reason) <==> IsWhy(record, session, runtime, poll, at, reason)
      ensures poll.Exited? && poll.code == 0 ==>
                (FailureReason(record, session, runtime, poll, at).None? <==> Acceptable(record, session, runtime, poll.frame, at))
    {
      FoundIsReviewed(config, record.spec.profileId);
      hide ReviewedProfile, IsReviewed;
      var profile := ReviewedProfile(config, record.spec.profileId);
      if profile.Some? && poll.Exited? {
        assert BoundTo(record, profile.value) <==> profile.value.outputBudget == record.spec.outputBudget;
        assert Recognised(record, session, runtime, poll.frame, at, profile.value) ==> BoundTo(record, profile.value);
      }
    }

    /** An acceptable frame in terms of what it is: the session's own worker, recognised, of the reviewed type and size. */
    lemma AcceptableMeans(record: SessionRecord, session: SessionId, runtime: Runtime, frame: Frame, at: nat)
      ensures Acceptable(record, session, runtime, frame, at) <==>
              exists profile ::
                && Recognised(record, session, runtime, frame, at, profile) && frame.semanticType == profile.semanticType
                && |frame.content| <= record.spec.outputBudget
    {
      FoundIsReviewed(config, record.spec.profileId);
      hide ReviewedProfile, IsReviewed;
      var profile := ReviewedProfile(config, record.spec.profileId);
      if profile.Some? {
        assert ReviewedProfile(config, record.spec.profileId) == Some(profile.value);
      }
    }

    method PollWorker(session: SessionId, poll: Poll, at: nat) returns (r: Result<Polled>)
      requires Traced() && Supervised() && session in active
      modifies this
      ensures Traced() && Supervised() && old(log) <= log
      ensures r == Ok(PolledPending) ==> active == old(active) && log == old(log)
      ensures r != Ok(PolledPending) ==> active == map[]
      ensures r.Ok? && r.value != PolledPending ==> !poisoned && Fenced(sessions, session)
      ensures r.Ok? && r.value.PolledAccepted? ==>
                && poll.Exited? && poll.code == 0
                && Acceptable(old(sessions)[session].state, session, old(active)[session], poll.frame, at)
                && HasCustody(session) && IsCustodyOf(sessions[session].state.candidate.custody, old(active)[session], poll.frame)
                && AcceptedAt(old(sessions)[session].state, sessions[session].state, session, at)
                && (r.value.deferred <==> sessions[session].state.candidate.InCustody?)
      ensures r.Ok? && r.value.PolledFailed? ==>
                IsWhy(old(sessions)[session].state, session, old(active)[session], poll, at,
                      sessions[session].state.authority.tombstone.reason)
      ensures r.Ok? && r.value != PolledPending ==> (r.value.PolledAccepted? <==> WasAccepted(sessions, session))
      ensures WasCancelled(old(sessions), session) && !poll.StillRunning? ==> poisoned && r == Err(WorkerRecoveryRequired)
      ensures Rooted(config, old(log)) ==> Rooted(config, log)
      ensures r.Err? ==> PollError(r.error)
    {
      hide Traced, Acceptable, Refusal, Rooted, IsWhy, IsCustodyOf, AcceptedAt, PollError;
      if poll.StillRunning? {
        return Ok(PolledPending);
      }
      var runtime := TakeRuntime(session);
      if poll.Faulted? {
        r := PollFault(session, ProcessFailureReason(poll.error), poll.reaped);
        StillRooted();
      } else if poll.code != 0 {
        r := PollFault(session, WorkerFailed(AbnormalExit(poll.code)), true);
        StillRooted();
      } else {
        r := PollExit(session, runtime, poll.frame, at);
      }
      if r.Ok? && r.value.PolledFailed? {
        ReasonsTellTheFault(old(sessions)[session].state, session, runtime, poll, at, sessions[session].state.authority.tombstone.reason);
        WhyIsNoAcceptance(old(sessions)[session].state, session, runtime, poll, at, sessions[session].state.authority.tombstone.reason);
      } else if r.Ok? {
        AcceptanceShows(old(sessions)[session].state, sessions[session].state, session, at);
      }
    }

    lemma WhyIsNoAcceptance(record: SessionRecord, session: SessionId, runtime: Runtime, poll: Poll, at: nat, reason: Reason)
      requires IsWhy(record, session, runtime, poll, at, reason)
      ensures reason != CandidateAccepted
    {
    }

    /** The fence is durable before the signal, and a fence that could not be confirmed leaves the worker alone.  A
        session already fenced, even one still retained, gets past the fence only with the very tombstone it has. */
    method CancelWorker(session: SessionId, reason: Digest, at: nat) returns (r: Result<()>)
      requires Traced() && Supervised()
      modifies `sessions, `processes, `released, `active, `log
      ensures Traced() && Supervised() && old(log) <= log
      ensures r.Ok? ==>
                && session in old(sessions) && Fenced(sessions, session)
                && sessions[session].state.authority.tombstone
                   == Tombstone(OfPrincipal(old(sessions)[session].state.spec.worker), session,
                                old(sessions)[session].state.spec.worker.nonce, Cancelled(reason), at)
                && RetiredFor(sessions[session].state, session, Cancellation, Cancelled(reason))
                && session in old(active) && session !in active
      ensures r == Err(WorkerRuntimeMissing) ==> Fenced(sessions, session) && active == old(active)
      ensures Fenced(old(sessions), session)
              && old(sessions)[session].state.authority.tombstone
                 != TombstoneFor(old(sessions)[session].state, session, Cancelled(reason), at) ==>
                r.Err? && unchanged(this)
      ensures Fenced(old(sessions), session) && session !in old(active) ==> r.Err? && unchanged(this)
    {
      hide Traced;
      if * {
        return Err(Clock);
      }
      var fenced := TombstoneSession(session, Cancelled(reason), at);
      if !fenced {
        return Err(SessionStoreFailure);
      }
      if session !in active {
        return Err(WorkerRuntimeMissing);
      }
      r := StopCancelled(session, OfCleanup(Cancellation, session, Cancelled(reason), at));
    }

    method StopCancelled(session: SessionId, receipt: Digest) returns (r: Result<()>)
      requires Traced() && Supervised() && session in active && Fenced(sessions, session)
      modifies `sessions, `processes, `released, `active, `log
      ensures Traced() && Supervised() && old(log) <= log && active == map[]
      ensures OnlyTouches(old(sessions), sessions, session)
      ensures r.Ok? ==> CleanedWith(sessions[session].state, receipt)
      ensures r != Err(WorkerRuntimeMissing)
    {
      hide Traced;
      var runtime := TakeRuntime(session);
      r := StopAndClean(session, receipt);
      DropProcess(session);
      LooseEndTied(session);
    }

    // ---------------------------------------------------------- recovering forwards

    /** One stored forward: completed ones are left alone, pending ones are rechecked and carried, unless an unreleased
        backup cut holds them back.  The recheck of what this core stored never fails; a forward that cannot be carried
        is an error every time it is reached. */
    method ResumeForward(key: Digest, cut: bool) returns (r: Result<Resumption>)
      requires Traced() && key in outbox
      modifies `outbox, `submissions, `presented, `log
      ensures Traced() && old(log) <= log && outbox.Keys == old(outbox).Keys
      ensures forall k :: k in outbox && k != key ==> outbox[k] == old(outbox)[k]
      ensures r.Ok? ==> (r.value.NothingToDo? <==> !IsPending(old(outbox)[key]))
      ensures r.Ok? ==> if r.value.Resolved? then !IsPending(outbox[key]) else outbox == old(outbox)
      ensures r.Err? ==> r.error == StoreFailure
      ensures IsPending(old(outbox)[key]) ==>
                if cut then r == Ok(PutOff) && unchanged(this)
                else if Carriable(config, blobs, old(outbox)[key].state.ingress) then
                  old(log) + [Broker(Called(old(outbox)[key].state.ingress))] <= log
                else r == Err(StoreFailure) && unchanged(this)
    {
      hide Traced;
      var loaded := outbox[key];
      StoredForwardIsCurrent(key);
      if !RecordBinds(config, key, loaded.state) {
        assert false;
        return Err(OutboxBindingMismatch);
      }
      if loaded.state.state.Completed? {
        return Ok(NothingToDo);
      }
      if cut {
        return Ok(PutOff);
      }
      var intent := IngressIntent(loaded.state.ingress).value;
      if VerifyAdmission(judgments, intent.judgment, SubjectOf(intent)) != Ok(loaded.state.admission) {
        assert false;
        return Err(OutboxBindingMismatch);
      }
      var response := CarryForward(key, intent, loaded.state.ingress, loaded.revision);
      if response.Ok? {
        return Ok(Resolved);
      }
      return if IsDeferred(response.error) then Ok(PutOff) else Err(response.error);
    }

    lemma StoredForwardIsCurrent(key: Digest)
      requires Traced() && key in outbox
      ensures RecordBinds(config, key, outbox[key].state) && AdmissionCurrent(judgments, outbox[key].state)
    {
      TracedIsSound();
      assert ForwardSound(config, judgments, submissions, key, outbox[key].state);
    }

    method CountForward(key: Digest, cut: Digest -> bool, report: ForwardReport, ghost before: Outbox,
                        ghost visited: set<Digest>)
      returns (r: Result<ForwardReport>)
      requires Traced() && ForwardTally(before, outbox, visited, report) && key in before && key !in visited
      requires AllCarriable(config, blobs, before, visited, cut)
      modifies `outbox, `submissions, `presented, `log
      ensures Traced() && old(log) <= log && outbox.Keys == old(outbox).Keys
      ensures r.Ok? ==>
                && ForwardTally(before, outbox, visited + {key}, r.value)
                && AllCarriable(config, blobs, before, visited + {key}, cut)
      ensures r.Err? ==> r.error == StoreFailure
    {
      hide Traced, Carriable;
      ghost var middle := outbox;
      assert middle[key] == before[key];
      var resumed := ResumeForward(key, cut(key));
      if resumed.Err? {
        return Err(resumed.error);
      }
      ForwardCounted(before, middle, outbox, visited, key, report, resumed.value);
      r := Ok(Noted(report, resumed.value));
    }

    method CountForwardPage(page: seq<Digest>, cut: Digest -> bool, report: ForwardReport, ghost before: Outbox,
                            ghost visited: set<Digest>)
      returns (r: Result<ForwardReport>)
      requires Traced() && ForwardTally(before, outbox, visited, report)
      requires AllCarriable(config, blobs, before, visited, cut)
      requires TotalOrder(forwardOrder) && Increasing(forwardOrder, page)
      requires forall k :: k in page ==> k in before && k !in visited
      modifies `outbox, `submissions, `presented, `log
      ensures Traced() && old(log) <= log && outbox.Keys == old(outbox).Keys
      ensures r.Ok? ==>
                && ForwardTally(before, outbox, visited + Elements(page), r.value)
                && AllCarriable(config, blobs, before, visited + Elements(page), cut)
      ensures r.Err? ==> r.error == StoreFailure
    {
      hide Traced, ForwardTally, AllCarriable;
      r := Ok(report);
      var i := 0;
      assert visited + Elements(page[..0]) == visited;
      while i < |page|
        invariant i <= |page| && r.Ok? && Traced() && old(log) <= log && outbox.Keys == old(outbox).Keys
        invariant ForwardTally(before, outbox, visited + Elements(page[..i]), r.value)
        invariant AllCarriable(config, blobs, before, visited + Elements(page[..i]), cut)
      {
        assert page[i] !in page[..i];
        r := CountForward(page[i], cut, r.value, before, visited + Elements(page[..i]));
        if r.Err? {
          return;
        }
        ElementsAppend(page[..i], [page[i]]);
        assert page[..i + 1] == page[..i] + [page[i]];
        assert visited + Elements(page[..i + 1]) == visited + Elements(page[..i]) + {page[i]};
        i := i + 1;
      }
      assert page[..|page|] == page;
    }

    /** A whole pass.  On success each forward that was pending is counted once: resolved ones are completed now,
        deferred ones are untouched; every other row is as it was.  A pending forward that cannot be carried, and is not
        held back by a cut, fails the pass. */
    method RecoverForwardOutbox(cut: Digest -> bool) returns (r: Result<ForwardReport>)
      requires Traced() && TotalOrder(forwardOrder)
      modifies `outbox, `submissions, `presented, `log
      ensures Traced() && old(log) <= log && outbox.Keys == old(outbox).Keys
      ensures r.Ok? ==>
                && ForwardTally(old(outbox), outbox, old(outbox).Keys, r.value)
                && AllCarriable(config, blobs, old(outbox), old(outbox).Keys, cut)
      ensures r.Err? ==>
                || r.error == StoreFailure
                || (r.error == WorkerRecoveryRequired && poisoned) || (r.error == WorkerSupervisorBusy && active != map[])
    {
      hide Traced, ForwardTally;
      if poisoned {
        return Err(WorkerRecoveryRequired);
      }
      if active != map[] {
        return Err(WorkerSupervisorBusy);
      }
      ghost var before, keys := outbox, outbox.Keys;
      r := Ok(ForwardReport(0, 0));
      var cursor: Option<Digest> := None;
      ghost var visited: seq<Digest> := [];
      ForwardsBegin(outbox);
      while true
        invariant r.Ok? && Traced() && old(log) <= log && outbox.Keys == keys == before.Keys
        invariant Covered(forwardOrder, keys, cursor, visited)
        invariant ForwardTally(before, outbox, Elements(visited), r.value)
        invariant AllCarriable(config, blobs, before, Elements(visited), cut)
        decreases |keys| - |visited|
      {
        if * {
          return Err(StoreFailure);
        }
        var page := EntityIdsAfter(forwardOrder, outbox.Keys, cursor, PAGE_SIZE);
        if page == [] {
          EmptyPageEndsWalk(forwardOrder, keys, cursor, PAGE_SIZE, visited);
          return;
        }
        PageExtendsCover(forwardOrder, keys, cursor, PAGE_SIZE, visited, page);
        CoverIsBounded(forwardOrder, keys, Some(page[|page| - 1]), visited + page);
        r := CountForwardPage(page, cut, r.value, before, Elements(visited));
        if r.Err? {
          return;
        }
        ElementsAppend(visited, page);
        cursor := Some(page[|page| - 1]);
        visited := visited + page;
      }
    }

    // ---------------------------------------------------------- recovering sessions

    /** A core just built over an existing store: nothing retained, no live child. */
    ghost predicate Restarted()
      reads `active, `poisoned, `processes
    {
      active == map[] && !poisoned && forall s :: s in processes ==> processes[s].Reaped?
    }

    method RetireSession(session: SessionId, at: nat, report: RetirementReport, ghost before: SessionTable,
                         ghost visited: set<SessionId>)
      returns (r: Result<RetirementReport>)
      requires Traced() && RetirementTally(before, sessions, visited, report) && session in before && session !in visited
      modifies `sessions, `log
      ensures Traced() && old(log) <= log && sessions.Keys == old(sessions).Keys
      ensures r.Ok? ==> RetirementTally(before, sessions, visited + {session}, r.value)
      ensures r.Err? ==> r.error == SessionStoreFailure
    {
      hide Traced;
      ghost var middle := sessions;
      if * {
        return Err(SessionStoreFailure);
      }
      var live := IsLive(sessions[session]);
      if live {
        var fenced := TombstoneSession(session, RestartRecovery, at);
        if !fenced || report.tombstoned >= U64_MAX {
          return Err(SessionStoreFailure);
        }
      } else if report.alreadyTerminal >= U64_MAX {
        return Err(SessionStoreFailure);
      }
      RetirementCounted(before, middle, sessions, visited, session, report);
      return Ok(if live then report.(tombstoned := report.tombstoned + 1)
                else report.(alreadyTerminal := report.alreadyTerminal + 1));
    }

    method RetirePage(page: seq<SessionId>, at: nat, report: RetirementReport, ghost before: SessionTable,
                      ghost visited: set<SessionId>)
      returns (r: Result<RetirementReport>)
      requires Traced() && RetirementTally(before, sessions, visited, report)
      requires TotalOrder(sessionOrder) && Increasing(sessionOrder, page)
      requires forall s :: s in page ==> s in before && s !in visited
      modifies `sessions, `log
      ensures Traced() && old(log) <= log && sessions.Keys == old(sessions).Keys
      ensures r.Ok? ==> RetirementTally(before, sessions, visited + Elements(page), r.value)
      ensures r.Err? ==> r.error == SessionStoreFailure
    {
      hide Traced, RetirementTally;
      r := Ok(report);
      var i := 0;
      assert visited + Elements(page[..0]) == visited;
      while i < |page|
        invariant i <= |page| && r.Ok? && Traced() && old(log) <= log && sessions.Keys == old(sessions).Keys
        invariant RetirementTally(before, sessions, visited + Elements(page[..i]), r.value)
      {
        assert page[i] !in page[..i];
        r := RetireSession(page[i], at, r.value, before, visited + Elements(page[..i]));
        if r.Err? {
          return;
        }
        ElementsAppend(page[..i], [page[i]]);
        assert page[..i + 1] == page[..i] + [page[i]];
        assert visited + Elements(page[..i + 1]) == visited + Elements(page[..i]) + {page[i]};
        i := i + 1;
      }
      assert page[..|page|] == page;
    }

    /** The first thing a restarted core does: fence every session that was not, so that none is left to be live.
        Only then is the core supervised. */
    method RecoverWorkerSessions(at: nat) returns (r: Result<RetirementReport>)
      requires Traced() && Restarted() && TotalOrder(sessionOrder)
      modifies `sessions, `log
      ensures Traced() && old(log) <= log && sessions.Keys == old(sessions).Keys
      ensures r.Ok? ==>
                && Supervised() && (forall s :: s in sessions ==> Fenced(sessions, s))
                && RetirementTally(old(sessions), sessions, old(sessions).Keys, r.value)
                && r.value.tombstoned == |LeftOpen(IsLive, old(sessions), old(sessions).Keys)|
                && r.value.tombstoned + r.value.alreadyTerminal == |sessions.Keys|
      ensures r.Err? ==> r.error in {Clock, SessionStoreFailure}
    {
      hide Traced, RetirementTally, Restarted, Supervised;
      if * {
        return Err(Clock);
      }
      ghost var before, keys := sessions, sessions.Keys;
      r := Ok(RetirementReport(0, 0));
      var cursor: Option<SessionId> := None;
      ghost var visited: seq<SessionId> := [];
      RetirementBegins(sessions);
      while true
        invariant r.Ok? && Traced() && old(log) <= log && sessions.Keys == keys == before.Keys
        invariant Covered(sessionOrder, keys, cursor, visited)
        invariant RetirementTally(before, sessions, Elements(visited), r.value)
        decreases |keys| - |visited|
      {
        if * {
          return Err(SessionStoreFailure);
        }
        var page := EntityIdsAfter(sessionOrder, sessions.Keys, cursor, PAGE_SIZE);
        if page == [] {
          EmptyPageEndsWalk(sessionOrder, keys, cursor, PAGE_SIZE, visited);
          RetirementEnds(before, sessions, r.value);
          FencedIsSupervised();
          return;
        }
        PageExtendsCover(sessionOrder, keys, cursor, PAGE_SIZE, visited, page);
        CoverIsBounded(sessionOrder, keys, Some(page[|page| - 1]), visited + page);
        r := RetirePage(page, at, r.value, before, Elements(visited));
        if r.Err? {
          return;
        }
        ElementsAppend(visited, page);
        cursor := Some(page[|page| - 1]);
        visited := visited + page;
      }
    }

    lemma FencedIsSupervised()
      requires Restarted() && forall s :: s in sessions ==> Fenced(sessions, s)
      ensures Supervised()
    {
    }

    // ---------------------------------------------------------- recovering candidates

    /** Recovery fails only for operational reasons, or because the core may not recover now. */
    predicate RecoveryError(error: AgdError)
      reads `poisoned, `active
    {
      Operational(error) || (error == WorkerRecoveryRequired && poisoned) || (error == WorkerSupervisorBusy && active != map[])
    }

    /** One session of the pass: only a candidate still in custody without an outcome is carried on. */
    method ResumeCandidate(session: SessionId) returns (r: Result<Conclusion>)
      requires Traced() && session in sessions
      modifies `judgments, `outbox, `sessions, `submissions, `presented, `log
      ensures Traced() && old(log) <= log && OnlyTouches(old(sessions), sessions, session)
      ensures Rooted(config, old(log)) ==> Rooted(config, log)
      ensures r.Ok? ==> (r.value.NotWaiting? <==> !AwaitsOutcome(old(sessions)[session]))
      ensures r.Ok? && !r.value.Concluded? ==> sessions == old(sessions)
      ensures r.Ok? && r.value.Concluded? ==>
                sessions[session].state.candidate.BrokerCompleted? && sessions[session].state.candidate.outcome == r.value.outcome
      ensures r.Err? ==> RecoveryError(r.error)
    {
      hide Traced, Rooted;
      if !AwaitsOutcome(sessions[session]) {
        return Ok(NotWaiting);
      }
      var outcome := ForwardCustodied(session);
      if outcome.Ok? {
        return Ok(Concluded(outcome.value));
      }
      return if IsDeferred(outcome.error) then Ok(StillWaiting) else Err(outcome.error);
    }

    method CountCandidate(session: SessionId, report: CandidateReport, ghost before: SessionTable,
                          ghost visited: set<SessionId>)
      returns (r: Result<CandidateReport>)
      requires Traced() && CandidateTally(before, sessions, visited, report) && session in before && session in sessions && session !in visited
      modifies `judgments, `outbox, `sessions, `submissions, `presented, `log
      ensures Traced() && old(log) <= log && sessions.Keys == old(sessions).Keys
      ensures forall s :: Fenced(old(sessions), s) ==> Fenced(sessions, s)
      ensures Rooted(config, old(log)) ==> Rooted(config, log)
      ensures r.Ok? ==> CandidateTally(before, sessions, visited + {session}, r.value)
      ensures r.Err? ==> RecoveryError(r.error)
    {
      hide Traced, RecoveryError, CandidateTally, Rooted;
      ghost var middle := sessions;
      var resumed := ResumeCandidate(session);
      if resumed.Err? {
        return Err(resumed.error);
      }
      CandidateCounted(before, middle, sessions, visited, session, report, resumed.value);
      return Ok(Counted(report, resumed.value));
    }

    method CountCandidatePage(page: seq<SessionId>, report: CandidateReport, ghost before: SessionTable,
                              ghost visited: set<SessionId>)
      returns (r: Result<CandidateReport>)
      requires Traced() && CandidateTally(before, sessions, visited, report)
      requires TotalOrder(sessionOrder) && Increasing(sessionOrder, page)
      requires forall s :: s in page ==> s in before && s in sessions && s !in visited
      modifies `judgments, `outbox, `sessions, `submissions, `presented, `log
      ensures Traced() && old(log) <= log && sessions.Keys == old(sessions).Keys
      ensures forall s :: Fenced(old(sessions), s) ==> Fenced(sessions, s)
      ensures Rooted(config, old(log)) ==> Rooted(config, log)
      ensures r.Ok? ==> CandidateTally(before, sessions, visited + Elements(page), r.value)
      ensures r.Err? ==> RecoveryError(r.error)
    {
      hide Traced, CandidateTally, RecoveryError, Rooted;
      r := Ok(report);
      var i := 0;
      assert visited + Elements(page[..0]) == visited;
      while i < |page|
        invariant i <= |page| && r.Ok? && Traced() && old(log) <= log && sessions.Keys == old(sessions).Keys
        invariant forall s :: Fenced(old(sessions), s) ==> Fenced(sessions, s)
        invariant Rooted(config, old(log)) ==> Rooted(config, log)
        invariant CandidateTally(before, sessions, visited + Elements(page[..i]), r.value)
      {
        assert page[i] !in page[..i];
        r := CountCandidate(page[i], r.value, before, visited + Elements(page[..i]));
        if r.Err? {
          return;
        }
        ElementsAppend(page[..i], [page[i]]);
        assert page[..i + 1] == page[..i] + [page[i]];
        assert visited + Elements(page[..i + 1]) == visited + Elements(page[..i]) + {page[i]};
        i := i + 1;
      }
      assert page[..|page|] == page;
    }

    /** Every accepted candidate without an outcome is carried on from its durable proof, whatever was interrupted:
        on success it is counted under the outcome it reached, or as deferred, and no other session moved. */
    method RecoverWorkerCandidates() returns (r: Result<CandidateReport>)
      requires Traced() && TotalOrder(sessionOrder)
      modifies `judgments, `outbox, `sessions, `submissions, `presented, `log
      ensures Traced() && old(log) <= log && sessions.Keys == old(sessions).Keys
      ensures forall s :: Fenced(old(sessions), s) ==> Fenced(sessions, s)
      ensures Rooted(config, old(log)) ==> Rooted(config, log)
      ensures r.Ok? ==> CandidateTally(old(sessions), sessions, old(sessions).Keys, r.value) && CountsAnswers(old(sessions), r.value)
      ensures r.Err? ==> RecoveryError(r.error)
    {
      hide Traced, CandidateTally, Rooted, CountsAnswers;
      if poisoned {
        return Err(WorkerRecoveryRequired);
      }
      if active != map[] {
        return Err(WorkerSupervisorBusy);
      }
      ghost var before, keys := sessions, sessions.Keys;
      r := Ok(CandidateReport(0, 0, 0, 0));
      var cursor: Option<SessionId> := None;
      ghost var visited: seq<SessionId> := [];
      CandidatesBegin(sessions);
      while true
        invariant r.Ok? && Traced() && old(log) <= log && sessions.Keys == keys == before.Keys
        invariant Covered(sessionOrder, keys, cursor, visited)
        invariant forall s :: Fenced(old(sessions), s) ==> Fenced(sessions, s)
        invariant Rooted(config, old(log)) ==> Rooted(config, log)
        invariant CandidateTally(before, sessions, Elements(visited), r.value)
        decreases |keys| - |visited|
      {
        if * {
          return Err(StoreFailure);
        }
        var page := EntityIdsAfter(sessionOrder, sessions.Keys, cursor, PAGE_SIZE);
        if page == [] {
          EmptyPageEndsWalk(sessionOrder, keys, cursor, PAGE_SIZE, visited);
          TallyCountsAnswers(before, r.value);
          return;
        }
        PageExtendsCover(sessionOrder, keys, cursor, PAGE_SIZE, visited, page);
        CoverIsBounded(sessionOrder, keys, Some(page[|page| - 1]), visited + page);
        r := CountCandidatePage(page, r.value, before, Elements(visited));
        if r.Err? {
          return;
        }
        ElementsAppend(visited, page);
        cursor := Some(page[|page| - 1]);
        visited := visited + page;
      }
    }

    /** The counters by what the broker answered: of the candidates that awaited an outcome and now have one, those whose
        own forward was answered by a submission, by a refusal, by neither. */
    ghost predicate CountsAnswers(before: SessionTable, report: CandidateReport)
      reads `sessions, `outbox
    {
      && report.canonicalized == Saturated(|SettledAs(before, Submitted)|)
      && report.refused == Saturated(|SettledAs(before, Declined)|)
      && report.indeterminate == Saturated(|SettledAs(before, Undetermined)|)
    }

    ghost function SettledAs(before: SessionTable, answer: Answer): set<SessionId>
      reads `sessions, `outbox
    {
      set s | s in before && s in sessions && before[s].state.candidate.InCustody? && sessions[s].state.candidate.BrokerCompleted?
              && AnsweredAs(config, outbox, sessions[s].state, answer)
    }

    lemma TallyCountsAnswers(before: SessionTable, report: CandidateReport)
      requires Traced() && CandidateTally(before, sessions, before.Keys, report)
      ensures CountsAnswers(before, report)
    {
      forall s | s in sessions && sessions[s].state.candidate.BrokerCompleted?
        ensures WasCanonicalized(sessions[s]) <==> AnsweredAs(config, outbox, sessions[s].state, Submitted)
        ensures WasRefused(sessions[s]) <==> AnsweredAs(config, outbox, sessions[s].state, Declined)
        ensures WasIndeterminate(sessions[s]) <==> AnsweredAs(config, outbox, sessions[s].state, Undetermined)
      {
        OutcomeIsAlwaysTold(s);
        ToldIsAnswered(config, outbox, sessions[s].state, sessions[s].state.candidate.outcome);
      }
      hide Traced, AnsweredAs;
      assert Settled(AwaitsOutcome, WasCanonicalized, before, sessions) == SettledAs(before, Submitted);
      assert Settled(AwaitsOutcome, WasRefused, before, sessions) == SettledAs(before, Declined);
      assert Settled(AwaitsOutcome, WasIndeterminate, before, sessions) == SettledAs(before, Undetermined);
    }

    // ---------------------------------------------------------- the supervisor pass and the control surface

    /** One non-blocking pass over the retained workers; every one of them is counted exactly once. */
    method PollWorkers(polls: SessionId -> Poll, at: nat) returns (r: Result<PollReport>)
      requires Traced() && Supervised()
      modifies this
      ensures Traced() && Supervised() && old(log) <= log
      ensures old(active) == map[] ==> r == Ok(PollReport(0, 0, 0, 0)) && unchanged(this)
      ensures r.Ok? ==>
                && r.value.pending + r.value.accepted + r.value.failed == |old(active)|
                && r.value.pending == |active| && r.value.deferred <= r.value.accepted
                && poisoned == old(poisoned)
      ensures r.Ok? ==> PollCounts(old(active).Keys, active.Keys, sessions, r.value)
      ensures (exists s :: s in old(active) && WasCancelled(old(sessions), s) && !polls(s).StillRunning?) ==>
                poisoned && r == Err(WorkerRecoveryRequired)
      ensures Rooted(config, old(log)) ==> Rooted(config, log)
      ensures r.Err? ==> PollError(r.error)
    {
      hide Traced, Rooted, Acceptable, IsWhy, IsCustodyOf, AcceptedAt, PollError;
      var report := PollReport(0, 0, 0, 0);
      var queue := active.Keys;
      while queue != {}
        invariant Traced() && Supervised() && old(log) <= log
        invariant queue == {} || (active.Keys == queue && unchanged(this) && report == PollReport(0, 0, 0, 0))
        invariant old(active) == map[] ==> unchanged(this) && report == PollReport(0, 0, 0, 0)
        invariant queue == {} ==>
                    && (forall s :: s in old(active) && WasCancelled(old(sessions), s) ==> polls(s).StillRunning?)
                    && (Rooted(config, old(log)) ==> Rooted(config, log))
                    && report.pending + report.accepted + report.failed == |old(active)|
                    && report.pending == |active| && report.deferred <= report.accepted && poisoned == old(poisoned)
                    && PollCounts(old(active).Keys, active.Keys, sessions, report)
        decreases |queue|
      {
        var session :| session in queue;
        OnlyActive(session);
        queue := queue - {session};
        var polled := PollWorker(session, polls(session), at);
        if polled.Err? {
          return Err(polled.error);
        }
        report := match polled.value
          case PolledPending => report.(pending := AddOne(report.pending))
          case PolledFailed => report.(failed := AddOne(report.failed))
          case PolledAccepted(deferred) =>
            report.(accepted := AddOne(report.accepted), deferred := if deferred then AddOne(report.deferred) else report.deferred);
        PollCounted(session, active.Keys, sessions, report);
      }
      return Ok(report);
    }

    /** An external proposal speaks only for the authenticated proposer's own chain. */
    method ForwardIntent(intent: Intent, peer: Chain, ingress: Ingress) returns (r: Result<Response>)
      requires Traced() && IngressIntent(ingress) == Some(intent)
      modifies `outbox, `submissions, `presented, `log
      ensures Traced() && old(log) <= log && OutboxKept(old(outbox), outbox)
      ensures r.Ok? ==>
                && intent.proposer == peer && ValidShape(intent)
                && var key := ForwardSource(config, ingress).value;
                   key in outbox && outbox[key].state.state == Completed(r.value)
      ensures var key := ForwardSource(config, ingress).value;
              key in old(outbox) && old(outbox)[key].state.state.Completed? ==>
                unchanged(this) && (r.Ok? ==> r.value == old(outbox)[key].state.state.response)
      ensures poisoned || active != map[] ==> r.Err? && unchanged(this)
      ensures ingress.ExternalSigned? && Rooted(config, old(log)) ==> Rooted(config, log)
    {
      TablesKeepThemselves(outbox, submissions);
      hide Traced, Rooted, OutboxKept, SubmissionsKept, ForwardRefused, FitToPropose, IsAdmitted, IsDeferred, ForwardSource, ValidShape;
      if * {
        return Err(Quiesced);
      }
      if !ValidShape(intent) {
        return Err(MalformedIntent);
      }
      if !(intent.domain == config.domain && intent.epoch == config.epoch && intent.proposer == peer) {
        return Err(ProposerBindingMismatch);
      }
      r := ForwardGovernedIntent(intent, ingress);
      if ingress.ExternalSigned? {
        ExternalKeepsRooted(ingress);
      }
    }

    /** An external forward is no session's. */
    twostate lemma ExternalKeepsRooted(ingress: Ingress)
      requires old(Traced()) && Traced() && old(log) <= log
      requires ingress.ExternalSigned? && IngressIntent(ingress).Some?
      requires outbox.Keys <= old(outbox).Keys + {ForwardSource(config, ingress).value}
      ensures Rooted(config, old(log)) ==> Rooted(config, log)
    {
      hide Traced, Rooted;
      forall key | key in outbox ensures key in old(outbox) || StandsFor(config, old(sessions), key) {
        assert key in outbox.Keys;
      }
      StillRooted();
    }

    /** One authenticated request.  A poisoned core only answers questions; a busy one neither launches nor forwards. */
    method HandleControl(request: Request, challenge: nat, peer: Chain, draw: Draw, at: nat) returns (r: Result<Reply>)
      requires Traced() && Supervised()
      modifies this
      ensures Traced() && Supervised() && old(log) <= log
      ensures old(poisoned) ==>
                unchanged(this) && (!request.Health? && !request.InspectWorker? ==> r == Err(WorkerRecoveryRequired))
      ensures !old(poisoned) && old(active) != map[] && (request.SubmitProposal? || request.LaunchWorker?) ==>
                unchanged(this) && r == Err(WorkerSupervisorBusy)
      ensures request.Health? || request.InspectWorker? ==> unchanged(this)
      ensures r.Ok? && request.SubmitProposal? ==>
                && r.value.ProposalAnswered?
                && var key := ForwardSource(config, ExternalSigned(challenge, request)).value;
                   key in outbox && outbox[key].state.state == Completed(r.value.response)
      ensures r.Ok? && request.LaunchWorker? ==>
                && r.value.WorkerLaunched? && active.Keys == {r.value.session}
                && sessions[r.value.session].state.spec.profileId == request.profileId
      ensures r.Ok? && request.CancelWorker? ==>
                && Fenced(sessions, request.session) && request.session !in active
                && sessions[request.session].state.authority.tombstone.reason == Cancelled(request.reason)
      ensures request.CancelWorker? && Fenced(old(sessions), request.session)
              && old(sessions)[request.session].state.authority.tombstone
                 != TombstoneFor(old(sessions)[request.session].state, request.session, Cancelled(request.reason), at) ==>
                r.Err? && unchanged(this)
      ensures r.Ok? && request.InspectWorker? ==>
                request.session in sessions && r.value == WorkerStatus(sessions[request.session].state)
      ensures Rooted(config, old(log)) ==> Rooted(config, log)
    {
      hide Traced, Rooted, ForwardSource, OutboxKept, StandsFor;
      if poisoned && !request.Health? && !request.InspectWorker? {
        return Err(WorkerRecoveryRequired);
      }
      if active != map[] && (request.SubmitProposal? || request.LaunchWorker?) {
        return Err(WorkerSupervisorBusy);
      }
      match request {
        case Health => return Ok(HealthReported);
        case SubmitProposal(intent) =>
          var response := ForwardIntent(intent, peer, ExternalSigned(challenge, request));
          return if response.Ok? then Ok(ProposalAnswered(response.value)) else Err(response.error);
        case LaunchWorker(profileId) =>
          var launched := LaunchWorker(profileId, draw);
          StillRooted();
          return if launched.Ok? then Ok(WorkerLaunched(launched.value)) else Err(launched.error);
        case InspectWorker(session) =>
          return if session in sessions then Ok(WorkerStatus(sessions[session].state)) else Err(SessionStoreFailure);
        case CancelWorker(session, reason) =>
          var cancelled := CancelWorker(session, reason, at);
          StillRooted();
          return if cancelled.Ok? then Ok(WorkerCancelled(session)) else Err(cancelled.error);
      }
    }

    // ---------------------------------------------------------- starting over

    /** Opens the store a run left behind, wherever that run stopped. */
    constructor Reopen(config: Config, forwardOrder: (Digest, Digest) -> bool, sessionOrder: (SessionId,
                       SessionId) -> bool,
                       world: World, history: seq<Event>)
      requires Legal(config, history) && Replay(config, history) == world
      ensures this.config == config && this.forwardOrder == forwardOrder && this.sessionOrder == sessionOrder
      ensures Traced() && Restarted() && log == history + [GovernorCrashed]
      ensures Rooted(config, history) ==> Rooted(config, log)
      ensures judgments == world.judgments && outbox == world.outbox && sessions == world.sessions
      ensures proofs == world.proofs && blobs == world.blobs && submissions == world.submissions
    {
      this.config := config;
      this.forwardOrder, this.sessionOrder := forwardOrder, sessionOrder;
      judgments, outbox, sessions := world.judgments, world.outbox, world.sessions;
      proofs, blobs := world.proofs, world.blobs;
      submissions, presented := world.submissions, world.presented;
      processes, released := map[], world.released;
      poisoned, active := false, map[];
      log := history + [GovernorCrashed];
      new;
      LegalExtends(config, history, GovernorCrashed);
      if Rooted(config, history) {
        assert log[..|history|] == history && log[..|log|] == log;
        RootsExtend(config, log, |history|);
      }
    }
  }
}
