/** Reachable stores in which two things one might expect of the governor fail. */
module Scenarios {
  import opened Records
  import opened Kernel
  import opened Sessions
  import opened Governance
  import opened Artifacts
  import opened Governor

  // ------------------------------------------------------------ a forward that cannot be resumed

  const MISSING: Digest := OfBytes([0])

  /** A proposal to put a file whose content was never brought into custody. */
  function Unloadable(config: Config, proposer: Chain): Intent {
    var unjudged := Intent(Text("put"), config.domain, config.epoch, proposer, EmptyBook,
                           {MISSING}, [ManagedFilePut("target", MISSING)]);
    unjudged.(judgment := OfJudgment(AdmittingJudgment(config, unjudged)))
  }

  function AdmittingJudgment(config: Config, intent: Intent): JudgmentRecord {
    WorkerJudgment(Origin(config.domain, config.epoch, 0), SubjectOf(intent))
  }

  function StoredForward(config: Config, proposer: Chain): OutboxRecord {
    var ingress := ExternalSigned(0, SubmitProposal(Unloadable(config, proposer)));
    var judgment := AdmittingJudgment(config, Unloadable(config, proposer));
    OutboxRecord(ForwardSource(config, ingress).value, OfIntent(Unloadable(config, proposer)),
                 Admission(OfJudgment(judgment), if judgment.judgment.Admit? then judgment.judgment.commit.commitDigest else EmptyBook),
                 ingress, Pending)
  }

  /** The judgment is committed and the forward opened; the artifact is never installed. */
  function StuckLog(config: Config, proposer: Chain): seq<Event> {
    var record := StoredForward(config, proposer);
    [JudgmentCommitted(AdmittingJudgment(config, Unloadable(config, proposer))), Forward(record.source, Opened(record))]
  }

  function JudgedWorld(config: Config, proposer: Chain): World {
    var judgment := AdmittingJudgment(config, Unloadable(config, proposer));
    Empty().(judgments := map[OfJudgment(judgment) := judgment])
  }

  lemma JudgmentComesFirst(config: Config, record: JudgmentRecord)
    requires JudgmentSound(record)
    ensures Legal(config, [JudgmentCommitted(record)])
    ensures Replay(config, [JudgmentCommitted(record)]) == Empty().(judgments := map[OfJudgment(record) := record])
  {
    hide JudgmentSound;
    LegalExtends(config, [], JudgmentCommitted(record));
    assert [] + [JudgmentCommitted(record)] == [JudgmentCommitted(record)];
  }

  lemma AdmittingIsSound(config: Config, intent: Intent)
    ensures JudgmentSound(AdmittingJudgment(config, intent))
  {
    WorkerJudgmentAdmits(Origin(config.domain, config.epoch, 0), SubjectOf(intent));
    hide JudgmentSound, WorkerJudgment;
  }

  lemma JudgmentIsStored(config: Config, proposer: Chain)
    ensures Legal(config, StuckLog(config, proposer)[..1])
    ensures Replay(config, StuckLog(config, proposer)[..1]) == JudgedWorld(config, proposer)
  {
    var judgment := AdmittingJudgment(config, Unloadable(config, proposer));
    hide JudgmentSound, AdmittingJudgment, StoredForward, Unloadable, Legal, Replay;
    AdmittingIsSound(config, Unloadable(config, proposer));
    JudgmentComesFirst(config, judgment);
    assert StuckLog(config, proposer)[..1] == [JudgmentCommitted(judgment)];
  }

  lemma StoredAdmissionIsCurrent(config: Config, proposer: Chain)
    ensures AdmissionCurrent(JudgedWorld(config, proposer).judgments, StoredForward(config, proposer))
  {
    var origin, subject := Origin(config.domain, config.epoch, 0), SubjectOf(Unloadable(config, proposer));
    WorkerJudgmentAdmits(origin, subject);
    AdmittedVerifies(JudgedWorld(config, proposer).judgments, subject, WorkerBooks(origin, subject), WorkerClaim(origin, subject));
    hide VerifyAdmission, BooksReplay, Evaluate;
  }

  lemma StuckForwardIsPermitted(config: Config, proposer: Chain)
    requires proposer.domain == config.domain && proposer.epoch == config.epoch
    ensures Permitted(config, JudgedWorld(config, proposer), StuckLog(config, proposer)[1])
    ensures AdmissionCurrent(JudgedWorld(config, proposer).judgments, StoredForward(config, proposer))
  {
    StoredAdmissionIsCurrent(config, proposer);
    hide AdmissionCurrent, AdmittingJudgment;
  }

  lemma MissingCannotBeCarried(config: Config, proposer: Chain)
    ensures var record, intent := StoredForward(config, proposer), Unloadable(config, proposer);
            && !Carriable(config, {}, record.ingress) && IngressIntent(record.ingress).value == intent
            && ValidShape(intent) && intent.proposer == proposer && intent.domain == config.domain && intent.epoch == config.epoch
  {
    assert MISSING in Unloadable(config, proposer).artifacts && !Readable({}, MISSING);
  }

  /** For any proposer in the daemon's domain and epoch, a run ends with that proposer's own pending forward: well formed,
      in context and admitted, yet not one that can be carried, whatever the limits. */
  lemma StuckForwardIsReachable(config: Config, proposer: Chain)
    requires proposer.domain == config.domain && proposer.epoch == config.epoch
    ensures Legal(config, StuckLog(config, proposer))
    ensures var w, record := Replay(config, StuckLog(config, proposer)), StoredForward(config, proposer);
            && record.source in w.outbox && w.outbox[record.source].state == record
            && record.state.Pending? && record.ingress.ExternalSigned? && AdmissionCurrent(w.judgments, record)
            && !Carriable(config, w.blobs, record.ingress)
    ensures var intent := Unloadable(config, proposer);
            && IngressIntent(StoredForward(config, proposer).ingress).value == intent && intent.proposer == proposer
            && ValidShape(intent) && intent.domain == proposer.domain == config.domain && intent.epoch == proposer.epoch == config.epoch
  {
    hide Carriable, ValidShape, Unloadable, AdmittingJudgment, Permitted, AdmissionCurrent;
    JudgmentIsStored(config, proposer);
    StuckForwardIsPermitted(config, proposer);
    MissingCannotBeCarried(config, proposer);
    var log := StuckLog(config, proposer);
    assert log == log[..1] + [log[1]];
    LegalExtends(config, log[..1], log[1]);
  }

  // ------------------------------------------------------------ a cancellation that cannot be completed

  function SpecFor(config: Config, session: SessionId): SessionSpec {
    var worker := Principal(config.domain, config.epoch, session, 0, config.governor, Named("key"), Named("workspace"), 1, 1);
    SessionSpec(session, config.domain, config.epoch, "profile", worker, WorkerChain(config, worker).value,
                Named("workspace"), 1)
  }

  /** A worker is launched and let through its gate. */
  function LaunchLog(config: Config, session: SessionId): seq<Event> {
    [Worker(session, Gate), Session(session, Begun(SpecFor(config, session))),
     Session(session, Advanced(1, Activate(Named("launched")))), Worker(session, Release)]
  }

  function Launched(config: Config, session: SessionId): World {
    Empty().(sessions := map[session := Cell(SessionRecord(SpecFor(config, session), Active(Named("launched")), Awaiting), 2)],
             processes := map[session := Running], released := {session})
  }

  lemma SessionBegins(config: Config, session: SessionId)
    ensures Legal(config, LaunchLog(config, session)[..2])
    ensures Replay(config, LaunchLog(config, session)[..2])
         == Empty().(sessions := map[session := Cell(Fresh(SpecFor(config, session)), 1)],
                     processes := map[session := Gated])
  {
    var log := LaunchLog(config, session);
    assert log[..2] == [] + [log[0]] + [log[1]];
    LegalExtends(config, [], log[0]);
    LegalExtends(config, [log[0]], log[1]);
  }

  lemma SessionActivates(config: Config, session: SessionId)
    ensures Legal(config, LaunchLog(config, session)[..3])
    ensures Replay(config, LaunchLog(config, session)[..3])
         == Launched(config, session).(processes := map[session := Gated], released := {})
  {
    var log := LaunchLog(config, session);
    assert log[..3] == log[..2] + [log[2]];
    SessionBegins(config, session);
    LegalExtends(config, log[..2], log[2]);
  }

  lemma LaunchIsLegal(config: Config, session: SessionId)
    ensures Legal(config, LaunchLog(config, session))
    ensures Replay(config, LaunchLog(config, session)) == Launched(config, session)
  {
    var log := LaunchLog(config, session);
    assert log == log[..3] + [log[3]];
    SessionActivates(config, session);
    hide SpecFor;
    LegalExtends(config, log[..3], log[3]);
  }

  function CancelFence(config: Config, session: SessionId, reason: Digest, at: nat): Tombstone {
    AgdCore.TombstoneFor(Launched(config, session).sessions[session].state, session, Cancelled(reason), at)
  }

  /** The cancellation's fence is written and its confirmation lost: the session is fenced for good while its worker,
      past its gate, still runs.  A later cancellation carries the same tombstone only if it names the same reason and
      falls on the same millisecond. */
  lemma CancelledWorkerCanStillRun(config: Config, session: SessionId, reason: Digest, at: nat)
    ensures var log := LaunchLog(config, session)
                       + [Session(session, Advanced(2, Fence(CancelFence(config, session, reason, at))))];
            && Legal(config, log)
            && var w := Replay(config, log);
               && Fenced(w.sessions, session)
               && w.sessions[session].state.authority.tombstone == CancelFence(config, session, reason, at)
               && session in w.processes && w.processes[session].Running? && session in w.released && !w.poisoned
    ensures forall r, t :: CancelFence(config, session, r, t) == CancelFence(config, session, reason, at) <==>
                             r == reason && t == at
  {
    LaunchIsLegal(config, session);
    LegalExtends(config, LaunchLog(config, session),
                 Session(session, Advanced(2, Fence(CancelFence(config, session, reason, at)))));
  }
}
