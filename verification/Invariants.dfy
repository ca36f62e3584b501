/** What every permitted step keeps, and what it can never take back. */
module Invariants {
  import opened Basics
  import opened Records
  import opened Kernel
  import opened Sessions
  import opened Governance

  // ------------------------------------------------------------ one-state invariants

  /** Judgments are content-addressed, and admit only what their own books support. */
  ghost predicate JudgmentsBound(judgments: Judgments) {
    forall d :: d in judgments ==> d == OfJudgment(judgments[d]) && JudgmentSound(judgments[d])
  }

  /** A stored forward sits under its own key, its admission is what a fresh check returns, and a completed
      one carries exactly the response the broker recorded. */
  predicate ForwardSound(config: Config, judgments: Judgments, submissions: Submissions, key: Digest,
                         record: OutboxRecord) {
    && RecordBinds(config, key, record)
    && AdmissionCurrent(judgments, record)
    && Presentable(config, IngressIntent(record.ingress).value)
    && (record.state.Completed? ==> BrokerAnswered(submissions, record.ingress, record.state.response))
  }

  ghost predicate OutboxSound(config: Config, judgments: Judgments, submissions: Submissions, outbox: Outbox) {
    forall key :: key in outbox ==> ForwardSound(config, judgments, submissions, key, outbox[key].state)
  }

  /** Nothing reaches the broker that is not already in the outbox, and the broker records only what it was shown. */
  ghost predicate BrokerSound(config: Config, outbox: Outbox, submissions: Submissions, presented: set<Ingress>) {
    && (forall ingress :: ingress in presented ==>
          ForwardSource(config, ingress).Some? && ForwardSource(config, ingress).value in outbox)
    && (forall b :: b in submissions ==>
          && submissions[b].ingress in presented
          && IngressIntent(submissions[b].ingress).Some?
          && BrokerKeyOf(submissions[b].ingress) == b)
  }

  /** Custody is never left dangling: the proof and the bytes it names are installed, the live checks it passed
      are still visible in the record, and a recorded outcome is the image of the stored response. */
  predicate SessionSound(config: Config, outbox: Outbox, proofs: set<IngressProof>, blobs: set<Bytes>,
                         session: SessionId, record: SessionRecord) {
    && record.spec.session == session && Coherent(record) && SpecBound(config, record.spec)
    && (!record.candidate.Awaiting? ==>
          && ProofBound(config, record.spec, record.candidate.custody, record.authority.tombstone.since)
          && record.candidate.custody.ingressProof.proof in proofs
          && record.candidate.custody.ingressProof.proof.content in blobs)
    && (record.candidate.BrokerCompleted? ==> OutcomeIsStored(config, outbox, record, record.candidate.outcome))
  }

  ghost predicate SessionsSound(config: Config, outbox: Outbox, proofs: set<IngressProof>, blobs: set<Bytes>,
                                sessions: SessionTable) {
    forall s :: s in sessions ==> SessionSound(config, outbox, proofs, blobs, s, sessions[s].state)
  }

  /** A running process was released, and released processes belong to sessions past preparation. */
  ghost predicate ProcessesSound(sessions: SessionTable, processes: map<SessionId, Process>, released: set<SessionId>) {
    && (forall s :: s in released ==> s in sessions && !sessions[s].state.authority.Prepared?)
    && (forall s :: s in processes && processes[s].Running? ==> s in released)
  }

  ghost predicate Sound(config: Config, w: World) {
    && JudgmentsBound(w.judgments)
    && OutboxSound(config, w.judgments, w.submissions, w.outbox)
    && BrokerSound(config, w.outbox, w.submissions, w.presented)
    && SessionsSound(config, w.outbox, w.proofs, w.blobs, w.sessions)
    && ProcessesSound(w.sessions, w.processes, w.released)
  }

  // ------------------------------------------------------------ two-state monotonicity

  /** A forward only moves from pending to completed; source, intent and admission are fixed, and a
      completed record is final. */
  predicate ForwardGrows(before: Cell<OutboxRecord>, after: Cell<OutboxRecord>) {
    && before.revision <= after.revision
    && after.state.source == before.state.source
    && after.state.intent == before.state.intent
    && after.state.admission == before.state.admission
    && (before.state.state.Completed? ==> after == before)
  }

  ghost predicate JudgmentsKept(a: Judgments, b: Judgments) {
    forall d :: d in a ==> d in b && b[d] == a[d]
  }

  ghost predicate OutboxKept(a: Outbox, b: Outbox) {
    forall key :: key in a ==> key in b && ForwardGrows(a[key], b[key])
  }

  ghost predicate SessionsKept(a: SessionTable, b: SessionTable) {
    forall s :: s in a ==> s in b && Grows(a[s].state, b[s].state)
  }

  ghost predicate SubmissionsKept(a: Submissions, b: Submissions) {
    forall k :: k in a ==> k in b && b[k] == a[k]
  }

  ghost predicate Kept(w: World, x: World) {
    && JudgmentsKept(w.judgments, x.judgments) && OutboxKept(w.outbox, x.outbox)
    && SessionsKept(w.sessions, x.sessions) && SubmissionsKept(w.submissions, x.submissions)
    && w.proofs <= x.proofs && w.blobs <= x.blobs && w.presented <= x.presented && w.released <= x.released
  }

  lemma TablesKeepThemselves(outbox: Outbox, submissions: Submissions)
    ensures OutboxKept(outbox, outbox) && SubmissionsKept(submissions, submissions)
  {
  }

  lemma OutboxKeptTransitive(a: Outbox, b: Outbox, c: Outbox)
    requires OutboxKept(a, b) && OutboxKept(b, c)
    ensures OutboxKept(a, c)
  {
  }

  lemma SessionsKeptTransitive(a: SessionTable, b: SessionTable, c: SessionTable)
    requires SessionsKept(a, b) && SessionsKept(b, c)
    ensures SessionsKept(a, c)
  {
    forall s | s in a ensures s in c && Grows(a[s].state, c[s].state) {
      GrowsTransitive(a[s].state, b[s].state, c[s].state);
    }
  }

  lemma KeptTransitive(a: World, b: World, c: World)
    requires Kept(a, b) && Kept(b, c)
    ensures Kept(a, c)
  {
    OutboxKeptTransitive(a.outbox, b.outbox, c.outbox);
    SessionsKeptTransitive(a.sessions, b.sessions, c.sessions);
  }

  // ------------------------------------------------------------ each change keeps what came before

  lemma ForwardKeeps(config: Config, judgments: Judgments, submissions: Submissions, outbox: Outbox, key: Digest,
                     change: ForwardChange)
    requires ForwardPermitted(config, judgments, submissions, outbox, key, change)
    ensures OutboxKept(outbox, ForwardAfter(outbox, key, change))
  {
  }

  lemma SessionKeeps(config: Config, outbox: Outbox, proofs: set<IngressProof>, blobs: set<Bytes>,
                     sessions: SessionTable, session: SessionId, change: SessionChange)
    requires SessionsSound(config, outbox, proofs, blobs, sessions)
    requires SessionPermitted(config, outbox, proofs, blobs, sessions, session, change)
    ensures SessionsKept(sessions, SessionAfter(sessions, session, change))
  {
    if change.Advanced? {
      AdvanceGrows(sessions[session].state, change.step);
    }
  }

  lemma SessionsKeptReflexive(config: Config, outbox: Outbox, proofs: set<IngressProof>, blobs: set<Bytes>,
                              sessions: SessionTable)
    requires SessionsSound(config, outbox, proofs, blobs, sessions)
    ensures SessionsKept(sessions, sessions)
  {
    forall s | s in sessions ensures Grows(sessions[s].state, sessions[s].state) {
      assert SessionSound(config, outbox, proofs, blobs, s, sessions[s].state);
    }
  }

  // ------------------------------------------------------------ soundness survives growth of what it reads

  lemma OutboxSoundGrows(config: Config, judgments: Judgments, judgments': Judgments,
                         submissions: Submissions, submissions': Submissions, outbox: Outbox)
    requires OutboxSound(config, judgments, submissions, outbox)
    requires JudgmentsKept(judgments, judgments') && SubmissionsKept(submissions, submissions')
    ensures OutboxSound(config, judgments', submissions', outbox)
  {
    forall key | key in outbox ensures ForwardSound(config, judgments', submissions', key, outbox[key].state) {
      var record := outbox[key].state;
      assert ForwardSound(config, judgments, submissions, key, record);
      var intent := IngressIntent(record.ingress).value;
      AdmissionIsStable(judgments, judgments', intent.judgment, SubjectOf(intent));
    }
  }

  /** What custody stands for does not move while the record and the outbox only grow. */
  lemma StoredOutcomeIsStable(config: Config, outbox: Outbox, outbox': Outbox, before: SessionRecord,
                              after: SessionRecord, outcome: BrokerOutcome)
    requires OutboxKept(outbox, outbox')
    requires Coherent(before) && Coherent(after) && Grows(before, after)
    requires OutcomeIsStored(config, outbox, before, outcome)
    ensures OutcomeIsStored(config, outbox', after, outcome)
  {
    RebuildIsStable(config, before, after, before.candidate.custody.ingressProof.proof);
    assert CandidateIngress(config, after) == CandidateIngress(config, before);
    var key := ForwardSource(config, CandidateIngress(config, before).value).value;
    assert ForwardGrows(outbox[key], outbox'[key]);
  }

  lemma SessionsSoundGrows(config: Config, outbox: Outbox, outbox': Outbox, proofs: set<IngressProof>,
                           proofs': set<IngressProof>,
                           blobs: set<Bytes>, blobs': set<Bytes>, sessions: SessionTable)
    requires SessionsSound(config, outbox, proofs, blobs, sessions)
    requires OutboxKept(outbox, outbox') && proofs <= proofs' && blobs <= blobs'
    ensures SessionsSound(config, outbox', proofs', blobs', sessions)
  {
    forall s | s in sessions ensures SessionSound(config, outbox', proofs', blobs', s, sessions[s].state) {
      var record := sessions[s].state;
      assert SessionSound(config, outbox, proofs, blobs, s, record);
      if record.candidate.BrokerCompleted? {
        StoredOutcomeIsStable(config, outbox, outbox', record, record, record.candidate.outcome);
      }
    }
  }

  // ------------------------------------------------------------ each change keeps its own table sound

  lemma ForwardKeepsOneSound(config: Config, judgments: Judgments, submissions: Submissions, outbox: Outbox,
                             key: Digest, change: ForwardChange)
    requires key in outbox ==> ForwardSound(config, judgments, submissions, key, outbox[key].state)
    requires ForwardPermitted(config, judgments, submissions, outbox, key, change)
    ensures ForwardSound(config, judgments, submissions, key, ForwardAfter(outbox, key, change)[key].state)
  {
    if change.Reproofed? {
      SameForward(config, outbox[key].state.ingress, change.ingress);
    }
  }

  lemma OutboxSoundUpdate(config: Config, judgments: Judgments, submissions: Submissions, outbox: Outbox, key: Digest,
                          cell: Cell<OutboxRecord>)
    requires OutboxSound(config, judgments, submissions, outbox)
    requires ForwardSound(config, judgments, submissions, key, cell.state)
    ensures OutboxSound(config, judgments, submissions, outbox[key := cell])
  {
  }

  lemma ForwardKeepsSound(config: Config, judgments: Judgments, submissions: Submissions, outbox: Outbox, key: Digest,
                          change: ForwardChange)
    requires OutboxSound(config, judgments, submissions, outbox)
    requires ForwardPermitted(config, judgments, submissions, outbox, key, change)
    ensures OutboxSound(config, judgments, submissions, ForwardAfter(outbox, key, change))
  {
    var outbox' := ForwardAfter(outbox, key, change);
    ForwardKeepsOneSound(config, judgments, submissions, outbox, key, change);
    OutboxSoundUpdate(config, judgments, submissions, outbox, key, outbox'[key]);
    assert outbox' == outbox[key := outbox'[key]];
  }

  lemma AdvanceKeepsSound(config: Config, outbox: Outbox, proofs: set<IngressProof>, blobs: set<Bytes>,
                          session: SessionId, record: SessionRecord, step: SessionEvent)
    requires SessionSound(config, outbox, proofs, blobs, session, record)
    requires Advance(record, step).Some? && StepPermitted(config, outbox, proofs, blobs, record, step)
    ensures SessionSound(config, outbox, proofs, blobs, session, Advance(record, step).value)
  {
    var next := Advance(record, step).value;
    AdvanceGrows(record, step);
    if next.candidate.BrokerCompleted? {
      StoredOutcomeIsStable(config, outbox, outbox, record, next, next.candidate.outcome);
    }
  }

  lemma SessionKeepsSound(config: Config, outbox: Outbox, proofs: set<IngressProof>, blobs: set<Bytes>,
                          sessions: SessionTable, session: SessionId, change: SessionChange)
    requires SessionsSound(config, outbox, proofs, blobs, sessions)
    requires SessionPermitted(config, outbox, proofs, blobs, sessions, session, change)
    ensures SessionsSound(config, outbox, proofs, blobs, SessionAfter(sessions, session, change))
  {
    var sessions' := SessionAfter(sessions, session, change);
    if change.Advanced? {
      assert SessionSound(config, outbox, proofs, blobs, session, sessions[session].state);
      AdvanceKeepsSound(config, outbox, proofs, blobs, session, sessions[session].state, change.step);
    }
    forall s | s in sessions' ensures SessionSound(config, outbox, proofs, blobs, s, sessions'[s].state) {
      if s != session {
        assert sessions'[s] == sessions[s];
      }
    }
  }

  lemma ProcessesSoundGrows(sessions: SessionTable, sessions': SessionTable, processes: map<SessionId, Process>,
                            released: set<SessionId>)
    requires ProcessesSound(sessions, processes, released) && SessionsKept(sessions, sessions')
    ensures ProcessesSound(sessions', processes, released)
  {
    forall s | s in released ensures s in sessions' && !sessions'[s].state.authority.Prepared? {
      assert Grows(sessions[s].state, sessions'[s].state);
    }
  }

  // ------------------------------------------------------------ whole steps

  lemma ForwardStepKeepsSound(config: Config, w: World, key: Digest, change: ForwardChange)
    requires Sound(config, w) && ForwardPermitted(config, w.judgments, w.submissions, w.outbox, key, change)
    ensures var x := w.(outbox := ForwardAfter(w.outbox, key, change)); Sound(config, x) && Kept(w, x)
  {
    hide SessionsSound, OutboxSound, ProcessesSound, SessionsKept, OutboxKept;
    var outbox' := ForwardAfter(w.outbox, key, change);
    ForwardKeeps(config, w.judgments, w.submissions, w.outbox, key, change);
    ForwardKeepsSound(config, w.judgments, w.submissions, w.outbox, key, change);
    SessionsSoundGrows(config, w.outbox, outbox', w.proofs, w.proofs, w.blobs, w.blobs, w.sessions);
    SessionsKeptReflexive(config, w.outbox, w.proofs, w.blobs, w.sessions);
  }

  lemma SessionStepKeepsSound(config: Config, w: World, session: SessionId, change: SessionChange)
    requires Sound(config, w) && SessionPermitted(config, w.outbox, w.proofs, w.blobs, w.sessions, session, change)
    ensures var x := w.(sessions := SessionAfter(w.sessions, session, change)); Sound(config, x) && Kept(w, x)
  {
    hide SessionsSound, OutboxSound, BrokerSound, ProcessesSound, SessionsKept, SessionAfter;
    SessionKeeps(config, w.outbox, w.proofs, w.blobs, w.sessions, session, change);
    SessionKeepsSound(config, w.outbox, w.proofs, w.blobs, w.sessions, session, change);
    ProcessesSoundGrows(w.sessions, SessionAfter(w.sessions, session, change), w.processes, w.released);
  }

  /** A step that leaves outbox and sessions alone. */
  lemma SideStepKeepsSound(config: Config, w: World, x: World)
    requires Sound(config, w)
    requires x.outbox == w.outbox && x.sessions == w.sessions
    requires JudgmentsKept(w.judgments, x.judgments) && SubmissionsKept(w.submissions, x.submissions)
    requires w.proofs <= x.proofs && w.blobs <= x.blobs && w.presented <= x.presented && w.released <= x.released
    requires BrokerSound(config, x.outbox, x.submissions, x.presented)
    requires ProcessesSound(x.sessions, x.processes, x.released) && JudgmentsBound(x.judgments)
    ensures Sound(config, x) && Kept(w, x)
  {
    hide SessionsSound, OutboxSound, BrokerSound, ProcessesSound, SessionsKept;
    OutboxSoundGrows(config, w.judgments, x.judgments, w.submissions, x.submissions, w.outbox);
    assert OutboxKept(w.outbox, w.outbox);
    SessionsSoundGrows(config, w.outbox, w.outbox, w.proofs, x.proofs, w.blobs, x.blobs, w.sessions);
    SessionsKeptReflexive(config, w.outbox, w.proofs, w.blobs, w.sessions);
  }

  lemma BrokerChangeKeepsSound(config: Config, w: World, change: BrokerChange)
    requires BrokerSound(config, w.outbox, w.submissions, w.presented)
    requires BrokerPermitted(config, w.outbox, w.submissions, w.presented, change)
    ensures var x := After(config, w, Broker(change));
            BrokerSound(config, x.outbox, x.submissions, x.presented) && SubmissionsKept(w.submissions, x.submissions)
  {
  }

  lemma SignalKeepsSound(config: Config, w: World, session: SessionId, signal: Signal)
    requires ProcessesSound(w.sessions, w.processes, w.released)
    requires SignalPermitted(w.sessions, w.processes, w.released, w.poisoned, session, signal)
    ensures var x := After(config, w, Worker(session, signal)); ProcessesSound(x.sessions, x.processes, x.released)
  {
  }

  lemma BrokerStepKeepsSound(config: Config, w: World, change: BrokerChange)
    requires Sound(config, w) && Permitted(config, w, Broker(change))
    ensures var x := After(config, w, Broker(change)); Sound(config, x) && Kept(w, x)
  {
    hide SessionsSound, OutboxSound, BrokerSound, ProcessesSound, SessionsKept;
    BrokerChangeKeepsSound(config, w, change);
    SideStepKeepsSound(config, w, After(config, w, Broker(change)));
  }

  lemma SignalStepKeepsSound(config: Config, w: World, session: SessionId, signal: Signal)
    requires Sound(config, w) && Permitted(config, w, Worker(session, signal))
    ensures var x := After(config, w, Worker(session, signal)); Sound(config, x) && Kept(w, x)
  {
    hide SessionsSound, OutboxSound, BrokerSound, ProcessesSound, SessionsKept;
    SignalKeepsSound(config, w, session, signal);
    SideStepKeepsSound(config, w, After(config, w, Worker(session, signal)));
  }

  lemma JudgmentStepKeepsSound(config: Config, w: World, record: JudgmentRecord)
    requires Sound(config, w) && OfJudgment(record) !in w.judgments && JudgmentSound(record)
    ensures var x := w.(judgments := w.judgments[OfJudgment(record) := record]); Sound(config, x) && Kept(w, x)
  {
    hide SessionsSound, OutboxSound, BrokerSound, ProcessesSound, SessionsKept, JudgmentSound;
    SideStepKeepsSound(config, w, w.(judgments := w.judgments[OfJudgment(record) := record]));
  }

  /** Every permitted step keeps the world sound and takes nothing back. */
  lemma StepKeepsSound(config: Config, w: World, event: Event)
    requires Sound(config, w) && Permitted(config, w, event)
    ensures Sound(config, After(config, w, event))
    ensures Kept(w, After(config, w, event))
  {
    hide SessionsSound, OutboxSound, BrokerSound, SessionsKept, OutboxKept, ForwardPermitted, SessionPermitted,
      ForwardAfter, SessionAfter, BrokerPermitted, SignalPermitted, JudgmentSound;
    match event
    case JudgmentCommitted(record) => JudgmentStepKeepsSound(config, w, record);
    case Forward(key, change) => ForwardStepKeepsSound(config, w, key, change);
    case Session(session, change) => SessionStepKeepsSound(config, w, session, change);
    case Broker(change) => BrokerStepKeepsSound(config, w, change);
    case Worker(session, signal) => SignalStepKeepsSound(config, w, session, signal);
    case ProofInstalled(proof) => SideStepKeepsSound(config, w, w.(proofs := w.proofs + {proof}));
    case BlobInstalled(bytes) => SideStepKeepsSound(config, w, w.(blobs := w.blobs + {bytes}));
    case GovernorPoisoned => SideStepKeepsSound(config, w, w.(poisoned := true));
    case GovernorCrashed => SideStepKeepsSound(config, w, w.(processes := map[], poisoned := false));
  }
}
