/** Theorems about whole runs, crashes, restarts and lost replies included. */
module Runs {
  import opened Basics
  import opened Records
  import opened Sessions
  import opened Governance
  import opened Invariants

  /** The world after the first `n` events; a crash there leaves exactly its durable part. */
  function At(config: Config, log: seq<Event>, n: nat): World
    requires Legal(config, log) && n <= |log|
  {
    LegalPrefix(config, log, n);
    Replay(config, log[..n])
  }

  lemma AtStep(config: Config, log: seq<Event>, n: nat)
    requires Legal(config, log) && n < |log|
    ensures Permitted(config, At(config, log, n), log[n])
    ensures At(config, log, n + 1) == After(config, At(config, log, n), log[n])
  {
    LegalPrefix(config, log, n + 1);
    assert log[..n + 1][..n] == log[..n];
  }

  lemma {:induction false} EveryPointIsSound(config: Config, log: seq<Event>, n: nat)
    requires Legal(config, log) && n <= |log|
    ensures Sound(config, At(config, log, n))
  {
    if n > 0 {
      EveryPointIsSound(config, log, n - 1);
      AtStep(config, log, n - 1);
      StepKeepsSound(config, At(config, log, n - 1), log[n - 1]);
    }
  }

  lemma AtStepKeeps(config: Config, log: seq<Event>, n: nat)
    requires Legal(config, log) && n < |log|
    ensures Kept(At(config, log, n), At(config, log, n + 1))
  {
    EveryPointIsSound(config, log, n);
    AtStep(config, log, n);
    StepKeepsSound(config, At(config, log, n), log[n]);
  }

  /** Whatever is durable at one point of a run is still there, only grown, at every later point. */
  lemma {:induction false} NothingIsTakenBack(config: Config, log: seq<Event>, i: nat, j: nat)
    requires Legal(config, log) && i <= j <= |log|
    ensures Kept(At(config, log, i), At(config, log, j))
    decreases j - i
  {
    if i == j {
      EveryPointIsSound(config, log, i);
      var w := At(config, log, i);
      SessionsKeptReflexive(config, w.outbox, w.proofs, w.blobs, w.sessions);
    } else {
      NothingIsTakenBack(config, log, i, j - 1);
      AtStepKeeps(config, log, j - 1);
      KeptTransitive(At(config, log, i), At(config, log, j - 1), At(config, log, j));
    }
  }

  // ------------------------------------------------------------ the forward outbox

  /** Absent, then pending, then completed: a forward keeps its source, intent and admission for good, and
      once completed it never changes again. */
  lemma ForwardHistory(config: Config, log: seq<Event>, i: nat, j: nat, key: Digest)
    requires Legal(config, log) && i <= j <= |log|
    requires key in At(config, log, i).outbox
    ensures key in At(config, log, j).outbox
    ensures var a, b := At(config, log, i).outbox[key].state, At(config, log, j).outbox[key].state;
            && b.source == a.source == key && b.intent == a.intent && b.admission == a.admission
            && (a.state.Completed? ==> b == a)
  {
    NothingIsTakenBack(config, log, i, j);
    EveryPointIsSound(config, log, i);
    var w := At(config, log, i);
    assert ForwardSound(config, w.judgments, w.submissions, key, w.outbox[key].state);
    assert ForwardGrows(w.outbox[key], At(config, log, j).outbox[key]);
  }

  /** In every reachable store a forward recomputes to its own key and a fresh admission check returns the
      stored admission, so neither recheck made at recovery can report a mismatch. */
  lemma RechecksNeverMismatch(config: Config, log: seq<Event>, n: nat, key: Digest)
    requires Legal(config, log) && n <= |log|
    requires key in At(config, log, n).outbox
    ensures var w := At(config, log, n);
            var record := w.outbox[key].state;
            RecordBinds(config, key, record) && AdmissionCurrent(w.judgments, record)
  {
    EveryPointIsSound(config, log, n);
    var w := At(config, log, n);
    assert ForwardSound(config, w.judgments, w.submissions, key, w.outbox[key].state);
  }

  lemma OutboxGains(config: Config, w: World, event: Event, key: Digest)
    requires Permitted(config, w, event)
    requires key !in w.outbox && key in After(config, w, event).outbox
    ensures event.Forward? && event.key == key && event.forward.Opened?
  {
  }

  lemma OpenedNow(config: Config, log: seq<Event>, n: nat, key: Digest)
    requires Legal(config, log) && n < |log|
    requires key !in At(config, log, n).outbox && key in At(config, log, n + 1).outbox
    ensures log[n].Forward? && log[n].key == key && log[n].forward.Opened?
  {
    AtStep(config, log, n);
    OutboxGains(config, At(config, log, n), log[n], key);
  }

  lemma {:induction false} OpenedEarlier(config: Config, log: seq<Event>, n: nat, key: Digest)
    requires Legal(config, log) && n <= |log|
    requires key in At(config, log, n).outbox
    ensures exists i :: 0 <= i < n && log[i].Forward? && log[i].key == key && log[i].forward.Opened?
  {
    if n > 0 {
      if key in At(config, log, n - 1).outbox {
        OpenedEarlier(config, log, n - 1, key);
      } else {
        OpenedNow(config, log, n - 1, key);
      }
    }
  }

  /** The broker is called only for a forward whose record was durable first, and never after it completed. */
  lemma CallsAreCovered(config: Config, log: seq<Event>, n: nat)
    requires Legal(config, log) && n < |log|
    requires log[n].Broker? && log[n].broker.Called?
    ensures var key := ForwardSource(config, log[n].broker.ingress);
            && key.Some?
            && (exists i :: 0 <= i < n && log[i].Forward? && log[i].key == key.value && log[i].forward.Opened?)
            && (forall i :: 0 <= i < n && log[i].Forward? && log[i].key == key.value ==> !log[i].forward.Closed?)
  {
    AtStep(config, log, n);
    var key := ForwardSource(config, log[n].broker.ingress).value;
    OpenedEarlier(config, log, n, key);
    forall i | 0 <= i < n && log[i].Forward? && log[i].key == key && log[i].forward.Closed? ensures false {
      ClosedStays(config, log, i, n, key);
    }
  }

  lemma ClosedStays(config: Config, log: seq<Event>, i: nat, n: nat, key: Digest)
    requires Legal(config, log) && i < n <= |log|
    requires log[i].Forward? && log[i].key == key && log[i].forward.Closed?
    ensures key in At(config, log, n).outbox
    ensures At(config, log, n).outbox[key].state.state == Completed(log[i].forward.response)
  {
    AtStep(config, log, i);
    ForwardHistory(config, log, i + 1, n, key);
  }

  /** A forward is completed at most once in a run. */
  lemma CompletedOnce(config: Config, log: seq<Event>, i: nat, j: nat)
    requires Legal(config, log) && i < j < |log|
    requires log[i].Forward? && log[i].forward.Closed?
    requires log[j].Forward? && log[j].forward.Closed?
    ensures log[i].key != log[j].key
  {
    AtStep(config, log, j);
    if log[i].key == log[j].key {
      ClosedStays(config, log, i, j, log[i].key);
    }
  }

  // ------------------------------------------------------------ across both daemons

  lemma SubmissionsGain(config: Config, w: World, event: Event, submission: BrokerKey)
    requires Permitted(config, w, event)
    requires submission in After(config, w, event).submissions
    ensures submission in w.submissions ==> w.submissions[submission] == After(config, w, event).submissions[submission]
    ensures submission !in w.submissions ==> RecordsAt(event, submission, After(config, w, event).submissions[submission])
  {
  }

  lemma RecordedNow(config: Config, log: seq<Event>, n: nat, submission: BrokerKey)
    requires Legal(config, log) && n < |log|
    requires submission in At(config, log, n + 1).submissions
    ensures submission in At(config, log, n).submissions ==>
              At(config, log, n).submissions[submission] == At(config, log, n + 1).submissions[submission]
    ensures submission !in At(config, log, n).submissions ==>
              RecordsAt(log[n], submission, At(config, log, n + 1).submissions[submission])
  {
    AtStep(config, log, n);
    SubmissionsGain(config, At(config, log, n), log[n], submission);
  }

  lemma {:induction false} RecordedEarlier(config: Config, log: seq<Event>, n: nat, submission: BrokerKey)
    requires Legal(config, log) && n <= |log|
    requires submission in At(config, log, n).submissions
    ensures exists i :: 0 <= i < n && RecordsAt(log[i], submission, At(config, log, n).submissions[submission])
  {
    if n > 0 {
      RecordedNow(config, log, n - 1, submission);
      if submission in At(config, log, n - 1).submissions {
        RecordedEarlier(config, log, n - 1, submission);
      }
    }
  }

  predicate RecordsAt(event: Event, submission: BrokerKey, act: Submission) {
    && event.Broker? && event.broker.Recorded? && IngressIntent(event.broker.ingress).Some?
    && BrokerKeyOf(event.broker.ingress) == submission
    && act == Submission(event.broker.ingress, event.broker.response)
  }

  /** The broker acts at most once per submission key, however often a call is repeated, delayed or crashed over. */
  lemma RecordedOnce(config: Config, log: seq<Event>, i: nat, j: nat, submission: BrokerKey, a: Submission, b: Submission)
    requires Legal(config, log) && i < |log| && j < |log|
    requires RecordsAt(log[i], submission, a) && RecordsAt(log[j], submission, b)
    ensures i == j && a == b
  {
    var lo, hi := if i < j then i else j, if i < j then j else i;
    AtStep(config, log, lo);
    AtStep(config, log, hi);
    if lo < hi {
      NothingIsTakenBack(config, log, lo + 1, hi);
    }
  }

  /** The act answers this forward: the same intent, and for a worker the very same proof and candidate. */
  predicate Answers(act: Submission, record: OutboxRecord) {
    && record.state == Completed(act.response)
    && IngressIntent(act.ingress) == IngressIntent(record.ingress)
    && (record.ingress.WorkerCandidate? ==> act.ingress == record.ingress)
  }

  lemma SameSubmissionSameIntent(a: Ingress, b: Ingress)
    requires IngressIntent(a).Some? && IngressIntent(b).Some? && BrokerKeyOf(a) == BrokerKeyOf(b) && a.ExternalSigned?
    ensures IngressIntent(a) == IngressIntent(b)
  {
  }

  lemma SoundIsAnswered(config: Config, judgments: Judgments, outbox: Outbox, submissions: Submissions,
                        presented: set<Ingress>, key: Digest)
    requires key in outbox && outbox[key].state.state.Completed?
    requires ForwardSound(config, judgments, submissions, key, outbox[key].state)
    requires BrokerSound(config, outbox, submissions, presented)
    ensures var record := outbox[key].state;
            && ForwardSource(config, record.ingress) == Some(key) && BrokerKeyOf(record.ingress) in submissions
            && Answers(submissions[BrokerKeyOf(record.ingress)], record)
  {
    hide AdmissionCurrent, BrokerKeyOf;
    var record := outbox[key].state;
    if record.ingress.ExternalSigned? {
      SameSubmissionSameIntent(record.ingress, submissions[BrokerKeyOf(record.ingress)].ingress);
    }
  }

  /** A completed forward was answered by what the broker holds under its key. */
  lemma CompletedIsAnswered(config: Config, log: seq<Event>, n: nat, key: Digest)
    requires Legal(config, log) && n <= |log|
    requires key in At(config, log, n).outbox && At(config, log, n).outbox[key].state.state.Completed?
    ensures var w := At(config, log, n);
            var record := w.outbox[key].state;
            && ForwardSource(config, record.ingress) == Some(key) && BrokerKeyOf(record.ingress) in w.submissions
            && Answers(w.submissions[BrokerKeyOf(record.ingress)], record)
  {
    hide Legal, Replay, BrokerSound, SessionsSound, ForwardSound, Answers;
    EveryPointIsSound(config, log, n);
    var w := At(config, log, n);
    assert ForwardSound(config, w.judgments, w.submissions, key, w.outbox[key].state);
    SoundIsAnswered(config, w.judgments, w.outbox, w.submissions, w.presented, key);
  }

  /** Exactly once, end to end: a completed forward carries the response of the single act the broker ever recorded
      for its key; that act came first and was for this forward's own intent, and for a worker's own candidate. */
  lemma CompletedForwardHasOneAct(config: Config, log: seq<Event>, n: nat, key: Digest)
    requires Legal(config, log) && n <= |log|
    requires key in At(config, log, n).outbox && At(config, log, n).outbox[key].state.state.Completed?
    ensures var record := At(config, log, n).outbox[key].state;
            && IngressIntent(record.ingress).Some?
            && exists i, act ::
                 && 0 <= i < n && RecordsAt(log[i], BrokerKeyOf(record.ingress), act) && Answers(act, record)
                 && forall j, other :: 0 <= j < |log| && RecordsAt(log[j], BrokerKeyOf(record.ingress), other) ==>
                      j == i && other == act
  {
    CompletedIsAnswered(config, log, n, key);
    var w := At(config, log, n);
    var submission := BrokerKeyOf(w.outbox[key].state.ingress);
    var act := w.submissions[submission];
    RecordedEarlier(config, log, n, submission);
    var i :| 0 <= i < n && RecordsAt(log[i], submission, act);
    forall j, other | 0 <= j < |log| && RecordsAt(log[j], submission, other) ensures j == i && other == act {
      RecordedOnce(config, log, i, j, submission, act, other);
    }
  }

  /** Forwards with different external intents never share a broker act. */
  lemma ExternalForwardsAreSeparate(config: Config, a: Ingress, b: Ingress)
    requires a.ExternalSigned? && b.ExternalSigned?
    requires ForwardSource(config, a).Some? && ForwardSource(config, b).Some?
    ensures BrokerKeyOf(a) == BrokerKeyOf(b) <==> ForwardSource(config, a) == ForwardSource(config, b)
  {
  }

  /** Neither do a worker's: its broker key names only the principal and its lineage, yet in a run at most one forward
      is ever completed under it, so two completed worker forwards with one key are one forward with one candidate. */
  lemma WorkerForwardsAreSeparate(config: Config, log: seq<Event>, m: nat, n: nat, a: Digest, b: Digest)
    requires Legal(config, log) && m <= n <= |log|
    requires a in At(config, log, m).outbox && At(config, log, m).outbox[a].state.state.Completed?
    requires b in At(config, log, n).outbox && At(config, log, n).outbox[b].state.state.Completed?
    requires At(config, log, m).outbox[a].state.ingress.WorkerCandidate?
    requires var x, y := At(config, log, m).outbox[a].state.ingress, At(config, log, n).outbox[b].state.ingress;
             IngressIntent(x).Some? && IngressIntent(y).Some? && BrokerKeyOf(x) == BrokerKeyOf(y)
    ensures a == b && At(config, log, m).outbox[a].state == At(config, log, n).outbox[b].state
  {
    ForwardHistory(config, log, m, n, a);
    CompletedIsAnswered(config, log, n, a);
    CompletedIsAnswered(config, log, n, b);
  }

  // ------------------------------------------------------------ accepted candidates

  /** In every reachable store, accepted custody rebuilds, to the same ingress at every later point. */
  lemma CustodyRebuilds(config: Config, log: seq<Event>, i: nat, j: nat, s: SessionId)
    requires Legal(config, log) && i <= j <= |log|
    requires s in At(config, log, i).sessions && !At(config, log, i).sessions[s].state.candidate.Awaiting?
    ensures s in At(config, log, j).sessions
    ensures CandidateIngress(config, At(config, log, i).sessions[s].state).Some?
    ensures CandidateIngress(config, At(config, log, j).sessions[s].state)
         == CandidateIngress(config, At(config, log, i).sessions[s].state)
  {
    NothingIsTakenBack(config, log, i, j);
    EveryPointIsSound(config, log, i);
    EveryPointIsSound(config, log, j);
    var w, x := At(config, log, i), At(config, log, j);
    SoundCustodyRebuilds(config, w.outbox, w.proofs, w.blobs, s, w.sessions[s].state);
    assert SessionSound(config, x.outbox, x.proofs, x.blobs, s, x.sessions[s].state);
    RebuildIsStable(config, w.sessions[s].state, x.sessions[s].state, w.sessions[s].state.candidate.custody.ingressProof.proof);
  }

  lemma SoundCustodyRebuilds(config: Config, outbox: Outbox, proofs: set<IngressProof>, blobs: set<Bytes>,
                             s: SessionId, record: SessionRecord)
    requires SessionSound(config, outbox, proofs, blobs, s, record)
    requires !record.candidate.Awaiting?
    ensures CandidateSource(config, record, record.candidate.custody.ingressProof.proof).Ok?
    ensures CandidateMapping(config, record).Ok?
    ensures CandidateIngress(config, record).Some?
  {
  }

  /** A worker's forward is the one its own session's custody stands for. */
  ghost predicate StandsFor(config: Config, sessions: SessionTable, key: Digest) {
    key.OfWorkerSource? ==>
      && key.source.worker.session in sessions
      && CustodyForward(config, sessions[key.source.worker.session].state) == Some(key)
  }

  ghost predicate RootedAt(config: Config, log: seq<Event>, n: nat)
    requires Legal(config, log) && n <= |log|
  {
    forall key :: key in At(config, log, n).outbox ==> StandsFor(config, At(config, log, n).sessions, key)
  }

  /** At every point of the run, every worker's forward comes from its session's custody. */
  ghost predicate Rooted(config: Config, log: seq<Event>) {
    Legal(config, log) && forall n :: 0 <= n <= |log| ==> RootedAt(config, log, n)
  }

  lemma AtPrefix(config: Config, log: seq<Event>, m: nat, n: nat)
    requires Legal(config, log) && m <= n <= |log|
    ensures Legal(config, log[..n]) && At(config, log[..n], m) == At(config, log, m)
  {
    LegalPrefix(config, log, n);
    assert log[..n][..m] == log[..m];
  }

  lemma EmptyRunIsRooted(config: Config)
    ensures Rooted(config, [])
  {
    forall n | 0 <= n <= 0 ensures RootedAt(config, [], n) {
    }
  }

  /** So a crash, which leaves a prefix, cannot break it. */
  lemma RootsSurviveCrash(config: Config, log: seq<Event>, n: nat)
    requires Rooted(config, log) && n <= |log|
    ensures Rooted(config, log[..n])
  {
    LegalPrefix(config, log, n);
    forall m | 0 <= m <= n ensures RootedAt(config, log[..n], m) {
      AtPrefix(config, log, m, n);
      assert RootedAt(config, log, m);
    }
  }

  lemma StandsForStays(config: Config, log: seq<Event>, i: nat, j: nat, key: Digest)
    requires Legal(config, log) && i <= j <= |log| && StandsFor(config, At(config, log, i).sessions, key)
    ensures StandsFor(config, At(config, log, j).sessions, key)
  {
    if key.OfWorkerSource? {
      CustodyRebuilds(config, log, i, j, key.source.worker.session);
    }
  }

  /** More events keep the run rooted if every forward they add stands for custody held before them. */
  lemma RootsExtend(config: Config, log: seq<Event>, m: nat)
    requires Legal(config, log) && m <= |log| && Rooted(config, log[..m])
    requires forall key :: key in At(config, log, |log|).outbox ==>
                             key in At(config, log, m).outbox || StandsFor(config, At(config, log, m).sessions, key)
    ensures Rooted(config, log)
  {
    forall n | 0 <= n <= |log| ensures RootedAt(config, log, n) {
      if n <= m {
        AtPrefix(config, log, n, m);
        assert RootedAt(config, log[..m], n);
      } else {
        AtPrefix(config, log, m, m);
        assert RootedAt(config, log[..m], m);
        NothingIsTakenBack(config, log, n, |log|);
        forall key | key in At(config, log, n).outbox ensures StandsFor(config, At(config, log, n).sessions, key) {
          StandsForStays(config, log, m, n, key);
        }
      }
    }
  }

  /** No session has two worker forwards. */
  ghost predicate OneForwardEach(outbox: Outbox) {
    forall a, b :: a in outbox && b in outbox && a.OfWorkerSource? && b.OfWorkerSource? && a != b ==>
                     a.source.worker.session != b.source.worker.session
  }

  /** In a rooted run a session has at most one worker's forward, whatever was retried, crashed or recovered. */
  lemma OneForwardPerSession(config: Config, log: seq<Event>, m: nat, n: nat, a: Digest, b: Digest)
    requires Rooted(config, log) && m <= n <= |log|
    requires a in At(config, log, m).outbox && b in At(config, log, n).outbox && a.OfWorkerSource? && b.OfWorkerSource?
    requires a.source.worker.session == b.source.worker.session
    ensures a == b
  {
    assert RootedAt(config, log, m) && RootedAt(config, log, n);
    StandsForStays(config, log, m, n, a);
  }

  // ------------------------------------------------------------ fence before signal

  predicate Fences(event: Event, s: SessionId) {
    && event.Session? && event.session == s && event.change.Advanced?
    && (event.change.step.Fence? || event.change.step.AcceptCandidate?)
  }

  predicate Releases(event: Event, s: SessionId) {
    event == Worker(s, Release)
  }

  predicate Activates(event: Event, s: SessionId) {
    event.Session? && event.session == s && event.change.Advanced? && event.change.step.Activate?
  }

  predicate Begins(event: Event, s: SessionId) {
    event.Session? && event.session == s && event.change.Begun?
  }

  predicate MovedBy(event: Event, before: SessionTable, after: SessionTable, s: SessionId)
    requires s in after
  {
    if s !in before then Begins(event, s) && after[s].state.authority.Prepared?
    else
      && (after[s].state.authority.Active? && !before[s].state.authority.Active? ==> Activates(event, s))
      && (after[s].state.authority.Tombstoned? && !before[s].state.authority.Tombstoned? ==> Fences(event, s))
  }

  lemma ChangeMoves(sessions: SessionTable, session: SessionId, change: SessionChange, s: SessionId)
    requires change.Advanced? ==> session in sessions && Advance(sessions[session].state, change.step).Some?
    requires change.Begun? ==> session !in sessions
    requires s in SessionAfter(sessions, session, change)
    ensures MovedBy(Session(session, change), sessions, SessionAfter(sessions, session, change), s)
  {
  }

  lemma StepMoves(config: Config, w: World, event: Event, s: SessionId)
    requires Permitted(config, w, event)
    requires s in After(config, w, event).sessions
    ensures MovedBy(event, w.sessions, After(config, w, event).sessions, s)
  {
    if event.Session? {
      ChangeMoves(w.sessions, event.session, event.change, s);
    }
  }

  /** A session enters each stage only by the event of that stage. */
  lemma SessionMovedNow(config: Config, log: seq<Event>, n: nat, s: SessionId)
    requires Legal(config, log) && n < |log|
    requires s in At(config, log, n + 1).sessions
    ensures MovedBy(log[n], At(config, log, n).sessions, At(config, log, n + 1).sessions, s)
  {
    AtStep(config, log, n);
    StepMoves(config, At(config, log, n), log[n], s);
  }

  lemma {:induction false} BegunEarlier(config: Config, log: seq<Event>, n: nat, s: SessionId)
    requires Legal(config, log) && n <= |log|
    requires s in At(config, log, n).sessions
    ensures exists i :: 0 <= i < n && Begins(log[i], s)
  {
    if n > 0 {
      SessionMovedNow(config, log, n - 1, s);
      if s in At(config, log, n - 1).sessions {
        BegunEarlier(config, log, n - 1, s);
      }
    }
  }

  lemma {:induction false} ActivatedEarlier(config: Config, log: seq<Event>, n: nat, s: SessionId)
    requires Legal(config, log) && n <= |log|
    requires s in At(config, log, n).sessions && At(config, log, n).sessions[s].state.authority.Active?
    ensures exists i :: 0 <= i < n && Activates(log[i], s) && s in At(config, log, i).sessions
  {
    if n > 0 {
      SessionMovedNow(config, log, n - 1, s);
      if At(config, log, n - 1).sessions[s].state.authority.Active? {
        ActivatedEarlier(config, log, n - 1, s);
      }
    }
  }

  lemma {:induction false} FencedEarlier(config: Config, log: seq<Event>, n: nat, s: SessionId)
    requires Legal(config, log) && n <= |log|
    requires Fenced(At(config, log, n).sessions, s)
    ensures exists i :: 0 <= i < n && Fences(log[i], s) && !Fenced(At(config, log, i).sessions, s)
  {
    if n > 0 {
      SessionMovedNow(config, log, n - 1, s);
      if Fenced(At(config, log, n - 1).sessions, s) {
        FencedEarlier(config, log, n - 1, s);
      }
    }
  }

  lemma ReleasedNow(config: Config, log: seq<Event>, n: nat, s: SessionId)
    requires Legal(config, log) && n < |log|
    ensures s in At(config, log, n + 1).released <==> s in At(config, log, n).released || Releases(log[n], s)
    ensures Releases(log[n], s) ==> !Fenced(At(config, log, n).sessions, s)
    ensures log[n] == Worker(s, Terminate) ==>
              && Fenced(At(config, log, n).sessions, s)
              && s in At(config, log, n).processes && At(config, log, n).processes[s].Running?
  {
    hide Legal, Replay, ForwardPermitted, SessionPermitted, BrokerPermitted, ForwardAfter, SessionAfter;
    AtStep(config, log, n);
  }

  lemma {:induction false} ReleasedEarlier(config: Config, log: seq<Event>, n: nat, s: SessionId)
    requires Legal(config, log) && n <= |log|
    requires s in At(config, log, n).released
    ensures exists i :: 0 <= i < n && Releases(log[i], s)
  {
    if n > 0 {
      ReleasedNow(config, log, n - 1, s);
      if s in At(config, log, n - 1).released {
        ReleasedEarlier(config, log, n - 1, s);
      }
    }
  }

  /** A worker's gate opens only after its session was prepared and then activated, both durably. */
  lemma GateOpensLast(config: Config, log: seq<Event>, n: nat, s: SessionId)
    requires Legal(config, log) && n < |log| && Releases(log[n], s)
    ensures exists i, j :: 0 <= i < j < n && Begins(log[i], s) && Activates(log[j], s)
  {
    AtStep(config, log, n);
    ActivatedEarlier(config, log, n, s);
    var j :| 0 <= j < n && Activates(log[j], s) && s in At(config, log, j).sessions;
    BegunEarlier(config, log, j, s);
  }

  /** No session is ever released twice, not even across restarts. */
  lemma ReleasedOnce(config: Config, log: seq<Event>, i: nat, j: nat, s: SessionId)
    requires Legal(config, log) && i < |log| && j < |log|
    requires Releases(log[i], s) && Releases(log[j], s)
    ensures i == j
  {
    var lo, hi := if i < j then i else j, if i < j then j else i;
    AtStep(config, log, lo);
    AtStep(config, log, hi);
    if lo < hi {
      NothingIsTakenBack(config, log, lo + 1, hi);
    }
  }

  /** A live released worker is terminated only after its principal was durably fenced, and fenced after release. */
  lemma FenceComesBeforeSignal(config: Config, log: seq<Event>, n: nat, s: SessionId)
    requires Legal(config, log) && n < |log|
    requires log[n] == Worker(s, Terminate)
    ensures exists r, f :: 0 <= r < f < n && Releases(log[r], s) && Fences(log[f], s)
  {
    hide Legal, Replay, OutboxSound, SessionsSound, BrokerSound, JudgmentsBound;
    ReleasedNow(config, log, n, s);
    EveryPointIsSound(config, log, n);
    ReleasedEarlier(config, log, n, s);
    var r :| 0 <= r < n && Releases(log[r], s);
    FencedEarlier(config, log, n, s);
    var f :| 0 <= f < n && Fences(log[f], s) && !Fenced(At(config, log, f).sessions, s);
    ReleasedNow(config, log, r, s);
    if f < r {
      FenceHolds(config, log, f, r, s);
    }
  }

  /** Once fenced, fenced at every later point. */
  lemma FenceHolds(config: Config, log: seq<Event>, f: nat, n: nat, s: SessionId)
    requires Legal(config, log) && f < n <= |log| && Fences(log[f], s)
    ensures Fenced(At(config, log, n).sessions, s)
  {
    AtStep(config, log, f);
    NothingIsTakenBack(config, log, f + 1, n);
  }

  /** A live worker whose handle is merely dropped was fenced first, or the governor had poisoned itself since its last start. */
  lemma DropsAreFencedOrPoisoned(config: Config, log: seq<Event>, n: nat, s: SessionId)
    requires Legal(config, log) && n < |log|
    requires log[n] == Worker(s, Drop)
    ensures || (exists f :: 0 <= f < n && Fences(log[f], s))
            || (exists p :: 0 <= p < n && log[p] == GovernorPoisoned && forall k :: p < k < n ==> log[k] != GovernorCrashed)
  {
    AtStep(config, log, n);
    if Fenced(At(config, log, n).sessions, s) {
      FencedEarlier(config, log, n, s);
    } else {
      PoisonedEarlier(config, log, n);
    }
  }

  lemma {:induction false} PoisonedEarlier(config: Config, log: seq<Event>, n: nat)
    requires Legal(config, log) && n <= |log|
    requires At(config, log, n).poisoned
    ensures exists p :: 0 <= p < n && log[p] == GovernorPoisoned && forall k :: p < k < n ==> log[k] != GovernorCrashed
  {
    if n > 0 {
      AtStep(config, log, n - 1);
      if log[n - 1] != GovernorPoisoned {
        PoisonedEarlier(config, log, n - 1);
        var p :| 0 <= p < n - 1 && log[p] == GovernorPoisoned && forall k :: p < k < n - 1 ==> log[k] != GovernorCrashed;
        assert forall k :: p < k < n ==> log[k] != GovernorCrashed;
      }
    }
  }

  /** Within one process the poison flag is never cleared. */
  lemma {:induction false} PoisonStays(config: Config, log: seq<Event>, i: nat, j: nat)
    requires Legal(config, log) && i <= j <= |log| && At(config, log, i).poisoned
    requires forall k :: i <= k < j ==> log[k] != GovernorCrashed
    ensures At(config, log, j).poisoned
    decreases j
  {
    hide Legal, Replay, ForwardPermitted, SessionPermitted, BrokerPermitted, SignalPermitted, ForwardAfter, SessionAfter;
    if i < j {
      PoisonStays(config, log, i, j - 1);
      AtStep(config, log, j - 1);
    }
  }

  lemma FenceIsNew(config: Config, log: seq<Event>, n: nat, s: SessionId)
    requires Legal(config, log) && n < |log| && Fences(log[n], s)
    ensures !Fenced(At(config, log, n).sessions, s)
  {
    AtStep(config, log, n);
  }

  /** A session is fenced exactly once: either its candidate was accepted, or it was retired, never both. */
  lemma FencedOnce(config: Config, log: seq<Event>, i: nat, j: nat, s: SessionId)
    requires Legal(config, log) && i < |log| && j < |log|
    requires Fences(log[i], s) && Fences(log[j], s)
    ensures i == j
  {
    FenceIsNew(config, log, i, s);
    FenceIsNew(config, log, j, s);
    if i < j {
      FenceHolds(config, log, i, j, s);
    } else if j < i {
      FenceHolds(config, log, j, i, s);
    }
  }

  // ------------------------------------------------------------ crashes

  /** A run may stop after any event.  What the next process finds is what was durable there, with no live child and
      no poison, and it is again a sound world. */
  lemma CrashAnywhere(config: Config, log: seq<Event>, n: nat)
    requires Legal(config, log) && n <= |log|
    ensures Legal(config, log[..n] + [GovernorCrashed])
    ensures var w, x := At(config, log, n), Replay(config, log[..n] + [GovernorCrashed]);
            && x.judgments == w.judgments && x.outbox == w.outbox && x.sessions == w.sessions
            && x.proofs == w.proofs && x.blobs == w.blobs && x.submissions == w.submissions
            && x.processes == map[] && !x.poisoned && Sound(config, x)
  {
    LegalPrefix(config, log, n);
    LegalExtends(config, log[..n], GovernorCrashed);
    EveryPointIsSound(config, log, n);
    StepKeepsSound(config, At(config, log, n), GovernorCrashed);
  }
}
