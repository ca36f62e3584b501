/** The daemon around the core: recovery before anything is served, then one loop of polls and requests. */
module Daemon {
  import opened Records
  import opened Governance
  import opened Invariants
  import opened Runs
  import opened Paging
  import opened Recovery
  import opened Governor

  /** What reaches the single writer, in the order it is taken up; in between, the broker may act on a call that the
      writer has long given up on. */
  datatype Input =
    | Tick(polls: SessionId -> Poll, at: nat)
    | Control(request: Request, challenge: nat, peer: Chain, draw: Draw, at: nat)
    | BrokerActs(ingress: Ingress)

  datatype Startup = Startup(retired: RetirementReport, forwards: ForwardReport, candidates: CandidateReport)

  /** The second and third pass: forwards are resumed, then candidates carried on.  `resumed` is the outbox in between. */
  method ResumeWork(core: AgdCore, cut: Digest -> bool)
    returns (r: Result<(ForwardReport, CandidateReport)>, ghost resumed: Outbox)
    requires core.Traced() && core.active == map[] && !core.poisoned
    requires TotalOrder(core.forwardOrder) && TotalOrder(core.sessionOrder)
    modifies core`judgments, core`outbox, core`sessions, core`submissions, core`presented, core`log
    ensures core.Traced() && old(core.log) <= core.log && core.sessions.Keys == old(core.sessions).Keys
    ensures forall s :: Fenced(old(core.sessions), s) ==> Fenced(core.sessions, s)
    ensures Rooted(core.config, old(core.log)) ==> Rooted(core.config, core.log)
    ensures r.Ok? ==>
              && ForwardTally(old(core.outbox), resumed, old(core.outbox).Keys, r.value.0)
              && CandidateTally(old(core.sessions), core.sessions, old(core.sessions).Keys, r.value.1)
              && OutboxKept(resumed, core.outbox)
              && AllCarriable(core.config, core.blobs, old(core.outbox), old(core.outbox).Keys, cut)
    ensures r.Err? ==> r.error in {Clock, SessionStoreFailure, StoreFailure, Quiesced, TransportFailure, BrokerFailure}
  {
    hide AgdCore.Traced, AgdCore.CountsAnswers, ForwardTally, CandidateTally, AllCarriable, Rooted, StandsFor, OutboxKept,
         SessionsKept, JudgmentsKept, SubmissionsKept;
    var forwards := core.RecoverForwardOutbox(cut);
    core.StillRooted();
    resumed := core.outbox;
    label Resumed:
    if forwards.Err? {
      r := Err(forwards.error);
      return;
    }
    var candidates := core.RecoverWorkerCandidates();
    if candidates.Err? {
      r := Err(candidates.error);
      return;
    }
    core.KeptSince@Resumed();
    r := Ok((forwards.value, candidates.value));
  }

  /** Sessions are retired first, forwards resumed second, candidates last; any failure ends the start.  Each counter
      is the count of its own pass, between the stores that pass began and ended with: `fenced` are the sessions and
      `resumed` is the outbox as the middle of the start left them.  A pending forward that cannot be carried and is
      not held back by a backup cut fails every start. */
  method RecoverStartup(core: AgdCore, cut: Digest -> bool, at: nat)
    returns (r: Result<Startup>, ghost fenced: SessionTable, ghost resumed: Outbox)
    requires core.Traced() && core.Restarted() && TotalOrder(core.forwardOrder) && TotalOrder(core.sessionOrder)
    modifies core
    ensures core.Traced() && old(core.log) <= core.log
    ensures Rooted(core.config, old(core.log)) ==> Rooted(core.config, core.log)
    ensures r.Ok? ==>
              && core.Supervised() && core.active == map[] && !core.poisoned
              && (forall s :: s in core.sessions ==> Fenced(core.sessions, s))
              && core.sessions.Keys == old(core.sessions).Keys
              && r.value.retired.tombstoned + r.value.retired.alreadyTerminal == |core.sessions.Keys|
              && r.value.retired.tombstoned == |LeftOpen(IsLive, old(core.sessions), old(core.sessions).Keys)|
    ensures r.Ok? ==>
              && RetirementTally(old(core.sessions), fenced, old(core.sessions).Keys, r.value.retired)
              && ForwardTally(old(core.outbox), resumed, old(core.outbox).Keys, r.value.forwards)
              && CandidateTally(fenced, core.sessions, fenced.Keys, r.value.candidates)
              && OutboxKept(resumed, core.outbox)
    ensures r.Ok? ==> AllCarriable(core.config, old(core.blobs), old(core.outbox), old(core.outbox).Keys, cut)
    ensures r.Err? ==> r.error in {Clock, SessionStoreFailure, StoreFailure, Quiesced, TransportFailure, BrokerFailure}
  {
    hide AgdCore.Traced, AgdCore.Supervised, ForwardTally, CandidateTally, RetirementTally, AllCarriable, Rooted,
         StandsFor, OutboxKept;
    resumed := core.outbox;
    var retired := core.RecoverWorkerSessions(at);
    core.StillRooted();
    fenced := core.sessions;
    if retired.Err? {
      r := Err(retired.error);
      return;
    }
    var work;
    work, resumed := ResumeWork(core, cut);
    if work.Err? {
      r := Err(work.error);
      return;
    }
    core.FencedIsSupervised();
    r := Ok(Startup(retired.value, work.value.0, work.value.1));
  }

  /** A poisoned core's store and processes are left alone. */
  twostate predicate LeftAlone(core: AgdCore)
    reads core
  {
    old(core.poisoned) ==>
      && core.poisoned && core.judgments == old(core.judgments) && core.outbox == old(core.outbox)
      && core.sessions == old(core.sessions) && core.processes == old(core.processes)
  }

  /** One input; only a failed supervisor pass is an error of the daemon itself. */
  method TakeUp(core: AgdCore, input: Input) returns (r: Result<()>)
    requires core.Traced() && core.Supervised()
    modifies core
    ensures core.Traced() && core.Supervised() && old(core.log) <= core.log && LeftAlone(core)
    ensures Rooted(core.config, old(core.log)) ==> Rooted(core.config, core.log)
    ensures r.Err? ==> input.Tick? && core.PollError(r.error)
  {
    hide AgdCore.Traced, Rooted;
    match input {
      case Tick(polls, at) =>
        var polled := core.PollWorkers(polls, at);
        return if polled.Ok? then Ok(()) else Err(polled.error);
      case Control(request, challenge, peer, draw, at) =>
        var reply := core.HandleControl(request, challenge, peer, draw, at);
      case BrokerActs(ingress) =>
        if ingress in core.presented && IngressIntent(ingress).Some? {
          var answer := core.EffectdSubmit(ingress);
          core.StillRooted();
        }
    }
    return Ok(());
  }

  /** Serves until the inputs end or a supervisor pass fails.  At every step at most one worker is live and every
      unfenced session is that worker's; once the core is poisoned its store and its processes are left alone; and a
      session never has a second worker's forward. */
  method Serve(core: AgdCore, inputs: seq<Input>) returns (r: Result<()>)
    requires core.Traced() && core.Supervised()
    modifies core
    ensures core.Traced() && core.Supervised() && old(core.log) <= core.log && LeftAlone(core)
    ensures Rooted(core.config, old(core.log)) ==> Rooted(core.config, core.log)
    ensures r.Err? ==> core.PollError(r.error)
  {
    hide AgdCore.Traced, Rooted;
    var i := 0;
    while i < |inputs|
      invariant i <= |inputs| && core.Traced() && core.Supervised() && old(core.log) <= core.log && LeftAlone(core)
      invariant Rooted(core.config, old(core.log)) ==> Rooted(core.config, core.log)
    {
      r := TakeUp(core, inputs[i]);
      if r.Err? {
        return;
      }
      i := i + 1;
    }
    return Ok(());
  }

  /** One life of the process: what its start and its loop meet, and after how many of its events it dies. */
  datatype Life = Life(cut: Digest -> bool, at: nat, inputs: seq<Input>, dies: nat)

  /** Opens the store a run left behind, recovers, and only then serves. */
  method Live(config: Config, forwardOrder: (Digest, Digest) -> bool, sessionOrder: (SessionId, SessionId) -> bool,
              history: seq<Event>, life: Life)
    returns (core: AgdCore, serving: bool)
    requires TotalOrder(forwardOrder) && TotalOrder(sessionOrder) && Rooted(config, history)
    ensures fresh(core) && core.config == config && core.Traced() && history + [GovernorCrashed] <= core.log
    ensures Rooted(config, core.log)
    ensures serving ==> core.Supervised()
  {
    RootedIsLegal(config, history);
    hide AgdCore.Traced, Rooted;
    core := new AgdCore.Reopen(config, forwardOrder, sessionOrder, Replay(config, history), history);
    var started, fenced, resumed := RecoverStartup(core, life.cut, life.at);
    serving := started.Ok?;
    if serving {
      var ended := Serve(core, life.inputs);
    }
  }

  lemma RootedIsLegal(config: Config, log: seq<Event>)
    requires Rooted(config, log)
    ensures Legal(config, log)
  {
  }

  /** Every moment there is: any number of lives from the empty store on, each dying after any of its events, and the
      present one wherever its inputs have brought it.  The run is permitted and rooted throughout, so no session ever
      has two worker forwards; and while it serves, the present core is supervised. */
  method LiveOn(config: Config, forwardOrder: (Digest, Digest) -> bool, sessionOrder: (SessionId, SessionId) -> bool,
                past: seq<Life>, present: Life)
    returns (core: AgdCore, serving: bool)
    requires TotalOrder(forwardOrder) && TotalOrder(sessionOrder)
    ensures fresh(core) && core.config == config && core.Traced() && Rooted(config, core.log)
    ensures serving ==> core.Supervised()
    ensures OneForwardEach(core.outbox)
  {
    hide AgdCore.Traced, AgdCore.Supervised, Rooted;
    EmptyRunIsRooted(config);
    var history: seq<Event> := [];
    var i := 0;
    while i < |past|
      invariant i <= |past| && Rooted(config, history)
    {
      core, serving := Live(config, forwardOrder, sessionOrder, history, past[i]);
      var death := if |history| + past[i].dies < |core.log| then |history| + past[i].dies else |core.log|;
      RootsSurviveCrash(config, core.log, death);
      history := core.log[..death];
      i := i + 1;
    }
    core, serving := Live(config, forwardOrder, sessionOrder, history, present);
    core.RootedHasOneForwardEach();
  }
}
