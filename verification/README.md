# Governed-effect verification

A model, in Dafny 4.11, of the parts of this repository whose correctness spans operations, daemons and
restarts, together with proofs about it. Check it with `dafny verify dfyconfig.toml`.

## What is modelled

**The governor daemon (`agd`).** `Records`, `Kernel` and `Sessions` hold the durable records, the four-family
judgment with its reconstruction, and the worker-session lifecycle. `Governance` makes a run the list of its
durable events, broker calls and process signals, and says when each may happen; a crash is simply where a list
stops. `Invariants` and `Runs` prove what every permitted run keeps; `Promises` says what a stored forward, a rebuilt
candidate and a recorded outcome are, field by field and without the daemon's own functions. `Governor` is the single-writer core as a
class, method by method in the daemon's own order of checks and writes; outcomes it cannot choose (a failed or
commit-ambiguous append, the clock, transport, the broker, process exits) are nondeterministic. Its methods may
only append permitted events, so the run theorems hold of whatever they do and of every prefix of it. `Paging`,
`Artifacts` and `Recovery` are the cursor walk, the artifact budget and the bookkeeping of a recovery pass.
`Daemon` is startup recovery followed by the serving loop; `Scenarios` exhibits runs that end where an expected
property fails.

**Evidence sealing (`bundle.py`).** `GitTree` folds archive members into a trie and hashes it; `Manifest` builds,
validates, verifies and seals. **Derived authority and issuance.** `Derived` and `Issuance` are the two burn-once
ledgers with their validators. **The mount namespace.** `Mounts` reads mountinfo, finds the covering mount and
admits a namespace; `MountLines` is the kernel's side, the lines it writes and what reading them gives. **Framing and sizes.** `Qmp` is line framing over arbitrary chunks; `Base64` is the canonical
codec and the frame budget built on it. `Basics` and `ByteStrings` are shared vocabulary.

## How to read it

- A digest is symbolic: one constructor for each domain-separated hash, carrying the hashed material. Equal digests
  have equal content, and no two domains share a constructor. `GitTree` does not use this: there the hash is any
  function of fixed output length, and injectivity is claimed only where the computation itself shows no collision.
- The effect broker is a durable table with one answer per submission key. It may act on a call at any later time,
  also after the caller gave up or crashed.
- The configuration, and with it domain, epoch and reviewed profiles, does not change over a run.
- A store append reports failure either before or after it committed; the caller cannot tell which.
- Times are numbers drawn from outside; nothing assumes that clocks advance.
- Whether an encoding succeeds is an input where the code tests it. A burn is five digests and always encodes, so every
  failure `Derived.ValidateAndBurn` can have in the code leaves the ledger unchanged; the contract also covers a burn
  that would not encode.

## What the code does not promise

Where an expected property fails, the model keeps the code's behaviour and states exactly when the property holds.

- Issuing does not tie the request to the decision it spends: with two admissible requests for one target, either is
  issued twice (`Issuance.EitherIsIssuedTwice`; two attempts at one change are such requests,
  `Issuance.TwoAttemptsShareATarget`), and `Issuance.SubjectIsIssuedTwiceIff` says exactly when. With calls that pass
  the decision's own request the envelopes are distinct (`Issuance.HonestEnvelopesDiffer`).
- The line bound applies to the whole receive buffer, so the outcome can depend on where the chunks end. Two deliveries
  disagree on a line exactly when it ends within the bound but the fullest buffer would not fit
  (`Qmp.DeliveriesDisagreeIff`). They disagree on a whole conversation exactly when each line up to the deciding one is
  already buffered or ends within the bound, a last stretch without newline is within it too, and yet some such line
  has not that room (`Qmp.ConversationsDifferIff`). A stream with a longer line is refused under every delivery.
- A pending external forward whose artifacts do not fit is never resumed, and unless a backup cut holds it back it makes
  every recovery pass and every start an error. Such a forward is reachable (`Scenarios.StuckForwardIsReachable`); a
  forward is presented exactly when it can be carried (`Governor.AgdCore.CarryForward`,
  `Governor.AgdCore.ResumeForward`), and a pass succeeds only over forwards that can (`Daemon.RecoverStartup`).
- A cancellation whose fence committed but was reported as failed cannot be completed by repeating it: the worker may
  still run (`Scenarios.CancelledWorkerCanStillRun`), a repeat gets past the fence only with the very same reason and
  time (`Governor.AgdCore.CancelWorker`), and when the worker ends the core poisons itself
  (`Governor.AgdCore.PollWorker`).
- A form feed in a mount point is white space to the reader but is not escaped by the kernel, so the point is cut there
  and the columns behind it shift; without one every point is read back (`MountLines.PointSurvivesIff`).
- The canonical-path test lets doubled slashes and "." pieces through, because paths compare by component
  (`Mounts.CanonicalMeans`).

## Model

| member | source | states |
|---|---|---|
| Kernel.AdmissionReconstructs | crates/ag-kernel/src/authority.rs:178-215 | the commit made for an admitted evaluation rebuilds to its own digest against the books it was made from |
| Kernel.OnlyAdmissionReconstructs | crates/ag-kernel/src/authority.rs:178-232 | nothing else rebuilds: a commit that rebuilds is, field by field, the one its evidence determines, and that evidence is what evaluating the books gives |
| Kernel.RefusalsNameEveryFailure | crates/ag-kernel/src/family.rs:631-730 | an evaluation admits exactly when all four families decide for the claim; a refusal is never empty and reports exactly the families that fail, each with all its failures, and the origins that are not the standing claim's |
| Kernel.FailuresAreExact | crates/ag-kernel/src/family.rs:285-333 | a family decides for a claim exactly when it has no failure, and each failure value it reports is the case: book origin, reference origin, absent reference, other subject |
| Kernel.AdmittedVerifies | crates/ag-app/src/agd.rs:1208-1233 | the record of an admitted evaluation verifies in every store that holds it, with that commit as the admission |
| Kernel.VerifiesIff | crates/ag-app/src/agd.rs:1208-1233 | verification succeeds, with a given admission, exactly when the record is stored under its own digest, is about the given subject, admits, its four books replay and its commit is the genuine one of those books, entry by entry |
| Kernel.RejectionsSayWhy | crates/ag-app/src/agd.rs:1208-1233 | each verification error is given only when what it names is the case: absent, other subject or no books, not admitted, books that do not replay, a commit that is not genuine |
| Kernel.JudgmentsAreTrue | crates/ag-app/src/agd.rs:1111-1161 | the record of an evaluation is about the subject and books it was made for, admits exactly when each book holds what its family claims, and its commit then carries those claims |
| Kernel.WorkerJudgmentAdmits | crates/ag-app/src/agd.rs:2060-2105 | the governor's own four-family claim for a worker always admits, every claim about its subject, and its record verifies wherever it is stored |
| Sessions.Advance | crates/ag-session/src/lib.rs:880-970 | one lifecycle transition or none; whatever it yields keeps the specification and every binding a stored session must have |
| Sessions.AdvancesIff | crates/ag-session/src/lib.rs:880-970 | from a coherent record the transitions are exactly the lifecycle: prepared to active, either to fenced by its own tombstone, active to custody behind an acceptance, cleanup once, one broker outcome; the validation that closes each transition never refuses one |
| Sessions.AdvanceGrows | crates/ag-session/src/lib.rs:880-970 | no transition lifts a tombstone, replaces a receipt, changes custody or rewrites a broker outcome |
| Sessions.RebuildIsStable | crates/ag-app/src/agd.rs:928-987 | neither cleanup nor the broker outcome changes what custody rebuilds to |
| Sessions.RebuildDependsOnReview | crates/ag-app/src/agd.rs:1245-1323 | two configurations rebuild one candidate alike exactly when domain, epoch, launch lineage and the reviewed profile's effect and target agree |
| Promises.MappingRebuildsIff | crates/ag-app/src/agd.rs:1245-1323 | for any record, a proposal is rebuilt exactly from coherent custody of the reviewed type launched by this governor, and is then the profile's own effect on its own target with that content, under the governor's lineage, about the subject made of those |
| Promises.SourceRebuildsIff | crates/ag-app/src/agd.rs:928-987 | for any record, a proof is rebuilt exactly from custody fenced as accepted behind its launch receipt, under the lineage it was launched with, and is then the session's own, field by field |
| Governance.SameForward | crates/ag-app/src/agd.rs:2218-2244 | two ingresses with one forward key carry the same intent and meet the same broker key; for worker candidates they are equal |
| Invariants.StepKeepsSound | crates/ag-app/src/agd.rs:1562-1659 | every permitted durable step keeps all bindings of the world (forwards under their recomputed key with a current admission, custody bound to its proof, outcomes stored, released workers activated) and takes nothing durable back |
| Invariants.StoredOutcomeIsStable | crates/ag-app/src/agd.rs:989-1022 | an outcome found under the rebuilt key stays there while outbox and session only grow |
| Runs.EveryPointIsSound | crates/ag-app/src/agd.rs:1038-1101 | at every point of every run, crashes included, the world is sound |
| Runs.NothingIsTakenBack | crates/ag-app/src/agd.rs:1736-1761 | between any two points of a run judgments, forwards, sessions, blobs and broker records only grow |
| Runs.ForwardHistory | crates/ag-app/src/agd.rs:1562-1636 | a forward moves absent, pending, completed; source, intent and admission never change and a completed record never changes at all |
| Promises.ForwardsRestOnTheirJudgment | crates/ag-app/src/agd.rs:1511-1636 | in every reachable store each forward carries an intent that is well formed and in the daemon's context, is keyed by it, and rests on a stored judgment whose subject, and whose four claims, are made of that very intent's domain, epoch, proposer, artifacts and effects |
| Runs.RechecksNeverMismatch | crates/ag-app/src/agd.rs:1070-1075 | in every reachable store a forward recomputes to its own key and a fresh admission check returns the stored admission |
| Runs.CallsAreCovered | crates/ag-app/src/agd.rs:1511-1560 | the broker is called only after the forward was opened durably and never after it was completed |
| Runs.CompletedOnce | crates/ag-app/src/agd.rs:1736-1761 | no forward is completed twice in a run |
| Runs.RecordedOnce | crates/ag-app/src/effectd.rs:791-954 | over a whole run, restarts included, the broker records one answer per submission key |
| Promises.SubmissionsAreKeyed | crates/ag-app/src/effectd.rs:791-954 | in every reachable store each broker record is keyed by its own ingress: proposer and intent, or worker and lineage |
| Runs.CompletedForwardHasOneAct | crates/ag-app/src/agd.rs:1684-1761 | a completed forward carries the response of the single act the broker ever recorded for its key; that act came first, is for the forward's own intent and, for a worker, is its own candidate and proof |
| Runs.ExternalForwardsAreSeparate | crates/ag-app/src/agd.rs:2218-2244 | two external forwards share a broker key exactly when they share a forward key |
| Runs.WorkerForwardsAreSeparate | crates/ag-app/src/effectd.rs:830-846 | over a whole run two completed worker forwards under one broker key are the same forward |
| Runs.CustodyRebuilds | crates/ag-app/src/agd.rs:928-1022 | accepted custody rebuilds in every reachable store, and to the same ingress at every later point of the run, across restarts |
| Promises.CustodyProposesWhatWasReviewed | crates/ag-app/src/agd.rs:1245-1323 | from bytes to proposal, in every reachable store: a session with custody was launched here, holds the bytes its own worker proved under the first reviewed profile of its name, and stands for a file put or a pointer promotion, as that profile says, on that profile's target with those bytes, on a judgment of exactly that |
| Runs.RootsExtend | crates/ag-app/src/agd.rs:989-1022 | a run stays rooted, every worker forward standing for its own session's custody at every point, if each forward it goes on to open stands for custody held before |
| Runs.RootsSurviveCrash | crates/ag-app/src/agd.rs:989-1022 | a crash leaves a rooted run rooted |
| Runs.OneForwardPerSession | crates/ag-app/src/agd.rs:989-1022 | in a rooted run a session has at most one worker forward, whatever was retried, crashed or recovered; Daemon.RecoverStartup and Daemon.Serve keep runs rooted |
| Promises.WorkerForwardsAreReviewed | crates/ag-app/src/agd.rs:989-1022 | in every rooted run each stored worker forward is, field by field, what its session's bytes may propose under the reviewed profile, on its own judgment and with its own proof |
| Promises.OutcomesMatchTheOutbox | crates/ag-app/src/agd.rs:989-1022 | in every reachable store a session outcome is Canonicalized, Refused or Indeterminate of a digest exactly as the completed response under its rebuilt key is a submission, a refusal or an indeterminate one of that digest |
| Runs.GateOpensLast | crates/ag-app/src/agd.rs:474-561 | a worker's gate opens only after its session was prepared and then activated, both durably |
| Runs.ReleasedOnce | crates/ag-app/src/agd.rs:474-561 | no session is released twice, not even across restarts |
| Runs.FenceComesBeforeSignal | crates/ag-app/src/agd.rs:564-605 | a live released worker is terminated only after its tombstone was durable, and that tombstone came after the release |
| Runs.DropsAreFencedOrPoisoned | crates/ag-app/src/worker.rs:604-611 | a live worker whose handle is merely lost was fenced first, or the core had poisoned itself since its last start |
| Runs.FenceHolds | crates/ag-session/src/lib.rs:880-970 | a fenced session is fenced at every later point |
| Runs.FencedOnce | crates/ag-app/src/worker_session.rs:335-367 | a session is fenced by exactly one event: accepted or retired, never both |
| Runs.PoisonStays | crates/ag-app/src/agd.rs:1336-1345 | between two starts of the process the poison flag is never cleared |
| Runs.CrashAnywhere | crates/ag-app/src/bin/agd.rs:112-113 | a run may stop after any event: what was durable there is what the next process finds, with no child and no poison, and it is sound |
| Paging.EntityIdsAfter | crates/ag-store/src/lib.rs:1415-1453 | one page is the increasing list of the least keys after the cursor, cut off at the limit |
| Paging.PageExtendsCover | crates/ag-app/src/agd.rs:1045-1056 | moving the cursor to a page's last key extends what was visited by exactly that page, repeating nothing |
| Paging.EmptyPageEndsWalk | crates/ag-app/src/agd.rs:1048-1055 | when a page comes back empty every key was visited, each exactly once |
| Artifacts.LoadArtifactTransfers | crates/ag-app/src/agd.rs:1661-1682 | loading succeeds exactly when every artifact is in custody within its own bound and together they fit half a frame, whatever the order; the budget never underflows and each artifact is transferred once with its own bytes |
| Recovery.ResumeStep | crates/ag-app/src/agd.rs:1056-1098 | visiting one more row changes that row only, and only by settling it |
| Recovery.PassConserves | crates/ag-app/src/agd.rs:1045-1100 | after a full pass the rows open at its start are exactly the settled ones and the ones left open |
| Governor.AgdCore.TracedIsSound | crates/ag-app/src/agd.rs:256-296 | whatever the core has done, its present state is sound |
| Governor.AgdCore.KeptSince | crates/ag-app/src/agd.rs:256-296 | whatever the core did since an earlier point, nothing durable was taken back |
| Governor.AgdCore.CommitForward | crates/ag-store/src/lib.rs:1278-1330 | an append either does nothing or commits; success means committed, failure decides nothing |
| Governor.AgdCore.EvaluateAndCommit | crates/ag-app/src/agd.rs:1111-1161 | stores the evaluation's record under its own digest; an existing record is never replaced and never differs |
| Governor.AgdCore.PrepareForwardOutbox | crates/ag-app/src/agd.rs:1562-1636 | makes the forward durable and pending with this ingress, or returns the completed response without a write; no stored record ever mismatches |
| Governor.AgdCore.ReuseForward | crates/ag-app/src/agd.rs:1580-1625 | a stored forward is returned completed, reused, or re-proofed: then its proof is the new one and nothing else of it or of any other row changes |
| Governor.AgdCore.PassGates | crates/ag-app/src/agd.rs:1511-1560 | the gates let an intent through only when the core is free and the intent is well formed, in context and admitted on a judgment of that very intent, whose admission is returned; a shut gate names what is wrong or is operational; nothing is written |
| Governor.AgdCore.CompleteForwardOutbox | crates/ag-app/src/agd.rs:1736-1761 | completes the pending record with the broker's own answer and changes nothing else, or leaves the outbox as it was |
| Governor.AgdCore.EffectdSubmit | crates/ag-app/src/effectd.rs:791-954 | an exchange the broker has answered is a lookup, never a second act; a worker is answered only for its own candidate and proof |
| Governor.AgdCore.SubmitToEffectd | crates/ag-app/src/agd.rs:1684-1734 | the call is made; an answer is what the broker durably recorded, for a worker under its own ingress; any failure is a deferred one |
| Governor.AgdCore.ForwardGovernedIntent | crates/ag-app/src/agd.rs:1511-1560 | success means the forward is stored completed with that response; an intent not fit to propose, or not admitted on a judgment of that very intent, is refused and nothing changes; a completed forward is only read back, nothing changes and nothing is deferred; an error is one of the named gates or operational; no other forward is opened; a poisoned or busy core changes nothing |
| Governor.AgdCore.CarryForward | crates/ag-app/src/agd.rs:1538-1560 | the broker is called first exactly when the ingress is a worker's candidate or its artifacts fit, and otherwise the store fails and nothing changes; only this forward's row may change; deferred means untouched |
| Governor.AgdCore.TombstoneSession | crates/ag-app/src/worker_session.rs:335-367 | fences with exactly this terminal fact, keeping the receipt and the candidate; an equal repeat is idempotent, a different one is refused; nothing else changes |
| Governor.AgdCore.CompleteSessionCleanup | crates/ag-app/src/worker_session.rs:375-412 | completes cleanup behind the fence with exactly this receipt and time |
| Governor.AgdCore.TerminateProcess | crates/ag-app/src/worker.rs:515-602 | only a fenced running child is killed, and only a killed one is reaped; a failed kill leaves the child as it was, a failed reap leaves it killed, and both keep custody; a reaped one needs nothing |
| Governor.AgdCore.DropProcess | crates/ag-app/src/worker.rs:384-393 | losing a handle kills through the gate or, when running, only behind a fence or a poisoned core |
| Governor.AgdCore.FenceAndCleanup | crates/ag-app/src/agd.rs:564-605 | after it the session is fenced or the core is poisoned; success means fenced for this reason, reaped and cleaned up; a session fenced for another reason poisons, and only an unconfirmed fence poisons |
| Governor.AgdCore.RetireWorker | crates/ag-app/src/agd.rs:635-641 | the same with the handle gone, so the core is supervised again |
| Governor.AgdCore.PrepareSession | crates/ag-app/src/worker_session.rs:89-140 | adds the new session in its pristine state or recognises an exact retry; no other session changes |
| Governor.AgdCore.ActivateSession | crates/ag-app/src/worker_session.rs:190-215 | activates a prepared session or recognises the same receipt; a fenced session is never activated |
| Governor.AgdCore.AbandonActivation | crates/ag-app/src/agd.rs:488-530 | a failed activation ends fenced and cleaned up, or poisoned, with the child reaped or its handle dropped |
| Governor.AgdCore.CommitLaunch | crates/ag-app/src/agd.rs:474-561 | success means a session that did not exist is active with this specification and is the one retained worker; failure retains nothing |
| Governor.AgdCore.OpenGate | crates/ag-app/src/agd.rs:531-561 | the gate opens on an active, never released session; a missed deadline or failed release fences instead |
| Governor.AgdCore.LaunchSpec | crates/ag-app/src/agd.rs:1982-2058 | the written specification is bound to the configuration: domain, epoch, launcher, lineage, workspace, budget |
| Governor.AgdCore.LaunchWorker | crates/ag-app/src/agd.rs:342-562 | never a second worker beside a live one, never one from a poisoned core; success leaves exactly the new worker running, active under the specification the reviewed profile and the draw determine, with its launch facts retained; failure retains nothing |
| Governor.AgdCore.LaunchedWorkerIsHeard | crates/ag-app/src/agd.rs:803-904 | a worker launched under a reviewed profile has its own frame, of the reviewed type, within budget and before the deadline, found acceptable |
| Governor.AgdCore.InstallCandidate | crates/ag-app/src/worker_session.rs:229-300 | proof and bytes are installed, then the principal is exchanged for custody of exactly those bytes, proof, type and time behind a tombstone |
| Governor.AgdCore.Refusal | crates/ag-app/src/agd.rs:803-895 | no check objects exactly when the frame is acceptable, and whatever objects is a closed refusal |
| Governor.AgdCore.AcceptWorkerCandidate | crates/ag-app/src/agd.rs:803-904 | acceptance means the frame was acceptable and its bytes are in custody behind the fence; a refusal wrote nothing and is the first check that objects; any other error is the clock or the store |
| Governor.AgdCore.WorkerCandidateSource | crates/ag-app/src/agd.rs:928-987 | for custody the rebuilt proof is the session's own: its worker, lineage, ingress proof, launch receipt, custody record and acceptance time; only the store can make rebuilding fail |
| Governor.AgdCore.AdmitWorkerCandidate | crates/ag-app/src/agd.rs:1245-1323 | the intent is the effect the reviewed profile names on its target with the bytes in custody, and the judgment stored for it has four one-entry books about exactly that; for custody only operational errors remain |
| Governor.AgdCore.RebuiltSourceHolds | crates/ag-app/src/agd.rs:1435-1500 | what custody rebuilds to passes every check the governor makes before forwarding it |
| Governor.AgdCore.ForwardWorkerCandidate | crates/ag-app/src/agd.rs:1435-1509 | a proof that is not the durable one, or whose bindings disagree, is refused and nothing changes; otherwise the governed forward's promises hold |
| Governor.AgdCore.RecordOutcome | crates/ag-app/src/worker_session.rs:424-449 | records the outcome stored in the outbox once; a different later one is refused |
| Governor.AgdCore.ForwardCustodied | crates/ag-app/src/agd.rs:989-1022 | ends with the outcome recorded, Canonicalized, Refused or Indeterminate exactly as the stored response was; a recorded outcome is returned without a write; a forward already completed is not sent again; no check on the rebuilt material can fail |
| Governor.AgdCore.PollExit | crates/ag-app/src/agd.rs:642-697 | a clean exit ends with custody of exactly the frame's bytes, cleaned up and carried to an outcome unless deferred, or fenced with the reason of the first check that objects, or in a poisoned core; never as supervisor-busy |
| Governor.AgdCore.PollWorker | crates/ag-app/src/agd.rs:622-697 | a worker that is not pending leaves the table; a failed one is fenced with exactly the reason its poll calls for, stated of the poll itself; an accepted one had an acceptable frame whose bytes are in custody; a retained worker already fenced as cancelled ends in a poisoned core |
| Governor.AgdCore.ReasonsTellTheFault | crates/ag-app/src/agd.rs:1815-1832 | for each of the reasons a clean exit can be fenced with, it is given exactly when it is true of the exit and no earlier check objects: expiry, launch facts that do not match, a malformed or unauthenticated frame, another session or nonce, a changed profile, another type, or more bytes than the budget with the observed size |
| Governor.AgdCore.AcceptableMeans | crates/ag-app/src/agd.rs:803-895 | a frame is acceptable exactly when the session is live, unexpired and bound to the retained launch facts, and the signed frame names it, carries its nonce, and fits the first reviewed profile of its name in type and budget |
| Governor.AgdCore.PollWorkers | crates/ag-app/src/agd.rs:619-699 | every retained worker is counted exactly once: pending are the ones still retained, accepted the ones now fenced as accepted, failed the ones fenced otherwise, deferred the accepted ones whose candidate still waits; no error is supervisor-busy |
| Governor.AgdCore.CancelWorker | crates/ag-app/src/agd.rs:709-738 | success means fenced with the tombstone of this session, reason and time, stopped and cleaned up; without a retained process it fails after fencing; a session fenced with any other tombstone, retained or not, makes it an error that changes nothing |
| Scenarios.CancelledWorkerCanStillRun | crates/ag-app/src/agd.rs:709-738 | a run reaches a session fenced as cancelled whose released worker still runs in an unpoisoned core, and only a cancellation with the same reason and time carries that tombstone |
| Governor.AgdCore.ResumeForward | crates/ag-app/src/agd.rs:1056-1098 | a completed forward is left alone; a pending one under a backup cut is put off unchanged, one that can be carried is presented to the broker and completed or untouched, and one that cannot is an error that changes nothing; the recheck never mismatches |
| Scenarios.StuckForwardIsReachable | crates/ag-app/src/agd.rs:1538-1560 | for every configuration and every proposer in its context a run ends with that proposer's own well-formed, admitted, pending external forward, which cannot be carried |
| Governor.AgdCore.RecoverForwardOutbox | crates/ag-app/src/agd.rs:1038-1101 | the pass visits every stored forward once; on success each one pending at the start is either completed and counted, or untouched and counted as deferred, and every one not held back by a cut could be carried |
| Governor.ForwardsAddUp | crates/ag-app/src/agd.rs:1045-1100 | completed plus deferred is the number of forwards pending at the start, and deferred is the number pending now |
| Governor.AgdCore.RecoverWorkerSessions | crates/ag-app/src/worker_session.rs:459-498 | on success every session is fenced, the newly fenced ones are those that were not, all are counted, and only then is the core supervised |
| Governor.AgdCore.RecoverWorkerCandidates | crates/ag-app/src/agd.rs:747-801 | each candidate awaiting an outcome is counted as canonicalized, refused or indeterminate exactly when the stored response of its forward is a submission, a refusal or an indeterminate one, or as deferred when it still waits; no other session moves and no fence is lifted |
| Governor.CandidatesAddUp | crates/ag-app/src/agd.rs:756-800 | the four counters together are the number of candidates that awaited an outcome when the pass began |
| Governor.AgdCore.ForwardIntent | crates/ag-app/src/agd.rs:1398-1425 | an external proposal speaks only for the authenticated proposer's own chain |
| Governor.AgdCore.HandleControl | crates/ag-app/src/agd.rs:1336-1396 | a poisoned core only answers questions, a busy one neither launches nor forwards, and both leave everything unchanged; each success means what the request asked for is durable; the run stays rooted |
| Governor.AgdCore.Reopen | crates/ag-app/src/agd.rs:277-297 | a core opened over what any run left behind has the durable state of that point and nothing volatile, and a rooted run stays rooted |
| Daemon.RecoverStartup | crates/ag-app/src/bin/agd.rs:160-205 | after a successful start every session is fenced and counted, nothing is retained and the core is supervised; each of the three reports counts exactly its own pass; a pending forward that cannot be carried and is not cut fails every start; the run stays rooted |
| Daemon.Serve | crates/ag-app/src/bin/agd.rs:132-157 | over any inputs at most one worker is live and every unfenced session is that worker's; once poisoned the store and the processes are left alone; the run stays rooted, so no session gets a second worker forward |
| Daemon.LiveOn | crates/ag-app/src/bin/agd.rs:112-205 | from the empty store, over any number of lives that each start, recover, serve and die after any of their events, the run is permitted and rooted throughout, no session has two worker forwards, and the present core is supervised while it serves |
| GitTree.SameKindsSameTrie | qualification/clean-host/bundle.py:2812-2835 | a trie is determined by what stands at its paths |
| GitTree.PlaceDescribes | qualification/clean-host/bundle.py:2820-2922 | placing a member succeeds exactly when no file is in the way, and then changes its own path and its ancestors only |
| GitTree.FoldDescribes | qualification/clean-host/bundle.py:2838-2924 | the fold accepts exactly the collections in which no file stands at or above another member, and builds a trie holding every member, every directory implied or declared, and nothing else |
| GitTree.CandidateArchiveTrie | qualification/clean-host/bundle.py:2797-2924 | the archive loop accepts exactly the archives whose members are each sound, fit the container and each other, and leave something below the prefix; the result describes the members |
| GitTree.OffersAre | qualification/clean-host/bundle.py:2875-2921 | a member offers a directory, a file with its bytes, executable exactly when any of the three execute bits is set, or a symlink with its target; a short read, a NUL in a target and anything else offer nothing |
| GitTree.BlobsAreGits | qualification/clean-host/bundle.py:2814-2818 | files and symlinks are kept by the hash of "blob", a space, the length in decimal, a NUL and the payload |
| GitTree.LocatedIff | qualification/clean-host/bundle.py:2841-2872 | a member goes to a path exactly when its name without one final slash is relative, its components are the prefix and that path, none climbs and none below the prefix holds a NUL; only a directory goes to the prefix itself |
| GitTree.AcceptedIff | qualification/clean-host/bundle.py:2797-2924 | an archive is accepted exactly when it has 1 to 536870912 bytes, every member is readable and goes somewhere, its files hold no more bytes than the archive, no file stands at or above another member's path, and something is below the prefix |
| GitTree.OrderDoesNotMatter | qualification/clean-host/bundle.py:2820-2924 | any two orders of the same members are both refused, or both accepted with one and the same trie |
| GitTree.AcceptedIsClean | qualification/clean-host/bundle.py:2866-2872 | every name in an accepted trie is nonempty and free of NUL and slash |
| GitTree.SortNamesAreDistinct | qualification/clean-host/bundle.py:2928-2936 | the sort name gives the entry's name back, so no two entries of a directory sort alike |
| GitTree.ComputeTreeId | qualification/clean-host/bundle.py:2926-2942 | collecting entries in any dictionary order, sorting, joining and hashing gives the id Git gives the tree, at every level: the hash of "tree", a space, the decimal length, a NUL and the rows |
| GitTree.TreeIdIsGits | qualification/clean-host/bundle.py:2926-2942 | the id is Git's: rows are "40000", "100755", "100644" or "120000", a space, the name, a NUL and the child's id, listed bytewise with a directory's name followed by a slash |
| GitTree.EntriesAreTold | qualification/clean-host/bundle.py:2937-2942 | two entry listings with the same bytes list the same names with the same modes and ids |
| GitTree.TreeIdsAreInjective | qualification/clean-host/bundle.py:2814-2818 | with no collision among the byte strings hashed for the two tries, their ids are equal exactly when they are equal as nested maps |
| GitTree.OneIdOneShape | qualification/clean-host/bundle.py:2926-2942 | equal ids exactly when the same files, symlinks and directories stand at the same paths |
| GitTree.AcceptedTriesQualify | qualification/clean-host/bundle.py:2838-2942 | the injectivity law applies to every accepted archive |
| GitTree.KindIsHeld | qualification/clean-host/bundle.py:2838-2924 | the trie of an archive has at each path what the archive's members declare or imply there, payloads replaced by their ids |
| GitTree.OneIdOneContents | qualification/clean-host/bundle.py:2797-2942 | two accepted archives have one tree id exactly when they have the same directories, and files and symlinks with the same modes and payloads, at the same paths, unless byte strings hashed for the two collide |
| ByteStrings.ListingIsUnique | qualification/clean-host/bundle.py:2937-2941 | a set of names has one increasing listing, so the sorting algorithm does not show |
| ByteStrings.BelowMeans | qualification/clean-host/bundle.py:2937-2941 | one text is below another exactly when it ends or has the smaller byte where they first differ |
| ByteStrings.DecimalMeans | qualification/clean-host/bundle.py:2814-2818 | decimal digits read from the left give the number back, and no longer numeral begins with a zero |
| Manifest.ManifestIsUnique | qualification/clean-host/bundle.py:1220-1238 | a bundle has at most one manifest |
| Manifest.ChangesAreCaught | qualification/clean-host/bundle.py:1297-1322 | a manifest that seals one bundle seals another exactly when the covered paths are the same and the contents agree in digest and length |
| Manifest.BuildManifest | qualification/clean-host/bundle.py:1220-1238 | a manifest is built exactly when every walked name is plain; it has the frozen header and is the increasing list of the covered files, each with the digest and length of its content |
| Manifest.ValidateManifest | qualification/clean-host/bundle.py:1241-1276 | valid exactly when the header is the frozen one, every path is plain, every digest is "sha256:" and 64 lower-case hexadecimal digits, no length is negative, none of the three result files is listed and the paths are strictly increasing |
| Manifest.PathPassesIff | qualification/clean-host/bundle.py:465-478 | the path test, made on text, components and normalized form, accepts exactly the texts whose slash-separated pieces all name something below the root |
| Manifest.DigestFormIff | qualification/clean-host/bundle.py:1241-1276 | the digest test accepts exactly "sha256:" followed by 64 lower-case hexadecimal digits |
| Manifest.VerifyPass | qualification/clean-host/bundle.py:1297-1322 | a pass succeeds exactly when nothing is missing, nothing is extra and every digest and length is as declared |
| Manifest.VerifyManifestCoverage | qualification/clean-host/bundle.py:1325-1332 | verification accepts exactly when the entries are sound and the manifest seals what each of the two readings found |
| Manifest.SealBundle | qualification/clean-host/bundle.py:1279-1294 | sealing succeeds exactly when no result file exists, every name passes and every digest has its form; it then adds only the manifest, and the sealed bundle verifies; otherwise nothing is written |
| Manifest.ResultsAreNotCovered | qualification/clean-host/bundle.py:48-52 | writing, changing or removing a result file never breaks a seal |
| Mounts.EscapesAreOctal | crates/ag-app/src/effectd_activation.rs:1078-1083 | an escape is a backslash and the three octal digits of a space, tab, newline or backslash; no other byte is escaped |
| Mounts.DecodingInvertsEscaping | crates/ag-app/src/effectd_activation.rs:1059-1093 | on a field without raw separators decoding accepts exactly the escaped texts and gives each its original back |
| Mounts.DecodeMountField | crates/ag-app/src/effectd_activation.rs:1059-1093 | the decoder's loop computes the specified decoding, truncated and unknown escapes refused |
| Mounts.CanonicalMeans | crates/ag-app/src/effectd_activation.rs:1155-1165 | the canonical-path test accepts exactly the texts that begin with a slash and have no parent piece; doubled slashes pass |
| MountLines.PathIsItsNames | crates/ag-app/src/effectd_activation.rs:1155-1165 | a canonical path is the root and the names between its slashes, empty and dot pieces left out |
| Mounts.ParseMountInfo | crates/ag-app/src/effectd_activation.rs:1005-1057 | a table is read exactly when the text is UTF-8 without NUL or carriage return, every line parses and neither an id nor a mount point repeats; it lists the lines' mounts, with distinct canonical points |
| MountLines.LineIsRead | crates/ag-app/src/effectd_activation.rs:1018-1050 | any line is read exactly as it says: the first " - " parts it; of the words before it the first is the id, a numeral of the 64-bit range other than zero, the fifth an escaped canonical mount point and the sixth the comma-separated options, and of those behind it the third the file system's options; a line that does not say this is refused |
| MountLines.RenderedIsRead | crates/ag-app/src/effectd_activation.rs:1018-1050 | a line the kernel writes, with any parent, device, root, tags, type and source, is read as exactly its id, its mount point and its two sets of options, and is refused exactly for an id outside 1 to 2^64-1 or a point that is not canonical |
| MountLines.PointSurvivesIff | crates/ag-app/src/effectd_activation.rs:1023-1035 | a canonical mount point is read back exactly when it holds neither form feed nor carriage return, which the reader takes for white space and the kernel does not escape |
| MountLines.WrittenIsRead | crates/ag-app/src/effectd_activation.rs:1005-1057 | the text the kernel writes for a list of mounts is readable exactly when the ids are in range, the points canonical and neither repeats; it then lists exactly those mounts, in order |
| MountLines.LinesAre | crates/ag-app/src/effectd_activation.rs:1018-1018 | the lines of any text are those ended by a newline and what follows the last of them, if anything does |
| MountLines.IdsAreNumerals | crates/ag-app/src/effectd_activation.rs:1030-1034 | an id is read exactly from a numeral of the 64-bit range, one plus sign in front allowed |
| Mounts.DecimalIdIsRead | crates/ag-app/src/effectd_activation.rs:1030-1034 | an id written in decimal is read back up to the 64-bit range and refused beyond it |
| Mounts.CoveringIsUnique | crates/ag-app/src/effectd_activation.rs:1139-1153 | a path has at most one covering mount |
| Mounts.CoveringMount | crates/ag-app/src/effectd_activation.rs:1139-1153 | the result covers the path and is the unique deepest mount that does; it exists exactly when some mount covers |
| Mounts.ValidateMountNamespace | crates/ag-app/src/effectd_activation.rs:1095-1127 | accepts exactly the closed profile: required roots writable, protected roots read-only, nothing else writable |
| Mounts.EveryPathIsCovered | crates/ag-app/src/effectd_activation.rs:1109-1116 | an admitted namespace covers every absolute path |
| Mounts.WritesAreConfined | crates/ag-app/src/effectd_activation.rs:1117-1137 | for every path outside the write roots the covering mount is not writable |
| Mounts.FiniteCheckIsExact | crates/ag-app/src/effectd_activation.rs:1117-1137 | the condition on the listed mounts holds exactly when every path outside the write roots is covered by a mount that is not writable |
| Mounts.AdmitMountInfo | crates/ag-app/src/effectd_activation.rs:315-316 | from the text to every path: admitted exactly when the text is readable, required roots are writable, protected roots read-only and writes confined; then every absolute path outside the write roots has one covering mount among those listed, which is not writable |
| MountLines.AdmissionIs | crates/ag-app/src/effectd_activation.rs:1095-1137 | for what the kernel wrote: admitted exactly when the mounts make a table, each required root is under a deepest mount with "rw" in both option lists, "/", "/usr", "/boot", "/etc" and "/srv" are under one with "ro", and no absolute path outside the required roots, "/dev", "/proc", "/sys", "/tmp" and "/var/tmp" is under one with "rw" |
| Derived.CheckSpecimens | crates/ag-app/src/derived.rs:737-757 | accepted exactly when the results are the catalogue in some order, each as expected; a set mismatch and a failed specimen are each reported only when they are the case; the closing size test cannot fail |
| Derived.CheckRequest | crates/ag-app/src/derived.rs:509-546 | no refusal exactly when scope, time, proposal, context, catalog, effects, adapter and verifier all qualify; the refusal given names a fault that is there |
| Derived.AreSeparate | crates/ag-primitives/src/identity.rs:611-652 | the separation test, root, descent, shared worker and shared principal in turn, accepts exactly lineages of one context with no principal in common |
| Derived.AuthorizationsAreOneTime | crates/ag-app/src/derived.rs:399-416 | over any run of calls no receipt, proposal or nonce is spent twice |
| Derived.RunKeepsBooks | crates/ag-app/src/derived.rs:888-926 | receipts, proposals, nonces and total uses stay equal in number, each burned call adds one to each, and no scope exceeds its uses |
| Derived.MemoryBurns.BurnOnce | crates/ag-app/src/derived.rs:895-925 | burns the four keys together or none, in the store's order of checks, and keeps the books balanced |
| Derived.ValidateAndBurn | crates/ag-app/src/derived.rs:495-594 | refused exactly when request or receipt does not qualify, with a fault that is there; otherwise the result is that of exactly one burn; an authorization spends exactly its burn, and a failed call leaves the ledger unchanged exactly unless the burn it made would not encode |
| Derived.ValidateAll | crates/ag-app/src/derived.rs:495-594 | over any sequence of calls authorizations have pairwise distinct receipts, proposals and nonces, and a scope authorizes at most its uses; when the burns encode, the ledger grew by exactly the authorized ones |
| Issuance.UnderIsComponentwise | crates/ag-app/src/docket_issuance.rs:598-609 | the string test holds exactly when the prefix's slash-split begins the path's slash-split |
| Issuance.MatchRequest | crates/ag-app/src/docket_issuance.rs:172-180 | the first catalog entry that serves the request, none before it serving, or none when no entry does |
| Issuance.BlankIff | crates/ag-app/src/docket_issuance.rs:575-577 | a principal is blank exactly when it is UTF-8 for characters with the White_Space property alone |
| Issuance.Decide | crates/ag-app/src/docket_issuance.rs:566-621 | admits exactly the admissible requests, every path of which extends an admitted prefix component by component; a refusal is the first objection in order and is the case; the decision is that of request, context and target |
| Issuance.DecisionLedger.Consume | crates/ag-app/src/docket_issuance.rs:464-485 | burns a decision once; a second burn and a failed encoding change nothing |
| Issuance.Issue | crates/ag-app/src/docket_issuance.rs:631-707 | burns first; a body that cannot be produced leaves the decision spent; an envelope is signed by the key it names over its own body, whose identity is that of its contents and whose use is the one recorded |
| Issuance.UsesNeverChange | crates/ag-app/src/docket_issuance.rs:464-485 | over any run a recorded use stays what it is |
| Issuance.OneBurnPerDecision | crates/ag-app/src/docket_issuance.rs:631-707 | after a call burned a decision every later call on it is refused, even when it produced no envelope |
| Issuance.OneEnvelopePerDecision | crates/ag-app/src/docket_issuance.rs:631-707 | at most one envelope per decision over any run |
| Issuance.SucceedsIff | crates/ag-app/src/docket_issuance.rs:631-707 | any call of any run succeeds exactly when its encodings do and no earlier call burned its decision |
| Issuance.HonestEnvelopesDiffer | crates/ag-app/src/docket_issuance.rs:610-621 | when calls pass the request their decision was made from, no two envelopes are for the same request, context and target |
| Issuance.SubjectIsIssuedTwiceIff | crates/ag-app/src/docket_issuance.rs:610-650 | two calls of any run, under decisions one office made for two requests, issue one subject twice exactly when they pass one request, the decisions share a target but were made for different requests, and nothing else spent them: issuing does not tie the request to the decision |
| Issuance.EitherIsIssuedTwice | crates/ag-app/src/docket_issuance.rs:610-707 | with any two admissible requests for one target either is issued twice, under its own decision and under the other's |
| Qmp.QmpConnection.Receive | qualification/clean-host/vm_fixture.py:758-777 | line, newline, buffer and undelivered stream together are what was there; the bound is reported only with the buffer over it, the end only when no line is left |
| Qmp.EveryDeliveryAcceptedIff | qualification/clean-host/vm_fixture.py:759-769 | from any buffer, every delivery of a text gets its line through exactly when the line is already there, or its newline position plus one receive, or else the whole text, is within the bound |
| Qmp.SomeDeliveryAcceptedIff | qualification/clean-host/vm_fixture.py:759-769 | from any buffer, some delivery does exactly when the line is already there or ends within the bound |
| Qmp.DeliveriesDisagreeIff | qualification/clean-host/vm_fixture.py:759-769 | so two deliveries of one text disagree exactly when the line ends within the bound but the fullest buffer does not fit |
| Qmp.EveryDeliveryAnsweredIff | qualification/clean-host/vm_fixture.py:785-805 | from any buffer, every delivery of a stream gives the reply its bytes determine exactly when there is room: each line up to the deciding one is already there or has room for the fullest buffer |
| Qmp.SomeDeliveryAnsweredIff | qualification/clean-host/vm_fixture.py:785-805 | from any buffer, some delivery does exactly when each of those lines is already there or ends within the bound |
| Qmp.ConversationsDifferIff | qualification/clean-host/vm_fixture.py:785-805 | two deliveries of one stream end a conversation differently exactly when its lines fit but have no room |
| Qmp.ReceiveReply | qualification/clean-host/vm_fixture.py:785-805 | unless the bound is hit the reply is the one the bytes determine and their lines fit, under any delivery and from any buffer; the bound is reported only when there is no room and the buffer is over it; transcript plus unread bytes are what was there, but for a malformed line |
| Base64.EncodedDecodes | crates/ag-app/src/api.rs:83-106 | decoding undoes encoding for all bytes |
| Base64.EncodesInGroups | crates/ag-app/src/api.rs:83-91 | each group of three bytes, as one number, is written as its four base-64 digits in the standard alphabet, and digits that hold no bit of the input are written as padding |
| Base64.AcceptsExactlyEncodings | crates/ag-app/src/api.rs:92-106 | reading accepts exactly the encodings, each for its own bytes, for any decoder that undoes encoding |
| Base64.LengthFormulasAgree | crates/ag-app/src/config.rs:1320-1322 | both length formulas give the encoded length or overflow, on the same 64-bit inputs |
| Base64.ValidateWorkerProfiles | crates/ag-app/src/config.rs:875-920 | accepts exactly a list of 1 to 1024 distinct profiles, each well named and, in plain arithmetic, within session, clock, artifact and frame limits |
| Base64.CandidatesFitTheFrame | crates/ag-app/src/config.rs:908-915 | every candidate within an accepted budget encodes, with the reserve, into one control frame without overflow, and no deadline outlives a session |
| Base64.ProviderContentFits | crates/ag-app/src/config.rs:1275-1286 | the provider's bound is the same bound and content within it fits the frame |
| Base64.ProviderFitsIff | crates/ag-app/src/config.rs:1275-1286 | the provider's test is the plain inequality: four thirds rounded up plus 131072 within the frame, no overflow ever deciding |

## Left out

- Signatures, hashing, canonical JSON and their failure modes: digests and signatures are symbolic and encodings ideal, except where an encoding failure changes what is durable.
- Process spawning, sandboxing, pipes, sockets and the launcher's evidence: a launch draws them as one value and their failures are nondeterministic.
- Backup cuts: which stored forwards a cut holds back is an input of recovery; elsewhere quiescence is a nondeterministic refusal at the points where the daemon asks for it.
- The broker's compiler, proposals and custody: only its one-answer-per-key table is modelled.
- Judgments committed as indeterminate and the health report's fields: they add no obligation.
- The principal index beside each session: preparing a session writes both rows in one transaction, and the model keeps one.
- Sandbox, runtime-root and workspace checks of the worker launcher; endpoint checks of the provider configuration: closed lists of field tests. What a policy token, a project id or a target id is, is taken as given.
- Field-by-field schema validators, the clean-host matrix, receipts and continuation records: many branches over a fixed domain.
- What UTF-8 is, and surrogate escapes: names and texts are byte strings, and the mount table takes the test as given.
- Deadlines of the QMP connection: a timeout ends a receive with an error and changes nothing proved here.
- GitTree.CandidateArchiveTrie: the nested dictionaries are values, so filling them in place and sharing between them are not captured.
