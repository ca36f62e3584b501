/** One-time authority derived from a pinned verifier's receipt, and the ledger that burns it.

Identities are symbolic digests: equal identities have equal content.
*/
module Derived {
  import opened Basics

  datatype Id =
    | Raw(name: nat)
    | OfScope(scope: ScopeBody)
    | OfProposal(proposal: ProposalBody)
    | OfCatalogue(expected: map<Id, Expected>)
    | OfRequest(request: VerifierRequest)
    | OfReceipt(receipt: ReceiptBody)
    | OfChain(chain: Lineage)
    | OfBurn(burn: Burn)

  datatype Expected = ExpectEntailed | ExpectNotEntailed
  datatype Outcome = Entailed | NotEntailed | Unknown

  datatype PrincipalNode = PrincipalNode(principal: Id, isWorker: bool, isService: bool)
  datatype Lineage = Lineage(domain: nat, epoch: nat, root: PrincipalNode, below: seq<PrincipalNode>)

  /** The schema names that are compared; any other text is `OtherSchema`. */
  datatype Schema = ScopeV1 | ReceiptV1 | EffectV1 | EffectCatalogV1 | OtherSchema(text: string)

  /** A verifier executable under its launch profile. */
  datatype Pinned = Pinned(executable: Id, size: nat, profile: Id)

  datatype ScopeBody = ScopeBody(
    schema: Schema, domain: nat, epoch: nat, catalog: Id, targets: set<nat>, verifier: Pinned, semantics: Id,
    specimens: map<Id, Expected>, adapterRoots: set<Id>, notBefore: nat, expires: nat, maxUses: U32)

  datatype Scope = Scope(digest: Id, body: ScopeBody)

  datatype EffectItem = EffectItem(isCodePromotion: bool, target: nat)
  datatype ProposalBody = ProposalBody(schema: Schema, catalogSchema: Schema, domain: nat, epoch: nat, catalog: Id,
                                       judgment: Id, proposer: Lineage, effects: seq<EffectItem>)
  datatype Proposal = Proposal(digest: Id, body: ProposalBody)

  datatype VerifierRequest = VerifierRequest(
    nonce: Id, scope: Id, proposal: Id, catalog: Id, judgment: Id, adapter: Id, semantics: Id, specimens: Id)

  datatype SpecimenResult = SpecimenResult(specimen: Id, observed: Outcome)

  datatype ReceiptBody = ReceiptBody(
    schema: Schema, request: Id, nonce: Id, scope: Id, proposal: Id, catalog: Id, judgment: Id, adapter: Id,
    verifier: Pinned, semantics: Id, specimens: Id, outcome: Outcome, results: seq<SpecimenResult>)
  datatype Receipt = Receipt(digest: Id, body: ReceiptBody)

  datatype Burn = Burn(scope: Id, proposal: Id, receipt: Id, nonce: Id, adapter: Id)

  datatype BurnError =
    | ScopeBindingMismatch
    | ReceiptAlreadyUsed
    | ProposalAlreadyUsed
    | InvocationAlreadyUsed
    | ScopeExhausted
    | BurnIndeterminate

  ghost predicate ScopeIsCoherent(body: ScopeBody) {
    && body.schema == ScopeV1
    && body.targets != {} && body.specimens != map[] && body.adapterRoots != {}
    && body.notBefore < body.expires && body.maxUses > 0 && body.verifier.size > 0
  }

  ghost predicate ScopeVerifies(scope: Scope) {
    ScopeIsCoherent(scope.body) && scope.digest == OfScope(scope.body)
  }

  datatype Refusal =
    | InvalidScope
    | ScopeDigestMismatch
    | ScopeNotCurrentlyValid
    | ProposalDigestMismatch
    | ProposalSchemaMismatch
    | AuthorityContextMismatch
    | CatalogNotInScope
    | EmptyProposal
    | NonPromotionEffect
    | TargetNotInScope
    | AdapterNotService
    | AdapterNotAdmitted
    | PrincipalChainsNotIndependent
    | VerifierIdentityMismatch
    | VerifierIndeterminate
    | ReceiptDigestMismatch
    | ReceiptBindingMismatch
    | VerifierDidNotEntail
    | SpecimenSetMismatch
    | SpecimenFailed

  method CheckScope(scope: Scope) returns (refusal: Option<Refusal>)
    ensures refusal.None? <==> ScopeVerifies(scope)
    ensures refusal.Some? ==>
              || (refusal.value == InvalidScope && !ScopeIsCoherent(scope.body))
              || (refusal.value == ScopeDigestMismatch && scope.digest != OfScope(scope.body))
  {
    var body := scope.body;
    if body.schema != ScopeV1 || body.targets == {} || body.specimens == map[] || body.adapterRoots == {}
       || body.notBefore >= body.expires || body.maxUses == 0 || body.verifier.size == 0 {
      return Some(InvalidScope);
    }
    return if scope.digest == OfScope(body) then None else Some(ScopeDigestMismatch);
  }

  // ------------------------------------------------------------ hostile specimens

  ghost predicate Matches(expected: Expected, observed: Outcome) {
    if expected.ExpectEntailed? then observed.Entailed? else observed.NotEntailed?
  }

  ghost function Specimens(results: seq<SpecimenResult>): (names: seq<Id>)
    ensures |names| == |results| && forall i :: 0 <= i < |results| ==> names[i] == results[i].specimen
  {
    seq(|results|, i requires 0 <= i < |results| => results[i].specimen)
  }

  /** The results are the catalogue in some order, each as expected. */
  ghost predicate CoversCatalogue(results: seq<SpecimenResult>, catalogue: map<Id, Expected>) {
    && multiset(Specimens(results)) == multiset(catalogue.Keys)
    && forall r :: r in results ==> r.specimen in catalogue && Matches(catalogue[r.specimen], r.observed)
  }

  /** The loop never counts coverage: equal length, no repeats and membership force it, so the closing size test can
      not fail. */
  method CheckSpecimens(results: seq<SpecimenResult>, catalogue: map<Id, Expected>) returns (refusal: Option<Refusal>)
    ensures refusal.None? <==> CoversCatalogue(results, catalogue)
    ensures refusal.Some? ==> refusal.value in {SpecimenSetMismatch, SpecimenFailed}
    ensures refusal == Some(SpecimenSetMismatch) ==> multiset(Specimens(results)) != multiset(catalogue.Keys)
    ensures refusal == Some(SpecimenFailed) ==>
              exists r :: r in results && r.specimen in catalogue && !Matches(catalogue[r.specimen], r.observed)
  {
    ghost var names := Specimens(results);
    if |results| != |catalogue| {
      assert |multiset(names)| == |results| && |multiset(catalogue.Keys)| == |catalogue|;
      return Some(SpecimenSetMismatch);
    }
    var seen: set<Id> := {};
    var i := 0;
    while i < |results|
      invariant i <= |results| && |seen| == i && seen <= catalogue.Keys
      invariant multiset(names[..i]) == multiset(seen)
      invariant forall j :: 0 <= j < i ==> results[j].specimen in catalogue && Matches(catalogue[results[j].specimen], results[j].observed)
    {
      var result := results[i];
      assert names[..i + 1] == names[..i] + [result.specimen];
      if result.specimen in seen {
        RepeatSpoils(names, i, seen, catalogue.Keys);
        return Some(SpecimenSetMismatch);
      }
      if result.specimen !in catalogue {
        assert names[i] in multiset(names) && names[i] !in multiset(catalogue.Keys);
        return Some(SpecimenSetMismatch);
      }
      var asExpected := match (catalogue[result.specimen], result.observed)
        case (ExpectEntailed, Entailed) | (ExpectNotEntailed, NotEntailed) => true
        case _ => false;
      if !asExpected {
        assert result in results;
        return Some(SpecimenFailed);
      }
      seen := seen + {result.specimen};
      i := i + 1;
    }
    assert names[..i] == names;
    FullSubset(seen, catalogue.Keys);
    if |seen| != |catalogue| {
      assert false;
      return Some(SpecimenSetMismatch);
    }
    return None;
  }

  lemma RepeatSpoils(names: seq<Id>, i: nat, seen: set<Id>, all: set<Id>)
    requires i < |names| && names[i] in seen && multiset(names[..i]) == multiset(seen)
    ensures multiset(names) != multiset(all)
  {
    assert names == names[..i] + ([names[i]] + names[i + 1..]);
    assert multiset(names) == multiset(names[..i]) + multiset([names[i]] + names[i + 1..]);
    assert multiset(names)[names[i]] >= 2;
  }

  lemma FullSubset<T>(some: set<T>, all: set<T>)
    requires some <= all && |some| == |all|
    ensures some == all
  {
    assert |all - some| == |all| - |some|;
  }

  // ------------------------------------------------------------ the burn ledger

  datatype Ledger = Ledger(receipts: set<Id>, proposals: set<Id>, nonces: set<Id>, uses: map<Id, nat>)

  ghost function UsesOf(ledger: Ledger, scope: Id): nat {
    if scope in ledger.uses then ledger.uses[scope] else 0
  }

  /** The first check that stops a burn, in the store's order. */
  ghost function Objection(ledger: Ledger, scope: Scope, burn: Burn): Option<BurnError> {
    if !ScopeVerifies(scope) || burn.scope != scope.digest then Some(ScopeBindingMismatch)
    else if burn.receipt in ledger.receipts then Some(ReceiptAlreadyUsed)
    else if burn.proposal in ledger.proposals then Some(ProposalAlreadyUsed)
    else if burn.nonce in ledger.nonces then Some(InvocationAlreadyUsed)
    else if UsesOf(ledger, scope.digest) >= scope.body.maxUses then Some(ScopeExhausted)
    else None
  }

  ghost function Spent(ledger: Ledger, burn: Burn): Ledger {
    Ledger(ledger.receipts + {burn.receipt}, ledger.proposals + {burn.proposal}, ledger.nonces + {burn.nonce},
           ledger.uses[burn.scope := UsesOf(ledger, burn.scope) + 1])
  }

  /** One call: the burn to make, and whether its own encoding will succeed once it is made. */
  datatype Attempt = Attempt(scope: Scope, burn: Burn, encodable: bool)

  ghost function LedgerAfter(ledger: Ledger, a: Attempt): Ledger {
    if Objection(ledger, a.scope, a.burn).None? then Spent(ledger, a.burn) else ledger
  }

  ghost function ErrorOf(ledger: Ledger, a: Attempt): Option<BurnError> {
    var objection := Objection(ledger, a.scope, a.burn);
    if objection.Some? then objection else if a.encodable then None else Some(BurnIndeterminate)
  }

  // ------------------------------------------------------------ whole runs

  ghost function Total(uses: map<Id, nat>): nat
    decreases uses.Keys
  {
    if uses.Keys == {} then 0
    else
      var scope :| scope in uses.Keys;
      uses[scope] + Total(uses - {scope})
  }

  lemma {:induction false} TotalSplits(uses: map<Id, nat>, scope: Id)
    requires scope in uses
    ensures Total(uses) == uses[scope] + Total(uses - {scope})
    decreases uses.Keys
  {
    var other :| other in uses.Keys && Total(uses) == uses[other] + Total(uses - {other});
    if other != scope {
      TotalSplits(uses - {other}, scope);
      TotalSplits(uses - {scope}, other);
      assert uses - {other} - {scope} == uses - {scope} - {other};
    }
  }

  lemma TotalAfterUse(uses: map<Id, nat>, scope: Id, count: nat)
    requires count == if scope in uses then uses[scope] else 0
    ensures Total(uses[scope := count + 1]) == Total(uses) + 1
  {
    var more := uses[scope := count + 1];
    TotalSplits(more, scope);
    if scope in uses {
      TotalSplits(uses, scope);
      assert more - {scope} == uses - {scope};
    } else {
      assert more - {scope} == uses;
    }
  }

  ghost predicate Counted(ledger: Ledger) {
    |ledger.receipts| == |ledger.proposals| == |ledger.nonces| == Total(ledger.uses)
  }

  ghost predicate NotOverdrawn(uses: map<Id, nat>) {
    forall scope :: scope in uses ==> scope.OfScope? && uses[scope] <= scope.scope.maxUses
  }

  /** Every use is accounted for by one receipt, one proposal and one nonce, and no scope is overdrawn. */
  ghost predicate Balanced(ledger: Ledger) {
    Counted(ledger) && NotOverdrawn(ledger.uses)
  }

  lemma OneMore<T>(some: set<T>, x: T)
    requires x !in some
    ensures |some + {x}| == |some| + 1
  {
  }

  lemma DrawingKeepsBound(uses: map<Id, nat>, scope: Id, count: nat)
    requires NotOverdrawn(uses) && scope.OfScope? && count < scope.scope.maxUses
    ensures NotOverdrawn(uses[scope := count + 1])
  {
  }

  lemma SpendingKeepsBalance(ledger: Ledger, burn: Burn)
    requires Balanced(ledger)
    requires burn.receipt !in ledger.receipts && burn.proposal !in ledger.proposals && burn.nonce !in ledger.nonces
    requires burn.scope.OfScope? && UsesOf(ledger, burn.scope) < burn.scope.scope.maxUses
    ensures Balanced(Spent(ledger, burn))
    ensures |Spent(ledger, burn).receipts| == |ledger.receipts| + 1
  {
    hide Total, NotOverdrawn, UsesOf;
    var count := UsesOf(ledger, burn.scope);
    assert count == if burn.scope in ledger.uses then ledger.uses[burn.scope] else 0 by {
      UsesMeans(ledger, burn.scope);
    }
    DrawingKeepsBound(ledger.uses, burn.scope, count);
    OneMore(ledger.receipts, burn.receipt);
    OneMore(ledger.proposals, burn.proposal);
    OneMore(ledger.nonces, burn.nonce);
    TotalAfterUse(ledger.uses, burn.scope, count);
  }

  lemma UsesMeans(ledger: Ledger, scope: Id)
    ensures UsesOf(ledger, scope) == if scope in ledger.uses then ledger.uses[scope] else 0
  {
  }

  lemma BurnKeepsBalance(ledger: Ledger, a: Attempt)
    requires Balanced(ledger)
    ensures Balanced(LedgerAfter(ledger, a))
    ensures |LedgerAfter(ledger, a).receipts| == |ledger.receipts| + if Objection(ledger, a.scope, a.burn).None? then 1 else 0
  {
    hide Balanced, Spent;
    if Objection(ledger, a.scope, a.burn).None? {
      SpendingKeepsBalance(ledger, a.burn);
    }
  }

  ghost function Run(ledger: Ledger, attempts: seq<Attempt>): Ledger
    decreases |attempts|
  {
    if attempts == [] then ledger
    else LedgerAfter(Run(ledger, attempts[..|attempts| - 1]), attempts[|attempts| - 1])
  }

  /** The ledger the i-th call of a run meets. */
  ghost function Before(ledger: Ledger, attempts: seq<Attempt>, i: nat): Ledger
    requires i <= |attempts|
  {
    Run(ledger, attempts[..i])
  }

  ghost predicate Commits(ledger: Ledger, attempts: seq<Attempt>, i: nat)
    requires i < |attempts|
  {
    Objection(Before(ledger, attempts, i), attempts[i].scope, attempts[i].burn).None?
  }

  ghost predicate Extends(earlier: Ledger, later: Ledger) {
    && earlier.receipts <= later.receipts && earlier.proposals <= later.proposals && earlier.nonces <= later.nonces
    && forall scope :: scope in earlier.uses ==> scope in later.uses && earlier.uses[scope] <= later.uses[scope]
  }

  lemma StepOf(ledger: Ledger, attempts: seq<Attempt>, i: nat)
    requires i < |attempts|
    ensures Before(ledger, attempts, i + 1) == LedgerAfter(Before(ledger, attempts, i), attempts[i])
  {
    assert attempts[..i + 1][..i] == attempts[..i];
  }

  lemma {:induction false} NothingIsUnburned(ledger: Ledger, attempts: seq<Attempt>, i: nat, j: nat)
    requires i <= j <= |attempts|
    ensures Extends(Before(ledger, attempts, i), Before(ledger, attempts, j))
    decreases j
  {
    if i < j {
      NothingIsUnburned(ledger, attempts, i, j - 1);
      StepOf(ledger, attempts, j - 1);
    }
  }

  /** No receipt, proposal or nonce is ever spent twice, whatever calls come in between. */
  lemma AuthorizationsAreOneTime(ledger: Ledger, attempts: seq<Attempt>, i: nat, j: nat)
    requires i < j < |attempts| && Commits(ledger, attempts, i) && Commits(ledger, attempts, j)
    ensures attempts[i].burn.receipt != attempts[j].burn.receipt
    ensures attempts[i].burn.proposal != attempts[j].burn.proposal
    ensures attempts[i].burn.nonce != attempts[j].burn.nonce
  {
    StepOf(ledger, attempts, i);
    NothingIsUnburned(ledger, attempts, i + 1, j);
  }

  /** How many calls of a run were burned. */
  ghost function Burned(ledger: Ledger, attempts: seq<Attempt>): nat
    decreases |attempts|
  {
    if attempts == [] then 0
    else
      var front, last := attempts[..|attempts| - 1], attempts[|attempts| - 1];
      Burned(ledger, front) + if Objection(Run(ledger, front), last.scope, last.burn).None? then 1 else 0
  }

  /** How many of them drew on one scope. */
  ghost function Drawn(ledger: Ledger, attempts: seq<Attempt>, scope: Id): nat
    decreases |attempts|
  {
    if attempts == [] then 0
    else
      var front, last := attempts[..|attempts| - 1], attempts[|attempts| - 1];
      Drawn(ledger, front, scope)
      + if last.burn.scope == scope && Objection(Run(ledger, front), last.scope, last.burn).None? then 1 else 0
  }

  /** A run's books: each committed call is one receipt, one proposal, one nonce and one use of its scope, and a scope
      never gives more than it was installed for. */
  lemma {:induction false} RunKeepsBooks(ledger: Ledger, attempts: seq<Attempt>, scope: Id)
    requires Balanced(ledger)
    ensures Balanced(Run(ledger, attempts))
    ensures |Run(ledger, attempts).receipts| == |ledger.receipts| + Burned(ledger, attempts)
    ensures UsesOf(Run(ledger, attempts), scope) == UsesOf(ledger, scope) + Drawn(ledger, attempts, scope)
    ensures scope.OfScope? ==> UsesOf(Run(ledger, attempts), scope) <= scope.scope.maxUses
    decreases |attempts|
  {
    if attempts != [] {
      var n := |attempts| - 1;
      RunKeepsBooks(ledger, attempts[..n], scope);
      BurnKeepsBalance(Run(ledger, attempts[..n]), attempts[n]);
    }
  }

  // ------------------------------------------------------------ the store in memory

  class MemoryBurns {
    var receipts: set<Id>
    var proposals: set<Id>
    var nonces: set<Id>
    var uses: map<Id, nat>

    ghost function Contents(): Ledger
      reads this
    {
      Ledger(receipts, proposals, nonces, uses)
    }

    constructor ()
      ensures Balanced(Contents()) && Contents() == Ledger({}, {}, {}, map[])
    {
      receipts, proposals, nonces, uses := {}, {}, {}, map[];
    }

    /** Burns the receipt, the proposal, the nonce and one use together, or none of them. */
    method BurnOnce(scope: Scope, burn: Burn, encodable: bool) returns (error: Option<BurnError>)
      modifies this
      ensures Contents() == LedgerAfter(old(Contents()), Attempt(scope, burn, encodable))
      ensures error == ErrorOf(old(Contents()), Attempt(scope, burn, encodable))
      ensures old(Balanced(Contents())) ==> Balanced(Contents())
    {
      hide ScopeVerifies, Balanced, Total;
      if old(Balanced(Contents())) {
        BurnKeepsBalance(Contents(), Attempt(scope, burn, encodable));
      }
      var refusal := CheckScope(scope);
      if refusal.Some? || burn.scope != scope.digest {
        return Some(ScopeBindingMismatch);
      }
      if burn.receipt in receipts {
        return Some(ReceiptAlreadyUsed);
      }
      if burn.proposal in proposals {
        return Some(ProposalAlreadyUsed);
      }
      if burn.nonce in nonces {
        return Some(InvocationAlreadyUsed);
      }
      var count := if scope.digest in uses then uses[scope.digest] else 0;
      if count >= scope.body.maxUses {
        return Some(ScopeExhausted);
      }
      receipts, proposals, nonces := receipts + {burn.receipt}, proposals + {burn.proposal}, nonces + {burn.nonce};
      uses := uses[scope.digest := count + 1];
      return if encodable then None else Some(BurnIndeterminate);
    }
  }

  // ------------------------------------------------------------ validating, then burning

  datatype Authorization =
    | Authorized(burned: Burn)
    | Refused(refusal: Refusal)
    | NotBurned(error: BurnError)

  ghost function Nodes(chain: Lineage): seq<PrincipalNode> {
    [chain.root] + chain.below
  }

  ghost function LeafOf(chain: Lineage): PrincipalNode {
    if chain.below == [] then chain.root else chain.below[|chain.below| - 1]
  }

  /** The same authority context and no principal in both lineages. */
  ghost predicate Independent(proposer: Lineage, adapter: Lineage) {
    && proposer.domain == adapter.domain && proposer.epoch == adapter.epoch
    && forall a, b :: a in Nodes(proposer) && b in Nodes(adapter) ==> a.principal != b.principal
  }

  /** The separation test: distinct roots, the proposer nowhere above the adapter, no shared worker, nobody shared at
      all.  The last of these says everything the three before it do. */
  method AreSeparate(proposer: Lineage, adapter: Lineage) returns (ok: bool)
    ensures ok <==> Independent(proposer, adapter)
  {
    var above, beside := [proposer.root] + proposer.below, [adapter.root] + adapter.below;
    assert above == Nodes(proposer) && beside == Nodes(adapter);
    if proposer.domain != adapter.domain || proposer.epoch != adapter.epoch {
      return false;
    }
    if above[0].principal == beside[0].principal {
      return false;
    }
    if exists node :: node in beside && node.principal == above[|above| - 1].principal {
      return false;
    }
    var workers := set node | node in above && node.isWorker :: node.principal;
    if exists node :: node in beside && node.isWorker && node.principal in workers {
      return false;
    }
    var principals := set node | node in above :: node.principal;
    return !exists node :: node in beside && node.principal in principals;
  }

  ghost predicate ContextAgrees(scope: ScopeBody, body: ProposalBody) {
    && body.domain == scope.domain == body.proposer.domain
    && body.epoch == scope.epoch == body.proposer.epoch
  }

  ghost predicate AdapterInContext(scope: ScopeBody, adapter: Lineage) {
    adapter.domain == scope.domain && adapter.epoch == scope.epoch
  }

  ghost predicate AdapterAdmitted(scope: ScopeBody, body: ProposalBody, adapter: Lineage) {
    && AdapterInContext(scope, adapter)
    && LeafOf(adapter).isService && adapter.root.principal in scope.adapterRoots
    && Independent(body.proposer, adapter)
  }

  ghost predicate EffectInScope(scope: ScopeBody, effect: EffectItem) {
    effect.isCodePromotion && effect.target in scope.targets
  }

  ghost function RequestFor(scope: Scope, proposal: Proposal, adapter: Lineage, nonce: Id): VerifierRequest {
    VerifierRequest(nonce, scope.digest, proposal.digest, proposal.body.catalog, proposal.body.judgment, OfChain(adapter),
                    scope.body.semantics, OfCatalogue(scope.body.specimens))
  }

  /** The receipt answers exactly this request. */
  ghost predicate Echoes(scope: ScopeBody, request: VerifierRequest, receipt: Receipt) {
    var body := receipt.body;
    && body.schema == ReceiptV1
    && body.request == OfRequest(request) && body.nonce == request.nonce && body.scope == request.scope
    && body.proposal == request.proposal && body.catalog == request.catalog && body.judgment == request.judgment
    && body.adapter == request.adapter && body.verifier == scope.verifier && body.semantics == request.semantics
    && body.specimens == request.specimens
  }

  /** Everything the receipt must show before the burn is tried. */
  ghost predicate ReceiptQualifies(scope: ScopeBody, request: VerifierRequest, receipt: Receipt) {
    && receipt.digest == OfReceipt(receipt.body) && Echoes(scope, request, receipt) && receipt.body.outcome.Entailed?
    && CoversCatalogue(receipt.body.results, scope.specimens)
  }

  ghost predicate SchemasAgree(body: ProposalBody) {
    body.schema == EffectV1 && body.catalogSchema == EffectCatalogV1
  }

  ghost predicate RequestQualifies(scope: Scope, proposal: Proposal, adapter: Lineage, now: nat, verifier: Pinned) {
    && ScopeVerifies(scope) && scope.body.notBefore <= now < scope.body.expires
    && proposal.digest == OfProposal(proposal.body) && SchemasAgree(proposal.body)
    && ContextAgrees(scope.body, proposal.body)
    && proposal.body.catalog == scope.body.catalog && proposal.body.effects != []
    && (forall effect :: effect in proposal.body.effects ==> EffectInScope(scope.body, effect))
    && AdapterAdmitted(scope.body, proposal.body, adapter) && verifier == scope.body.verifier
  }

  /** What each refusal of a request says is the case. */
  ghost predicate Faulty(refusal: Refusal, scope: Scope, proposal: Proposal, adapter: Lineage, now: nat, verifier: Pinned) {
    match refusal
    case InvalidScope => !ScopeIsCoherent(scope.body)
    case ScopeDigestMismatch => scope.digest != OfScope(scope.body)
    case ScopeNotCurrentlyValid => !(scope.body.notBefore <= now < scope.body.expires)
    case ProposalDigestMismatch => proposal.digest != OfProposal(proposal.body)
    case ProposalSchemaMismatch => !SchemasAgree(proposal.body)
    case AuthorityContextMismatch => !ContextAgrees(scope.body, proposal.body) || !AdapterInContext(scope.body, adapter)
    case CatalogNotInScope => proposal.body.catalog != scope.body.catalog
    case EmptyProposal => proposal.body.effects == []
    case NonPromotionEffect => exists effect :: effect in proposal.body.effects && !effect.isCodePromotion
    case TargetNotInScope =>
      exists effect :: effect in proposal.body.effects && effect.isCodePromotion && effect.target !in scope.body.targets
    case AdapterNotService => !LeafOf(adapter).isService
    case AdapterNotAdmitted => adapter.root.principal !in scope.body.adapterRoots
    case PrincipalChainsNotIndependent => !Independent(proposal.body.proposer, adapter)
    case VerifierIdentityMismatch => verifier != scope.body.verifier
    case _ => false
  }

  /** What each refusal of an answer says is the case. */
  ghost predicate Unproved(refusal: Refusal, scope: ScopeBody, request: VerifierRequest, answer: Option<Receipt>) {
    match refusal
    case VerifierIndeterminate => answer.None?
    case ReceiptDigestMismatch => answer.Some? && answer.value.digest != OfReceipt(answer.value.body)
    case ReceiptBindingMismatch => answer.Some? && !Echoes(scope, request, answer.value)
    case VerifierDidNotEntail => answer.Some? && !answer.value.body.outcome.Entailed?
    case SpecimenSetMismatch =>
      answer.Some? && multiset(Specimens(answer.value.body.results)) != multiset(scope.specimens.Keys)
    case SpecimenFailed =>
      answer.Some? && exists r :: r in answer.value.body.results && r.specimen in scope.specimens
                                  && !Matches(scope.specimens[r.specimen], r.observed)
    case _ => false
  }

  /** The first effect outside the scope decides which way it is outside. */
  method CheckEffects(scope: ScopeBody, effects: seq<EffectItem>) returns (refusal: Option<Refusal>)
    ensures refusal.None? <==> forall effect :: effect in effects ==> EffectInScope(scope, effect)
    ensures refusal.Some? ==>
              || (refusal.value == NonPromotionEffect && exists effect :: effect in effects && !effect.isCodePromotion)
              || (refusal.value == TargetNotInScope
                  && exists effect :: effect in effects && effect.isCodePromotion && effect.target !in scope.targets)
  {
    var i := 0;
    while i < |effects|
      invariant i <= |effects|
      invariant forall j :: 0 <= j < i ==> EffectInScope(scope, effects[j])
    {
      assert effects[i] in effects;
      if !effects[i].isCodePromotion {
        return Some(NonPromotionEffect);
      }
      if effects[i].target !in scope.targets {
        return Some(TargetNotInScope);
      }
      i := i + 1;
    }
    return None;
  }

  method CheckAdapter(scope: ScopeBody, body: ProposalBody, adapter: Lineage) returns (refusal: Option<Refusal>)
    ensures refusal.None? <==> AdapterAdmitted(scope, body, adapter)
    ensures refusal.Some? ==>
              match refusal.value
              case AuthorityContextMismatch => !AdapterInContext(scope, adapter)
              case AdapterNotService => !LeafOf(adapter).isService
              case AdapterNotAdmitted => adapter.root.principal !in scope.adapterRoots
              case PrincipalChainsNotIndependent => !Independent(body.proposer, adapter)
              case _ => false
  {
    if adapter.domain != scope.domain || adapter.epoch != scope.epoch {
      return Some(AuthorityContextMismatch);
    }
    var nodes := [adapter.root] + adapter.below;
    if !nodes[|nodes| - 1].isService {
      return Some(AdapterNotService);
    }
    if adapter.root.principal !in scope.adapterRoots {
      return Some(AdapterNotAdmitted);
    }
    var separate := AreSeparate(body.proposer, adapter);
    return if separate then None else Some(PrincipalChainsNotIndependent);
  }

  method CheckRequest(scope: Scope, proposal: Proposal, adapter: Lineage, now: nat, verifier: Pinned)
    returns (refusal: Option<Refusal>)
    ensures refusal.None? <==> RequestQualifies(scope, proposal, adapter, now, verifier)
    ensures refusal.Some? ==> Faulty(refusal.value, scope, proposal, adapter, now, verifier)
  {
    hide Independent, LeafOf, AdapterAdmitted, AdapterInContext, EffectInScope, ScopeVerifies, ScopeIsCoherent;
    refusal := CheckScope(scope);
    if refusal.Some? {
      return;
    }
    if now < scope.body.notBefore || now >= scope.body.expires {
      return Some(ScopeNotCurrentlyValid);
    }
    if proposal.digest != OfProposal(proposal.body) {
      return Some(ProposalDigestMismatch);
    }
    var body := proposal.body;
    if body.schema != EffectV1 || body.catalogSchema != EffectCatalogV1 {
      return Some(ProposalSchemaMismatch);
    }
    if body.domain != scope.body.domain || body.epoch != scope.body.epoch || body.proposer.domain != body.domain
       || body.proposer.epoch != body.epoch {
      return Some(AuthorityContextMismatch);
    }
    if proposal.body.catalog != scope.body.catalog {
      return Some(CatalogNotInScope);
    }
    if proposal.body.effects == [] {
      return Some(EmptyProposal);
    }
    refusal := CheckEffects(scope.body, proposal.body.effects);
    if refusal.Some? {
      return;
    }
    refusal := CheckAdapter(scope.body, proposal.body, adapter);
    if refusal.Some? {
      return;
    }
    return if verifier == scope.body.verifier then None else Some(VerifierIdentityMismatch);
  }

  method IsBound(scope: ScopeBody, request: VerifierRequest, receipt: Receipt) returns (ok: bool)
    ensures ok <==> Echoes(scope, request, receipt)
  {
    var body := receipt.body;
    return !(body.schema != ReceiptV1 || body.request != OfRequest(request) || body.nonce != request.nonce
             || body.scope != request.scope || body.proposal != request.proposal || body.catalog != request.catalog
             || body.judgment != request.judgment || body.adapter != request.adapter || body.verifier != scope.verifier
             || body.semantics != request.semantics || body.specimens != request.specimens);
  }

  method CheckAnswer(scope: ScopeBody, request: VerifierRequest, answer: Option<Receipt>)
    returns (refusal: Option<Refusal>)
    ensures refusal.None? <==> answer.Some? && ReceiptQualifies(scope, request, answer.value)
    ensures refusal.Some? ==> Unproved(refusal.value, scope, request, answer)
  {
    hide Echoes, CoversCatalogue, Matches, Specimens;
    if answer.None? {
      return Some(VerifierIndeterminate);
    }
    if answer.value.digest != OfReceipt(answer.value.body) {
      return Some(ReceiptDigestMismatch);
    }
    var bound := IsBound(scope, request, answer.value);
    if !bound {
      return Some(ReceiptBindingMismatch);
    }
    if !answer.value.body.outcome.Entailed? {
      return Some(VerifierDidNotEntail);
    }
    refusal := CheckSpecimens(answer.value.body.results, scope.specimens);
  }

  /** The burn a call asks for once everything qualified. */
  ghost function BurnFor(scope: Scope, proposal: Proposal, adapter: Lineage, nonce: Id, receipt: Receipt): Burn {
    Burn(scope.digest, proposal.digest, receipt.digest, nonce, OfChain(adapter))
  }

  /** All validation comes before the single burn, a refusal names a fault that is there, and only a durable burn
      authorizes.  A call that fails leaves the ledger as it was, unless its burn was made and would not encode. */
  method ValidateAndBurn(scope: Scope, proposal: Proposal, adapter: Lineage, nonce: Id, now: nat, verifier: Pinned,
                         answer: VerifierRequest -> Option<Receipt>, encodable: bool, burns: MemoryBurns)
    returns (r: Authorization)
    modifies burns
    ensures old(Balanced(burns.Contents())) ==> Balanced(burns.Contents())
    ensures r.Refused? <==>
              var request := RequestFor(scope, proposal, adapter, nonce);
              !(&& RequestQualifies(scope, proposal, adapter, now, verifier)
                && answer(request).Some? && ReceiptQualifies(scope.body, request, answer(request).value))
    ensures r.Refused? ==>
              var request := RequestFor(scope, proposal, adapter, nonce);
              || Faulty(r.refusal, scope, proposal, adapter, now, verifier)
              || (RequestQualifies(scope, proposal, adapter, now, verifier)
                  && Unproved(r.refusal, scope.body, request, answer(request)))
    ensures !r.Refused? ==>
              var burn := BurnFor(scope, proposal, adapter, nonce, answer(RequestFor(scope, proposal, adapter, nonce)).value);
              var attempt := Attempt(scope, burn, encodable);
              && burns.Contents() == LedgerAfter(old(burns.Contents()), attempt)
              && r == match ErrorOf(old(burns.Contents()), attempt) { case None => Authorized(burn) case Some(e) => NotBurned(e) }
    ensures r.Authorized? ==> burns.Contents() == Spent(old(burns.Contents()), r.burned)
    ensures !r.Authorized? ==> (burns.Contents() == old(burns.Contents()) <==> r != NotBurned(BurnIndeterminate))
    ensures !r.Authorized? && encodable ==> burns.Contents() == old(burns.Contents())
  {
    hide RequestQualifies, ReceiptQualifies, Balanced, LedgerAfter, ErrorOf, Faulty, Unproved, Spent;
    var refusal := CheckRequest(scope, proposal, adapter, now, verifier);
    if refusal.Some? {
      return Refused(refusal.value);
    }
    var request := VerifierRequest(nonce, scope.digest, proposal.digest, proposal.body.catalog, proposal.body.judgment,
                                   OfChain(adapter), scope.body.semantics, OfCatalogue(scope.body.specimens));
    var receipt := answer(request);
    refusal := CheckAnswer(scope.body, request, receipt);
    if refusal.Some? {
      return Refused(refusal.value);
    }
    var burn := Burn(scope.digest, proposal.digest, receipt.value.digest, nonce, OfChain(adapter));
    AttemptMeans(burns.Contents(), Attempt(scope, burn, encodable));
    var error := burns.BurnOnce(scope, burn, encodable);
    return if error.None? then Authorized(burn) else NotBurned(error.value);
  }

  lemma AttemptMeans(ledger: Ledger, a: Attempt)
    ensures ErrorOf(ledger, a).None? ==> LedgerAfter(ledger, a) == Spent(ledger, a.burn)
    ensures ErrorOf(ledger, a).Some? ==> (LedgerAfter(ledger, a) == ledger <==> ErrorOf(ledger, a).value != BurnIndeterminate)
    ensures ErrorOf(ledger, a) == Some(BurnIndeterminate) ==> !a.encodable
  {
    if Objection(ledger, a.scope, a.burn).None? {
      assert a.burn.receipt in Spent(ledger, a.burn).receipts;
    }
  }

  // ------------------------------------------------------------ any sequence of calls on one ledger

  datatype Call = Call(scope: Scope, proposal: Proposal, adapter: Lineage, nonce: Id, now: nat, verifier: Pinned,
                       answer: VerifierRequest -> Option<Receipt>, encodable: bool)

  ghost predicate Burns(ledger: Ledger, burn: Burn) {
    burn.receipt in ledger.receipts && burn.proposal in ledger.proposals && burn.nonce in ledger.nonces
  }

  ghost predicate Disjoint(a: Burn, b: Burn) {
    a.receipt != b.receipt && a.proposal != b.proposal && a.nonce != b.nonce
  }

  ghost function AuthorizedUnder(results: seq<Authorization>, scope: Id): nat {
    if results == [] then 0
    else
      var last := results[|results| - 1];
      AuthorizedUnder(results[..|results| - 1], scope) + if last.Authorized? && last.burned.scope == scope then 1 else 0
  }

  /** An authorization adds its own keys, which were not there, and one use of its scope. */
  lemma AuthorizationIsFresh(ledger: Ledger, a: Attempt, scope: Id)
    requires ErrorOf(ledger, a).None?
    ensures a.burn.receipt !in ledger.receipts && a.burn.proposal !in ledger.proposals && a.burn.nonce !in ledger.nonces
    ensures Burns(LedgerAfter(ledger, a), a.burn)
    ensures UsesOf(LedgerAfter(ledger, a), scope) == UsesOf(ledger, scope) + if a.burn.scope == scope then 1 else 0
  {
  }

  lemma LedgerOnlyGrows(ledger: Ledger, a: Attempt, scope: Id)
    ensures Extends(ledger, LedgerAfter(ledger, a))
    ensures UsesOf(ledger, scope) <= UsesOf(LedgerAfter(ledger, a), scope)
  {
  }

  ghost predicate Accounted(ledger: Ledger, results: seq<Authorization>, scope: Id) {
    && (forall i :: 0 <= i < |results| && results[i].Authorized? ==> Burns(ledger, results[i].burned))
    && (forall i, j :: 0 <= i < j < |results| && results[i].Authorized? && results[j].Authorized? ==>
          Disjoint(results[i].burned, results[j].burned))
    && AuthorizedUnder(results, scope) <= UsesOf(ledger, scope)
  }

  lemma AccountedLater(ledger: Ledger, later: Ledger, results: seq<Authorization>, r: Authorization, scope: Id)
    requires Accounted(ledger, results, scope) && Extends(ledger, later) && !r.Authorized?
    requires UsesOf(ledger, scope) <= UsesOf(later, scope)
    ensures Accounted(later, results + [r], scope)
  {
    assert (results + [r])[..|results|] == results;
  }

  lemma AccountedAuthorized(ledger: Ledger, a: Attempt, results: seq<Authorization>, scope: Id)
    requires Accounted(ledger, results, scope) && ErrorOf(ledger, a).None?
    ensures Accounted(LedgerAfter(ledger, a), results + [Authorized(a.burn)], scope)
  {
    hide ErrorOf, LedgerAfter;
    AuthorizationIsFresh(ledger, a, scope);
    LedgerOnlyGrows(ledger, a, scope);
    assert (results + [Authorized(a.burn)])[..|results|] == results;
  }

  lemma AccountedCall(ledger: Ledger, a: Attempt, results: seq<Authorization>, r: Authorization, scope: Id)
    requires Accounted(ledger, results, scope)
    requires r == match ErrorOf(ledger, a) { case None => Authorized(a.burn) case Some(e) => NotBurned(e) }
    ensures Accounted(LedgerAfter(ledger, a), results + [r], scope)
  {
    hide Accounted, LedgerAfter;
    if ErrorOf(ledger, a).None? {
      AccountedAuthorized(ledger, a, results, scope);
    } else {
      LedgerOnlyGrows(ledger, a, scope);
      AccountedLater(ledger, LedgerAfter(ledger, a), results, r, scope);
    }
  }

  lemma AccountedEnds(ledger: Ledger, results: seq<Authorization>, scope: Id)
    requires Accounted(ledger, results, scope) && Balanced(ledger)
    ensures forall i, j :: 0 <= i < j < |results| && results[i].Authorized? && results[j].Authorized? ==>
              Disjoint(results[i].burned, results[j].burned)
    ensures scope.OfScope? ==> AuthorizedUnder(results, scope) <= scope.scope.maxUses
  {
  }

  /** The ledger with the authorized burns of these calls spent, in order, and nothing else. */
  ghost function SpendAll(ledger: Ledger, results: seq<Authorization>): Ledger {
    if results == [] then ledger
    else
      var before, last := SpendAll(ledger, results[..|results| - 1]), results[|results| - 1];
      if last.Authorized? then Spent(before, last.burned) else before
  }

  lemma SpendOneMore(ledger: Ledger, results: seq<Authorization>, r: Authorization)
    ensures SpendAll(ledger, results + [r])
         == if r.Authorized? then Spent(SpendAll(ledger, results), r.burned) else SpendAll(ledger, results)
  {
    assert (results + [r])[..|results|] == results;
  }

  /** Successful authorizations have pairwise distinct receipts, proposals and nonces, and a scope authorizes no more
      often than it was installed for.  When every burn encodes, the ledger grew by exactly the authorized burns. */
  method ValidateAll(calls: seq<Call>, burns: MemoryBurns, ghost scope: Id) returns (results: seq<Authorization>)
    requires Balanced(burns.Contents())
    modifies burns
    ensures |results| == |calls| && Balanced(burns.Contents())
    ensures forall i, j :: 0 <= i < j < |results| && results[i].Authorized? && results[j].Authorized? ==>
              Disjoint(results[i].burned, results[j].burned)
    ensures scope.OfScope? ==> AuthorizedUnder(results, scope) <= scope.scope.maxUses
    ensures (forall i :: 0 <= i < |calls| ==> calls[i].encodable) ==> burns.Contents() == SpendAll(old(burns.Contents()), results)
  {
    hide RequestQualifies, Balanced, LedgerAfter, ErrorOf, ReceiptQualifies, Accounted, Disjoint, Faulty, Unproved, Spent,
         SpendAll;
    NothingSpent(burns.Contents());
    results := [];
    NothingAccounted(burns.Contents(), scope);
    var i := 0;
    while i < |calls|
      invariant i <= |calls| && |results| == i
      invariant Balanced(burns.Contents()) && Accounted(burns.Contents(), results, scope)
      invariant (forall j :: 0 <= j < i ==> calls[j].encodable) ==>
                  burns.Contents() == SpendAll(old(burns.Contents()), results)
    {
      var call := calls[i];
      ghost var before := burns.Contents();
      var r := ValidateAndBurn(call.scope, call.proposal, call.adapter, call.nonce, call.now, call.verifier, call.answer,
                               call.encodable, burns);
      if r.Refused? {
        AccountedLater(before, before, results, r, scope);
      } else {
        ghost var receipt := call.answer(RequestFor(call.scope, call.proposal, call.adapter, call.nonce)).value;
        ghost var burn := BurnFor(call.scope, call.proposal, call.adapter, call.nonce, receipt);
        AccountedCall(before, Attempt(call.scope, burn, call.encodable), results, r, scope);
      }
      SpendOneMore(old(burns.Contents()), results, r);
      results := results + [r];
      i := i + 1;
    }
    AccountedEnds(burns.Contents(), results, scope);
  }

  lemma NothingSpent(ledger: Ledger)
    ensures SpendAll(ledger, []) == ledger
  {
  }

  lemma NothingAccounted(ledger: Ledger, scope: Id)
    ensures Accounted(ledger, [], scope)
  {
  }
}
