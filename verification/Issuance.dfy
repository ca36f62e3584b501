/** Docket issuance: deciding a request against the catalog, and burning a decision once to issue it.

Decision identities are symbolic digests over the request, the context and the matched target.
*/
module Issuance {
  import opened Basics
  import opened ByteStrings

  type Text = Bytes

  datatype Request = Request(
    repository: Text, targetRef: Text, effectClass: Text, actor: Text, paths: seq<Text>, attempt: Text, basis: Text)

  datatype Context = Context(domain: Text, epoch: Text)

  datatype Target = Target(id: Text, repository: Text, targetRef: Text, effectClass: Text, actors: seq<Text>,
                           prefixes: seq<Text>)

  datatype Id =
    | Named(name: Text)
    | OfDecision(request: Request, context: Context, target: Text)
    | OfUse(decision: Id, context: Context)
    | OfIssuance(decision: Id, particulars: Particulars, context: Context, target: Text, request: Request, use: Id)

  /** What else an issuance states: who issues and signs, the principal chain, the request as it arrived, the times,
      and the premises and obligations it rests on. */
  datatype Particulars = Particulars(issuer: Text, signer: Text, chain: seq<Text>, received: Bytes, issuedAt: nat,
                                     expiresAt: nat, premises: seq<Text>, obligations: Text)

  datatype Decision = Decision(id: Id, target: Text)

  /** What an issuance binds: the decision it spends, the request it carries, the context, the target and the rest,
      under an identity taken over all of it. */
  datatype Body = Body(issuance: Id, decision: Id, particulars: Particulars, context: Context, target: Text,
                       request: Request, use: Id)

  /** A signature is symbolic, as a digest is: it carries the key and the body it was made over. */
  datatype Signature = SignatureOver(signer: Text, body: Body)

  datatype Envelope = Envelope(body: Body, signer: Text, signature: Signature)

  datatype Refusal =
    | UnsupportedEffectClass
    | MalformedPrincipalChain
    | TargetNotInCatalog
    | ActorNotAdmitted
    | PathOutsideScope(path: Text)
    | AuthorityUnavailable
    | NotCanonical

  datatype Result<+T> = Ok(value: T) | Err(refusal: Refusal)

  // ------------------------------------------------------------ paths under a prefix

  /** The office's own test, on strings. */
  predicate Under(path: Text, prefix: Text) {
    path == prefix || prefix + [SLASH] <= path
  }

  /** The string test is the component test: the prefix's pieces begin the path's pieces. */
  lemma UnderIsComponentwise(path: Text, prefix: Text)
    ensures Under(path, prefix) <==> Split(prefix, SLASH) <= Split(path, SLASH)
  {
    hide Split, Join;
    var whole, head := Split(path, SLASH), Split(prefix, SLASH);
    if prefix + [SLASH] <= path {
      var rest := path[|prefix| + 1..];
      assert path == prefix + [SLASH] + rest;
      SplitConcat(prefix, rest, SLASH);
    }
    if head <= whole {
      JoinSplit(path, SLASH);
      JoinSplit(prefix, SLASH);
      var tail := whole[|head|..];
      assert whole == head + tail;
      if tail == [] {
        assert whole == head;
      } else {
        JoinConcat(head, tail, SLASH);
        assert path == prefix + [SLASH] + Join(tail, SLASH);
      }
    }
  }

  // ------------------------------------------------------------ deciding

  const SUPPORTED: Text := Ascii("git-ref-update:v1")

  datatype Office = Office(context: Context, chain: seq<Text>, catalog: seq<Target>)

  /** How many bytes the white-space character at the front takes in UTF-8; none if there is none.  The characters are
      those Unicode gives the White_Space property. */
  function WhiteSpaceAhead(text: Text): (n: nat)
    ensures n <= |text|
  {
    if |text| >= 1 && (text[0] == SPACE || 9 <= text[0] <= 13) then 1
    else if |text| >= 2 && text[0] == 0xC2 && (text[1] == 0x85 || text[1] == 0xA0) then 2
    else if |text| >= 3 && text[0] == 0xE1 && text[1] == 0x9A && text[2] == 0x80 then 3
    else if |text| >= 3 && text[0] == 0xE2 && text[1] == 0x80
            && (0x80 <= text[2] <= 0x8A || text[2] == 0xA8 || text[2] == 0xA9 || text[2] == 0xAF) then 3
    else if |text| >= 3 && text[0] == 0xE2 && text[1] == 0x81 && text[2] == 0x9F then 3
    else if |text| >= 3 && text[0] == 0xE3 && text[1] == 0x80 && text[2] == 0x80 then 3
    else 0
  }

  /** Nothing is left once white space is trimmed. */
  predicate IsBlank(text: Text) {
    text == [] || (WhiteSpaceAhead(text) > 0 && IsBlank(text[WhiteSpaceAhead(text)..]))
  }

  /** The code points Unicode gives the White_Space property. */
  ghost predicate IsWhiteSpace(point: nat) {
    || 9 <= point <= 13 || point == 32 || point == 0x85 || point == 0xA0 || point == 0x1680
    || 0x2000 <= point <= 0x200A || point == 0x2028 || point == 0x2029 || point == 0x202F || point == 0x205F || point == 0x3000
  }

  /** UTF-8 for the code points of the basic plane. */
  ghost function Utf8(point: nat): Text {
    if point < 0x80 then [point]
    else if point < 0x800 then [0xC0 + point / 64, 0x80 + point % 64]
    else [0xE0 + point / 4096, 0x80 + point / 64 % 64, 0x80 + point % 64]
  }

  ghost function Encoded(points: seq<nat>): Text {
    if points == [] then [] else Utf8(points[0]) + Encoded(points[1..])
  }

  ghost predicate AllWhite(points: seq<nat>) {
    forall point :: point in points ==> IsWhiteSpace(point)
  }

  lemma WhiteSpaceIsFound(point: nat, rest: Text)
    requires IsWhiteSpace(point)
    ensures WhiteSpaceAhead(Utf8(point) + rest) == |Utf8(point)|
  {
    var text := Utf8(point) + rest;
    assert text[0] == Utf8(point)[0];
    if point >= 0x80 {
      assert text[1] == Utf8(point)[1];
    }
    if point >= 0x800 {
      assert text[2] == Utf8(point)[2];
    }
  }

  lemma FoundIsWhiteSpace(text: Text) returns (point: nat)
    requires WhiteSpaceAhead(text) > 0
    ensures IsWhiteSpace(point) && text[..WhiteSpaceAhead(text)] == Utf8(point)
  {
    var n := WhiteSpaceAhead(text);
    if n == 1 {
      point := text[0];
    } else if n == 2 {
      point := text[1];
    } else {
      point := (text[0] - 0xE0) * 4096 + (text[1] - 0x80) * 64 + (text[2] - 0x80);
    }
  }

  lemma EncodedFirst(point: nat, points: seq<nat>)
    ensures Encoded([point] + points) == Utf8(point) + Encoded(points)
    ensures IsWhiteSpace(point) && AllWhite(points) ==> AllWhite([point] + points)
  {
    assert ([point] + points)[1..] == points;
  }

  lemma {:induction false} BlankIsWhiteSpace(text: Text) returns (points: seq<nat>)
    requires IsBlank(text)
    ensures AllWhite(points) && text == Encoded(points)
    decreases |text|
  {
    if text == [] {
      points := [];
    } else {
      var n := WhiteSpaceAhead(text);
      assert n > 0 && IsBlank(text[n..]);
      hide WhiteSpaceAhead, IsBlank, IsWhiteSpace, Utf8, Encoded, AllWhite;
      var first := FoundIsWhiteSpace(text);
      var rest := BlankIsWhiteSpace(text[n..]);
      points := [first] + rest;
      assert text == text[..n] + text[n..];
      EncodedFirst(first, rest);
    }
  }

  lemma {:induction false} WhiteSpaceIsBlank(points: seq<nat>)
    requires AllWhite(points)
    ensures IsBlank(Encoded(points))
  {
    if points != [] {
      var first, rest := Utf8(points[0]), Encoded(points[1..]);
      assert points[0] in points;
      WhiteSpaceIsFound(points[0], rest);
      WhiteSpaceIsBlank(points[1..]);
      assert (first + rest)[|first|..] == rest;
      hide WhiteSpaceAhead, IsWhiteSpace;
    }
  }

  /** A text is blank exactly when it is UTF-8 for white-space characters alone. */
  lemma BlankIff(text: Text)
    ensures IsBlank(text) <==> exists points :: AllWhite(points) && text == Encoded(points)
  {
    hide IsBlank, AllWhite, Encoded;
    if IsBlank(text) {
      var points := BlankIsWhiteSpace(text);
    }
    forall points | AllWhite(points) ensures IsBlank(Encoded(points)) {
      WhiteSpaceIsBlank(points);
    }
  }

  ghost predicate Serves(target: Target, request: Request) {
    target.repository == request.repository && target.targetRef == request.targetRef && target.effectClass == request.effectClass
  }

  /** The first catalog entry for the request's repository, reference and class. */
  function MatchRequest(catalog: seq<Target>, request: Request): (found: Option<Target>)
    ensures found.Some? ==>
              exists i :: 0 <= i < |catalog| && catalog[i] == found.value && Serves(catalog[i], request)
                          && forall j :: 0 <= j < i ==> !Serves(catalog[j], request)
    ensures found.None? ==> forall target :: target in catalog ==> !Serves(target, request)
  {
    if catalog == [] then None
    else if && catalog[0].repository == request.repository && catalog[0].targetRef == request.targetRef
            && catalog[0].effectClass == request.effectClass then Some(catalog[0])
    else
      var found := MatchRequest(catalog[1..], request);
      assert forall i :: 0 < i < |catalog| ==> catalog[i] == catalog[1..][i - 1];
      found
  }

  predicate InScope(target: Target, path: Text) {
    exists prefix :: prefix in target.prefixes && Under(path, prefix)
  }

  /** Some admitted prefix's components begin the path's components. */
  ghost predicate Contained(target: Target, path: Text) {
    exists prefix :: prefix in target.prefixes && Split(prefix, SLASH) <= Split(path, SLASH)
  }

  ghost predicate Admissible(office: Office, request: Request) {
    var target := MatchRequest(office.catalog, request);
    && request.effectClass == Ascii("git-ref-update:v1")
    && office.chain != [] && (forall node :: node in office.chain ==> !IsBlank(node))
    && target.Some? && request.actor in target.value.actors
    && forall path :: path in request.paths ==> Contained(target.value, path)
  }

  /** Each refusal says what is the case, the ones before it not being so. */
  ghost predicate Objects(office: Office, request: Request, refusal: Refusal) {
    var target := MatchRequest(office.catalog, request);
    var supported := request.effectClass == Ascii("git-ref-update:v1");
    var chained := supported && office.chain != [] && forall node :: node in office.chain ==> !IsBlank(node);
    match refusal
    case UnsupportedEffectClass => !supported
    case MalformedPrincipalChain => supported && !chained
    case TargetNotInCatalog => chained && target.None?
    case ActorNotAdmitted => chained && target.Some? && request.actor !in target.value.actors
    case PathOutsideScope(path) =>
      && chained && target.Some? && request.actor in target.value.actors
      && path in request.paths && !Contained(target.value, path)
    case _ => false
  }

  ghost function DecisionFor(office: Office, request: Request): Decision
    requires MatchRequest(office.catalog, request).Some?
  {
    var target := MatchRequest(office.catalog, request).value.id;
    Decision(OfDecision(request, office.context, target), target)
  }

  /** Decides without burning anything; an admitted request stays inside the target's prefixes component by component. */
  method Decide(office: Office, request: Request) returns (r: Result<Decision>)
    ensures r.Ok? <==> Admissible(office, request)
    ensures r.Ok? ==> r.value == DecisionFor(office, request)
    ensures r.Err? ==> Objects(office, request, r.refusal)
  {
    hide MatchRequest, Contained, IsBlank, Ascii;
    if request.effectClass != SUPPORTED {
      return Err(UnsupportedEffectClass);
    }
    if office.chain == [] || exists node :: node in office.chain && IsBlank(node) {
      return Err(MalformedPrincipalChain);
    }
    var found := MatchRequest(office.catalog, request);
    if found.None? {
      return Err(TargetNotInCatalog);
    }
    var target := found.value;
    if request.actor !in target.actors {
      return Err(ActorNotAdmitted);
    }
    var outside := PathsInScope(target, request.paths);
    if outside.Some? {
      return Err(PathOutsideScope(outside.value));
    }
    return Ok(Decision(OfDecision(request, office.context, target.id), target.id));
  }

  /** The first path outside the target's scope, if any. */
  method PathsInScope(target: Target, paths: seq<Text>) returns (outside: Option<Text>)
    ensures outside.None? <==> forall path :: path in paths ==> Contained(target, path)
    ensures outside.Some? ==> outside.value in paths && !Contained(target, outside.value)
  {
    hide InScope, Contained;
    var i := 0;
    while i < |paths|
      invariant i <= |paths|
      invariant forall j :: 0 <= j < i ==> Contained(target, paths[j])
    {
      ScopeIsComponentwise(target, paths[i]);
      if !InScope(target, paths[i]) {
        return Some(paths[i]);
      }
      i := i + 1;
    }
    return None;
  }

  lemma ScopeIsComponentwise(target: Target, path: Text)
    ensures InScope(target, path) <==> Contained(target, path)
  {
    forall prefix | prefix in target.prefixes ensures Under(path, prefix) <==> Split(prefix, SLASH) <= Split(path, SLASH) {
      UnderIsComponentwise(path, prefix);
    }
  }

  // ------------------------------------------------------------ issuing

  type Uses = map<Id, Id>

  /** One call to issue, under the calling office's context; the flags say which encodings succeed. */
  datatype Call = Call(request: Request, context: Context, decision: Decision, particulars: Particulars,
                       useEncodes: bool, bodyEncodes: bool)

  ghost function EnvelopeOf(call: Call, use: Id): Envelope {
    var issuance := OfIssuance(call.decision.id, call.particulars, call.context, call.decision.target, call.request, use);
    var body := Body(issuance, call.decision.id, call.particulars, call.context, call.decision.target, call.request, use);
    Envelope(body, call.particulars.signer, SignatureOver(call.particulars.signer, body))
  }

  ghost function UsesAfter(uses: Uses, call: Call): Uses {
    if call.decision.id in uses || !call.useEncodes then uses
    else uses[call.decision.id := OfUse(call.decision.id, call.context)]
  }

  ghost function IssueResult(uses: Uses, call: Call): Result<Envelope> {
    if call.decision.id in uses then Err(AuthorityUnavailable)
    else if !call.useEncodes || !call.bodyEncodes then Err(NotCanonical)
    else Ok(EnvelopeOf(call, OfUse(call.decision.id, call.context)))
  }

  class DecisionLedger {
    var consumed: Uses

    constructor ()
      ensures consumed == map[]
    {
      consumed := map[];
    }

    /** Burns the authority of one decision; a second burn of it is refused. */
    method Consume(decision: Id, context: Context, encodes: bool) returns (r: Result<Id>)
      modifies this
      ensures decision in old(consumed) ==> r == Err(AuthorityUnavailable)
      ensures r.Ok? ==> r.value == OfUse(decision, context) && consumed == old(consumed)[decision := r.value]
      ensures r.Err? ==> consumed == old(consumed)
      ensures decision !in old(consumed) && encodes ==> r.Ok?
      ensures decision !in old(consumed) && !encodes ==> r == Err(NotCanonical)
    {
      if decision in consumed {
        return Err(AuthorityUnavailable);
      }
      if !encodes {
        return Err(NotCanonical);
      }
      consumed := consumed[decision := OfUse(decision, context)];
      return Ok(OfUse(decision, context));
    }
  }

  /** Signed by the key it names, over this very body, whose identity is that of its own contents. */
  ghost predicate Authentic(envelope: Envelope) {
    var body := envelope.body;
    && envelope.signature == SignatureOver(envelope.signer, body) && envelope.signer == body.particulars.signer
    && body.issuance == OfIssuance(body.decision, body.particulars, body.context, body.target, body.request, body.use)
  }

  /** Burns first, then produces the body; a body that cannot be produced leaves the decision spent. */
  method Issue(call: Call, ledger: DecisionLedger) returns (r: Result<Envelope>)
    modifies ledger
    ensures ledger.consumed == UsesAfter(old(ledger.consumed), call)
    ensures r == IssueResult(old(ledger.consumed), call)
    ensures r.Ok? ==> Authentic(r.value) && r.value.body.use == ledger.consumed[call.decision.id]
  {
    var consumption := ledger.Consume(call.decision.id, call.context, call.useEncodes);
    if consumption.Err? {
      return Err(consumption.refusal);
    }
    if !call.bodyEncodes {
      return Err(NotCanonical);
    }
    var use, decision, signer := consumption.value, call.decision, call.particulars.signer;
    var issuance := OfIssuance(decision.id, call.particulars, call.context, decision.target, call.request, use);
    var body := Body(issuance, decision.id, call.particulars, call.context, decision.target, call.request, use);
    return Ok(Envelope(body, signer, SignatureOver(signer, body)));
  }

  // ------------------------------------------------------------ runs

  ghost function RunUses(uses: Uses, calls: seq<Call>): Uses {
    if calls == [] then uses else UsesAfter(RunUses(uses, calls[..|calls| - 1]), calls[|calls| - 1])
  }

  ghost function ResultAt(uses: Uses, calls: seq<Call>, i: nat): Result<Envelope>
    requires i < |calls|
  {
    IssueResult(RunUses(uses, calls[..i]), calls[i])
  }

  /** A recorded use stays what it is. */
  lemma {:induction false} UsesNeverChange(uses: Uses, calls: seq<Call>, i: nat, j: nat, decision: Id)
    requires i <= j <= |calls| && decision in RunUses(uses, calls[..i])
    ensures decision in RunUses(uses, calls[..j])
    ensures RunUses(uses, calls[..j])[decision] == RunUses(uses, calls[..i])[decision]
    decreases j
  {
    if i < j {
      UsesNeverChange(uses, calls, i, j - 1, decision);
      assert calls[..j][..j - 1] == calls[..j - 1];
    }
  }

  /** A call that burned its decision is the last that could: every later call on it is refused, even when the first
      produced no envelope. */
  lemma OneBurnPerDecision(uses: Uses, calls: seq<Call>, i: nat, j: nat)
    requires i < j < |calls| && calls[i].decision.id == calls[j].decision.id
    requires calls[i].useEncodes || calls[i].decision.id in RunUses(uses, calls[..i])
    ensures ResultAt(uses, calls, j) == Err(AuthorityUnavailable)
  {
    assert calls[..i + 1][..i] == calls[..i];
    UsesNeverChange(uses, calls, i + 1, j, calls[i].decision.id);
  }

  lemma OneEnvelopePerDecision(uses: Uses, calls: seq<Call>, i: nat, j: nat)
    requires i < j < |calls| && ResultAt(uses, calls, i).Ok? && ResultAt(uses, calls, j).Ok?
    ensures ResultAt(uses, calls, i).value.body.decision != ResultAt(uses, calls, j).value.body.decision
  {
    if calls[i].decision.id == calls[j].decision.id {
      OneBurnPerDecision(uses, calls, i, j);
    }
  }

  /** The call passes the request its decision was made from. */
  ghost predicate Honest(call: Call) {
    call.decision.id == OfDecision(call.request, call.context, call.decision.target)
  }

  ghost predicate SameSubject(a: Envelope, b: Envelope) {
    a.body.request == b.body.request && a.body.context == b.body.context && a.body.target == b.body.target
  }

  /** Among honest calls no two envelopes are for the same request, context and target. */
  lemma HonestEnvelopesDiffer(uses: Uses, calls: seq<Call>, i: nat, j: nat)
    requires i < j < |calls| && ResultAt(uses, calls, i).Ok? && ResultAt(uses, calls, j).Ok?
    requires Honest(calls[i]) && Honest(calls[j])
    ensures !SameSubject(ResultAt(uses, calls, i).value, ResultAt(uses, calls, j).value)
  {
    OneEnvelopePerDecision(uses, calls, i, j);
  }

  // ------------------------------------------------------------ one request issued twice

  /** A call that spends what this office decided for the request it was asked, whichever request it passes along. */
  ghost predicate Decided(office: Office, call: Call, asked: Request) {
    Admissible(office, asked) && call.decision == DecisionFor(office, asked) && call.context == office.context
  }

  /** No call up to here, but for the excepted one, has burned this decision. */
  ghost predicate Unspent(uses: Uses, calls: seq<Call>, n: nat, except: nat, decision: Id)
    requires n <= |calls|
  {
    decision !in uses && forall m :: 0 <= m < n && m != except ==> !(calls[m].decision.id == decision && calls[m].useEncodes)
  }

  lemma {:induction false} SpentIff(uses: Uses, calls: seq<Call>, n: nat, decision: Id)
    requires n <= |calls|
    ensures decision !in RunUses(uses, calls[..n]) <==> Unspent(uses, calls, n, n, decision)
  {
    if n > 0 {
      SpentIff(uses, calls, n - 1, decision);
      assert calls[..n][..n - 1] == calls[..n - 1];
    }
  }

  /** Any call of any run succeeds exactly when its encodings do and its decision was not burned before it. */
  lemma SucceedsIff(uses: Uses, calls: seq<Call>, i: nat)
    requires i < |calls|
    ensures ResultAt(uses, calls, i).Ok? <==>
            calls[i].useEncodes && calls[i].bodyEncodes && Unspent(uses, calls, i, i, calls[i].decision.id)
  {
    SpentIff(uses, calls, i, calls[i].decision.id);
  }

  /** Issuing does not tie the request to the decision.  Two calls of a run, under decisions this office made for `p`
      and for `q`, issue one subject twice exactly when they pass one request, the two decisions share a target but
      were made for different requests, the encodings succeed and nothing else spent those decisions before. */
  lemma SubjectIsIssuedTwiceIff(office: Office, uses: Uses, calls: seq<Call>, i: nat, j: nat, p: Request, q: Request)
    requires i < j < |calls| && Decided(office, calls[i], p) && Decided(office, calls[j], q)
    ensures (&& ResultAt(uses, calls, i).Ok? && ResultAt(uses, calls, j).Ok?
             && SameSubject(ResultAt(uses, calls, i).value, ResultAt(uses, calls, j).value)) <==>
            && calls[i].request == calls[j].request
            && MatchRequest(office.catalog, p).value.id == MatchRequest(office.catalog, q).value.id && p != q
            && calls[i].useEncodes && calls[i].bodyEncodes && calls[j].useEncodes && calls[j].bodyEncodes
            && Unspent(uses, calls, i, i, calls[i].decision.id) && Unspent(uses, calls, j, i, calls[j].decision.id)
  {
    hide ResultAt, RunUses, Admissible, MatchRequest;
    SucceedsIff(uses, calls, i);
    SucceedsIff(uses, calls, j);
    EnvelopesCarryTheCall(uses, calls, i);
    EnvelopesCarryTheCall(uses, calls, j);
    assert calls[i].decision.id == calls[j].decision.id <==> p == q;
  }

  lemma EnvelopesCarryTheCall(uses: Uses, calls: seq<Call>, i: nat)
    requires i < |calls|
    ensures ResultAt(uses, calls, i).Ok? ==>
              var envelope := ResultAt(uses, calls, i).value.body;
              && envelope.request == calls[i].request && envelope.context == calls[i].context
              && envelope.target == calls[i].decision.target && envelope.decision == calls[i].decision.id
  {
  }

  /** So with any two admissible requests for one target, either can be issued twice: under its own decision and under
      the other's. */
  lemma EitherIsIssuedTwice(office: Office, p: Request, q: Request, particulars: Particulars)
    requires Admissible(office, p) && Admissible(office, q) && p != q
    requires MatchRequest(office.catalog, p).value.id == MatchRequest(office.catalog, q).value.id
    ensures var calls := [Call(p, office.context, DecisionFor(office, p), particulars, true, true),
                          Call(p, office.context, DecisionFor(office, q), particulars, true, true)];
            && ResultAt(map[], calls, 0).Ok? && ResultAt(map[], calls, 1).Ok?
            && SameSubject(ResultAt(map[], calls, 0).value, ResultAt(map[], calls, 1).value)
  {
    var calls := [Call(p, office.context, DecisionFor(office, p), particulars, true, true),
                  Call(p, office.context, DecisionFor(office, q), particulars, true, true)];
    SubjectIsIssuedTwiceIff(office, map[], calls, 0, 1, p, q);
  }

  /** Such requests are easy to come by: two attempts at one change. */
  ghost function Attempt(n: nat): Request {
    Request(Ascii("repo"), Ascii("main"), SUPPORTED, Ascii("ci"), [Ascii("src")], [n], [])
  }

  lemma TwoAttemptsShareATarget()
    ensures var office := Office(Context([], []), [[1]],
                                 [Target(Ascii("t"), Ascii("repo"), Ascii("main"), SUPPORTED, [Ascii("ci")], [Ascii("src")])]);
            && Admissible(office, Attempt(1)) && Admissible(office, Attempt(2)) && Attempt(1) != Attempt(2)
            && MatchRequest(office.catalog, Attempt(1)).value.id == MatchRequest(office.catalog, Attempt(2)).value.id
  {
    hide Ascii;
    var target := Target(Ascii("t"), Ascii("repo"), Ascii("main"), SUPPORTED, [Ascii("ci")], [Ascii("src")]);
    assert Ascii("src") in target.prefixes && Contained(target, Ascii("src"));
    assert 1 in [1];
    assert [1] != [2];
  }
}
