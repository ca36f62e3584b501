/** The four-family effect crossing: what an admission is and how authority is rebuilt from one. */
module Kernel {
  import opened Basics
  import opened Records

  /** An entry list replays when every entry belongs to the origin and no reference repeats. */
  predicate Replays(origin: Origin, entries: seq<Entry>) {
    && (forall e :: e in entries ==> e.reference.origin == origin)
    && (forall i, j :: 0 <= i < j < |entries| ==> entries[i].reference != entries[j].reference)
  }

  predicate BooksReplay(books: Books) {
    && Replays(books.origin, books.standing) && Replays(books.origin, books.custody)
    && Replays(books.origin, books.obligation) && Replays(books.origin, books.capacity)
  }

  /** The hash-chained head of a replayed book. */
  function Head(family: Family, entries: seq<Entry>): Digest {
    if entries == [] then EmptyBook
    else OfBookEvent(family, Head(family, entries[..|entries| - 1]), entries[|entries| - 1])
  }

  function Find(entries: seq<Entry>, reference: Ref): (found: Option<Entry>)
    ensures found.Some? ==> found.value in entries && found.value.reference == reference
    ensures found.None? ==> forall e :: e in entries ==> e.reference != reference
  {
    if entries == [] then None
    else if entries[0].reference == reference then Some(entries[0])
    else Find(entries[1..], reference)
  }

  /** One family's native decision about one claim. */
  function Decide(family: Family, origin: Origin, entries: seq<Entry>, claim: Claim): Option<FamilyWitness> {
    var found := Find(entries, claim.reference);
    if claim.origin == origin && claim.reference.origin == claim.origin &&
       found.Some? && found.value.subject == claim.subject
    then Some(FamilyWitness(claim, Head(family, entries), found.value.subject))
    else None
  }

  /** Every failure of the claim against the book, none hiding another. */
  function Failures(origin: Origin, entries: seq<Entry>, claim: Claim): seq<FamilyFailure> {
    var found := Find(entries, claim.reference);
    (if claim.origin != origin then [BookOriginMismatch(claim.origin, origin)] else []) +
    (if claim.reference.origin != claim.origin then [ReferenceOriginMismatch(claim.origin, claim.reference.origin)] else []) +
    (if found.None? then [MissingReference(claim.reference)]
     else if found.value.subject != claim.subject then [SubjectMismatch(claim.reference, claim.subject, found.value.subject)]
     else [])
  }

  datatype Native = NativeAdmit(evidence: Witness) | NativeRefuse(failures: seq<CrossingFailure>)

  function Refused(family: Family, origin: Origin, entries: seq<Entry>, claim: Claim): seq<CrossingFailure> {
    if Decide(family, origin, entries, claim).Some? then [] else [FamilyRefused(family, Failures(origin, entries, claim))]
  }

  function Strays(family: Family, claim: Claim, shared: Origin): seq<CrossingFailure> {
    if claim.origin == shared then [] else [OriginMismatch(family, shared, claim.origin)]
  }

  /** The families' own failures first, then the claims that do not share the standing claim's origin. */
  function Report(books: Books, claim: CrossingClaim): seq<CrossingFailure> {
    Refused(Standing, books.origin, books.standing, claim.standing) +
    Refused(Custodial, books.origin, books.custody, claim.custody) +
    Refused(Obligation, books.origin, books.obligation, claim.obligation) +
    Refused(Capacity, books.origin, books.capacity, claim.capacity) +
    Strays(Custodial, claim.custody, claim.standing.origin) +
    Strays(Obligation, claim.obligation, claim.standing.origin) +
    Strays(Capacity, claim.capacity, claim.standing.origin)
  }

  /** All four families are decided before anything is refused. */
  function Evaluate(books: Books, claim: CrossingClaim): Native {
    var standing := Decide(Standing, books.origin, books.standing, claim.standing);
    var custody := Decide(Custodial, books.origin, books.custody, claim.custody);
    var obligation := Decide(Obligation, books.origin, books.obligation, claim.obligation);
    var capacity := Decide(Capacity, books.origin, books.capacity, claim.capacity);
    var failures := Report(books, claim);
    if standing.Some? && custody.Some? && obligation.Some? && capacity.Some? && failures == [] then
      NativeAdmit(Witness(standing.value, custody.value, obligation.value, capacity.value))
    else
      NativeRefuse(failures)
  }

  function WitnessContext(evidence: Witness): Digest {
    OfContext([evidence.standing.head, evidence.custody.head, evidence.obligation.head, evidence.capacity.head])
  }

  function BooksContext(books: Books): Digest {
    OfContext([Head(Standing, books.standing), Head(Custodial, books.custody),
               Head(Obligation, books.obligation), Head(Capacity, books.capacity)])
  }

  function CommitOf(evidence: Witness): Commit {
    var digest := OfWitness(evidence);
    var context := WitnessContext(evidence);
    Commit(evidence, digest, context, OfCommit(digest, context))
  }

  /** Authority comes back only from evidence that verifies and replays to the same witness. */
  function Reconstruct(books: Books, commit: Commit): Option<Digest> {
    var w := commit.evidence;
    var claim := CrossingClaim(w.standing.claim, w.custody.claim, w.obligation.claim, w.capacity.claim);
    if && commit.witnessDigest == OfWitness(w)
       && commit.commitDigest == OfCommit(commit.witnessDigest, commit.context)
       && commit.context == BooksContext(books)
       && Evaluate(books, claim) == NativeAdmit(w)
    then Some(commit.commitDigest)
    else None
  }

  /** Evidence committed at admission always rebuilds, to the digest it was committed under. */
  lemma AdmissionReconstructs(books: Books, claim: CrossingClaim)
    requires Evaluate(books, claim).NativeAdmit?
    ensures var commit := CommitOf(Evaluate(books, claim).evidence);
            Reconstruct(books, commit) == Some(commit.commitDigest)
  {
    var w := Evaluate(books, claim).evidence;
    assert CrossingClaim(w.standing.claim, w.custody.claim, w.obligation.claim, w.capacity.claim) == claim;
  }

  /** Only that evidence rebuilds: a commit changed in any field is refused. */
  lemma OnlyAdmissionReconstructs(books: Books, commit: Commit)
    requires Reconstruct(books, commit).Some?
    ensures commit == CommitOf(commit.evidence)
    ensures exists claim :: Evaluate(books, claim) == NativeAdmit(commit.evidence)
  {
    var w := commit.evidence;
    var claim := CrossingClaim(w.standing.claim, w.custody.claim, w.obligation.claim, w.capacity.claim);
    assert Evaluate(books, claim) == NativeAdmit(w);
  }

  /** A family decides for a claim exactly when it has no failure, and each failure it reports is the case. */
  lemma FailuresAreExact(family: Family, origin: Origin, entries: seq<Entry>, claim: Claim, failure: FamilyFailure)
    requires Replays(origin, entries)
    ensures Decide(family, origin, entries, claim).Some? <==> Failures(origin, entries, claim) == []
    ensures failure in Failures(origin, entries, claim) <==>
            match failure
            case BookOriginMismatch(a, b) => a == claim.origin != origin && b == origin
            case ReferenceOriginMismatch(a, b) => a == claim.origin != claim.reference.origin && b == claim.reference.origin
            case MissingReference(r) => r == claim.reference && forall e :: e in entries ==> e.reference != r
            case SubjectMismatch(r, x, y) =>
              r == claim.reference && x == claim.subject != y && Entry(r, y) in entries
  {
    var found := Find(entries, claim.reference);
    if found.Some? {
      assert found.value == Entry(claim.reference, found.value.subject);
      forall e | e in entries && e.reference == claim.reference ensures e == found.value {
        var i :| 0 <= i < |entries| && entries[i] == e;
        var j :| 0 <= j < |entries| && entries[j] == found.value;
      }
    }
  }

  function BookOf(books: Books, family: Family): seq<Entry> {
    match family
    case Standing => books.standing
    case Custodial => books.custody
    case Obligation => books.obligation
    case Capacity => books.capacity
  }

  function ClaimOf(claim: CrossingClaim, family: Family): Claim {
    match family
    case Standing => claim.standing
    case Custodial => claim.custody
    case Obligation => claim.obligation
    case Capacity => claim.capacity
  }

  /** What there is to report: each family that fails, with all its failures, and each origin that is not the
      standing claim's. */
  predicate Reportable(books: Books, claim: CrossingClaim, failure: CrossingFailure) {
    match failure
    case FamilyRefused(family, failures) =>
      failures == Failures(books.origin, BookOf(books, family), ClaimOf(claim, family)) && failures != []
    case OriginMismatch(family, expected, observed) =>
      !family.Standing? && expected == claim.standing.origin && observed == ClaimOf(claim, family).origin != expected
  }

  lemma FamilyIsNamed(family: Family, origin: Origin, entries: seq<Entry>, claim: Claim, failure: CrossingFailure)
    ensures failure in Refused(family, origin, entries, claim) <==>
            failure == FamilyRefused(family, Failures(origin, entries, claim)) && Failures(origin, entries, claim) != []
    ensures Decide(family, origin, entries, claim).Some? <==> Refused(family, origin, entries, claim) == []
  {
  }

  lemma StrayIsNamed(family: Family, claim: Claim, shared: Origin, failure: CrossingFailure)
    ensures failure in Strays(family, claim, shared) <==>
            failure == OriginMismatch(family, shared, claim.origin) && claim.origin != shared
  {
  }

  lemma InSeven<T>(x: T, a: seq<T>, b: seq<T>, c: seq<T>, d: seq<T>, e: seq<T>, f: seq<T>, g: seq<T>)
    ensures x in a + b + c + d + e + f + g <==> x in a || x in b || x in c || x in d || x in e || x in f || x in g
  {
  }

  /** Families that all decide for their claims share the books' origin. */
  lemma OriginsAgree(books: Books, claim: CrossingClaim)
    ensures Decide(Standing, books.origin, books.standing, claim.standing).Some? ==> claim.standing.origin == books.origin
    ensures Decide(Custodial, books.origin, books.custody, claim.custody).Some? ==> claim.custody.origin == books.origin
    ensures Decide(Obligation, books.origin, books.obligation, claim.obligation).Some? ==> claim.obligation.origin == books.origin
    ensures Decide(Capacity, books.origin, books.capacity, claim.capacity).Some? ==> claim.capacity.origin == books.origin
  {
  }

  lemma ReportIsExact(books: Books, claim: CrossingClaim, failure: CrossingFailure)
    ensures failure in Report(books, claim) <==> Reportable(books, claim, failure)
  {
    hide Find, Head, Decide, Failures, Refused, Strays;
    FamilyIsNamed(Standing, books.origin, books.standing, claim.standing, failure);
    FamilyIsNamed(Custodial, books.origin, books.custody, claim.custody, failure);
    FamilyIsNamed(Obligation, books.origin, books.obligation, claim.obligation, failure);
    FamilyIsNamed(Capacity, books.origin, books.capacity, claim.capacity, failure);
    StrayIsNamed(Custodial, claim.custody, claim.standing.origin, failure);
    StrayIsNamed(Obligation, claim.obligation, claim.standing.origin, failure);
    StrayIsNamed(Capacity, claim.capacity, claim.standing.origin, failure);
    InSeven(failure,
            Refused(Standing, books.origin, books.standing, claim.standing),
            Refused(Custodial, books.origin, books.custody, claim.custody),
            Refused(Obligation, books.origin, books.obligation, claim.obligation),
            Refused(Capacity, books.origin, books.capacity, claim.capacity),
            Strays(Custodial, claim.custody, claim.standing.origin),
            Strays(Obligation, claim.obligation, claim.standing.origin),
            Strays(Capacity, claim.capacity, claim.standing.origin));
  }

  predicate AllDecide(books: Books, claim: CrossingClaim) {
    && Decide(Standing, books.origin, books.standing, claim.standing).Some?
    && Decide(Custodial, books.origin, books.custody, claim.custody).Some?
    && Decide(Obligation, books.origin, books.obligation, claim.obligation).Some?
    && Decide(Capacity, books.origin, books.capacity, claim.capacity).Some?
  }

  lemma NothingToReportIff(books: Books, claim: CrossingClaim)
    ensures Report(books, claim) == [] <==> AllDecide(books, claim)
  {
    hide Find, Head, Failures;
    OriginsAgree(books, claim);
    if Report(books, claim) == [] {
      assert |Refused(Standing, books.origin, books.standing, claim.standing)| == 0;
    }
  }

  /** A refusal is never empty-handed and reports everything there is to report and nothing else; an admission
      leaves no family out. */
  lemma RefusalsNameEveryFailure(books: Books, claim: CrossingClaim, failure: CrossingFailure)
    ensures Evaluate(books, claim).NativeRefuse? ==>
              && Evaluate(books, claim).failures != []
              && (failure in Evaluate(books, claim).failures <==> Reportable(books, claim, failure))
    ensures Evaluate(books, claim).NativeAdmit? <==> AllDecide(books, claim)
  {
    hide Decide, Report, Reportable;
    NothingToReportIff(books, claim);
    ReportIsExact(books, claim, failure);
  }

  /** The stored record of one evaluation. */
  function Judge(subject: Digest, books: Books, claim: CrossingClaim): JudgmentRecord {
    match Evaluate(books, claim)
    case NativeAdmit(evidence) => JudgmentRecord(subject, Some(books), Admit(CommitOf(evidence)))
    case NativeRefuse(failures) => JudgmentRecord(subject, Some(books), Refuse(failures))
  }

  /** Rebuilds authority from the stored record that carries this digest. */
  function VerifyAdmission(judgments: map<Digest, JudgmentRecord>, judgment: Digest,
                           subject: Digest): Result<Admission> {
    if judgment !in judgments then Err(JudgmentNotFound)
    else
      var record := judgments[judgment];
      if OfJudgment(record) != judgment || record.subject != subject then Err(JudgmentBindingMismatch)
      else if !record.judgment.Admit? then Err(JudgmentDidNotAdmit)
      else if record.books.None? then Err(JudgmentBindingMismatch)
      else if !BooksReplay(record.books.value) then Err(BookReplay)
      else
        var rebuilt := Reconstruct(record.books.value, record.judgment.commit);
        if rebuilt.None? then Err(AuthorityReplay)
        else Ok(Admission(judgment, rebuilt.value))
  }

  /** What may be stored: an admission whose books replay and rebuild it, every claim about the record's own subject. */
  predicate JudgmentSound(record: JudgmentRecord) {
    record.judgment.Admit? ==>
      && record.books.Some? && BooksReplay(record.books.value)
      && Reconstruct(record.books.value, record.judgment.commit).Some?
      && AboutSubject(record.judgment.commit.evidence, record.subject)
  }

  predicate AboutSubject(w: Witness, subject: Digest) {
    w.standing.claim.subject == w.custody.claim.subject == w.obligation.claim.subject == w.capacity.claim.subject == subject
  }

  lemma EvaluationIsSound(subject: Digest, books: Books, claim: CrossingClaim)
    requires BooksReplay(books)
    requires claim.standing.subject == claim.custody.subject == claim.obligation.subject == claim.capacity.subject == subject
    ensures JudgmentSound(Judge(subject, books, claim))
  {
    hide BooksReplay, Find, Head, Report, Reconstruct;
    if Evaluate(books, claim).NativeAdmit? {
      AdmissionReconstructs(books, claim);
    }
  }

  // ------------------------------------------------------------ what verification promises

  ghost predicate Links(family: Family, entries: seq<Entry>, links: seq<Digest>) {
    && |links| == |entries| + 1 && links[0] == EmptyBook
    && forall i :: 0 <= i < |entries| ==> links[i + 1] == OfBookEvent(family, links[i], entries[i])
  }

  /** The head is the end of a hash chain that starts at the empty book and takes in the entries in order. */
  ghost predicate ChainsTo(family: Family, entries: seq<Entry>, head: Digest) {
    exists links :: Links(family, entries, links) && links[|entries|] == head
  }

  /** The book holds exactly what the witness claims: its reference, inside this lifecycle, for its subject. */
  ghost predicate Supported(family: Family, origin: Origin, entries: seq<Entry>, w: FamilyWitness) {
    && w.claim.origin == origin && w.claim.reference.origin == origin
    && Entry(w.claim.reference, w.claim.subject) in entries && w.observed == w.claim.subject
    && ChainsTo(family, entries, w.head)
  }

  /** Each family's book supports its witness, and the commit is over exactly that evidence and those heads. */
  ghost predicate Genuine(books: Books, commit: Commit) {
    var w := commit.evidence;
    && Supported(Standing, books.origin, books.standing, w.standing)
    && Supported(Custodial, books.origin, books.custody, w.custody)
    && Supported(Obligation, books.origin, books.obligation, w.obligation)
    && Supported(Capacity, books.origin, books.capacity, w.capacity)
    && commit.witnessDigest == OfWitness(w)
    && commit.context == OfContext([w.standing.head, w.custody.head, w.obligation.head, w.capacity.head])
    && commit.commitDigest == OfCommit(commit.witnessDigest, commit.context)
  }

  /** Every entry belongs to the origin and no reference is entered twice. */
  ghost predicate Orderly(origin: Origin, entries: seq<Entry>) {
    forall i :: 0 <= i < |entries| ==>
      entries[i].reference.origin == origin && forall j :: 0 <= j < i ==> entries[j].reference != entries[i].reference
  }

  ghost predicate AllOrderly(books: Books) {
    && Orderly(books.origin, books.standing) && Orderly(books.origin, books.custody)
    && Orderly(books.origin, books.obligation) && Orderly(books.origin, books.capacity)
  }

  lemma {:induction false} HeadHasLinks(family: Family, entries: seq<Entry>) returns (links: seq<Digest>)
    ensures Links(family, entries, links) && links[|entries|] == Head(family, entries)
    decreases |entries|
  {
    if entries == [] {
      links := [EmptyBook];
    } else {
      var front := HeadHasLinks(family, entries[..|entries| - 1]);
      links := front + [Head(family, entries)];
    }
  }

  lemma {:induction false} LinksEndInHead(family: Family, entries: seq<Entry>, links: seq<Digest>)
    requires Links(family, entries, links)
    ensures links[|entries|] == Head(family, entries)
    decreases |entries|
  {
    if entries != [] {
      LinksEndInHead(family, entries[..|entries| - 1], links[..|entries|]);
    }
  }

  lemma HeadChains(family: Family, entries: seq<Entry>, head: Digest)
    ensures ChainsTo(family, entries, head) <==> head == Head(family, entries)
  {
    hide Head;
    var own := HeadHasLinks(family, entries);
    if ChainsTo(family, entries, head) {
      var links :| Links(family, entries, links) && links[|entries|] == head;
      LinksEndInHead(family, entries, links);
    }
  }

  lemma OrderlyMeans(origin: Origin, entries: seq<Entry>)
    ensures Orderly(origin, entries) <==> Replays(origin, entries)
  {
    if Orderly(origin, entries) {
      forall e | e in entries ensures e.reference.origin == origin {
        var i :| 0 <= i < |entries| && entries[i] == e;
      }
    }
  }

  lemma AllOrderlyMeans(books: Books)
    ensures AllOrderly(books) <==> BooksReplay(books)
  {
    OrderlyMeans(books.origin, books.standing);
    OrderlyMeans(books.origin, books.custody);
    OrderlyMeans(books.origin, books.obligation);
    OrderlyMeans(books.origin, books.capacity);
    hide Orderly, Replays;
  }

  lemma SupportedMeans(family: Family, origin: Origin, entries: seq<Entry>, w: FamilyWitness)
    requires Replays(origin, entries)
    ensures Supported(family, origin, entries, w) <==> Decide(family, origin, entries, w.claim) == Some(w)
  {
    HeadChains(family, entries, w.head);
    hide Head, ChainsTo;
    var found := Find(entries, w.claim.reference);
    if Entry(w.claim.reference, w.claim.subject) in entries {
      var i :| 0 <= i < |entries| && entries[i] == Entry(w.claim.reference, w.claim.subject);
      assert found.Some? && found.value in entries;
      var j :| 0 <= j < |entries| && entries[j] == found.value;
      assert i == j;
    }
  }

  lemma GenuineMeans(books: Books, commit: Commit)
    requires BooksReplay(books)
    ensures Genuine(books, commit) <==> Reconstruct(books, commit) == Some(commit.commitDigest)
  {
    var w := commit.evidence;
    var claim := CrossingClaim(w.standing.claim, w.custody.claim, w.obligation.claim, w.capacity.claim);
    SupportedMeans(Standing, books.origin, books.standing, w.standing);
    SupportedMeans(Custodial, books.origin, books.custody, w.custody);
    SupportedMeans(Obligation, books.origin, books.obligation, w.obligation);
    SupportedMeans(Capacity, books.origin, books.capacity, w.capacity);
    OriginsAgree(books, claim);
    NothingToReportIff(books, claim);
    DecidedHeads(books, claim);
    hide Decide, Head, Report, Supported;
  }

  lemma DecidedHeads(books: Books, claim: CrossingClaim)
    ensures AllDecide(books, claim) ==>
              && Decide(Standing, books.origin, books.standing, claim.standing).value.head == Head(Standing, books.standing)
              && Decide(Custodial, books.origin, books.custody, claim.custody).value.head == Head(Custodial, books.custody)
              && Decide(Obligation, books.origin, books.obligation, claim.obligation).value.head == Head(Obligation, books.obligation)
              && Decide(Capacity, books.origin, books.capacity, claim.capacity).value.head == Head(Capacity, books.capacity)
  {
  }

  /** What a judgment must be to admit a subject: stored under its own digest, made about that subject, admitting, with
      orderly books that support every part of its evidence. */
  ghost predicate AdmitsSubject(judgments: map<Digest, JudgmentRecord>, judgment: Digest, subject: Digest, admission: Admission) {
    && judgment in judgments
    && var record := judgments[judgment];
    && judgment == OfJudgment(record) && record.subject == subject
    && record.judgment.Admit? && record.books.Some? && AllOrderly(record.books.value)
    && Genuine(record.books.value, record.judgment.commit)
    && admission == Admission(judgment, record.judgment.commit.commitDigest)
  }

  /** Verification succeeds for exactly those, and every failure says which part is missing. */
  lemma VerifiesIff(judgments: map<Digest, JudgmentRecord>, judgment: Digest, subject: Digest, admission: Admission)
    ensures VerifyAdmission(judgments, judgment, subject) == Ok(admission) <==>
            AdmitsSubject(judgments, judgment, subject, admission)
  {
    if judgment in judgments && judgments[judgment].books.Some? && judgments[judgment].judgment.Admit? {
      var books := judgments[judgment].books.value;
      AllOrderlyMeans(books);
      if BooksReplay(books) {
        GenuineMeans(books, judgments[judgment].judgment.commit);
      }
    }
    hide Genuine, Reconstruct, AllOrderly, BooksReplay;
  }

  lemma RejectionsSayWhy(judgments: map<Digest, JudgmentRecord>, judgment: Digest, subject: Digest)
    ensures VerifyAdmission(judgments, judgment, subject) == Err(JudgmentNotFound) <==> judgment !in judgments
    ensures VerifyAdmission(judgments, judgment, subject).Err? && judgment in judgments ==>
              var record, error := judgments[judgment], VerifyAdmission(judgments, judgment, subject).error;
              match error
              case JudgmentBindingMismatch => judgment != OfJudgment(record) || record.subject != subject || record.books.None?
              case JudgmentDidNotAdmit => record.subject == subject && !record.judgment.Admit?
              case BookReplay => record.subject == subject && record.books.Some? && !AllOrderly(record.books.value)
              case AuthorityReplay =>
                && record.subject == subject && record.judgment.Admit? && record.books.Some?
                && !Genuine(record.books.value, record.judgment.commit)
              case _ => false
  {
    if judgment in judgments && judgments[judgment].books.Some? && judgments[judgment].judgment.Admit? {
      var books := judgments[judgment].books.value;
      AllOrderlyMeans(books);
      if BooksReplay(books) {
        GenuineMeans(books, judgments[judgment].judgment.commit);
      }
    }
    hide Genuine, Reconstruct, AllOrderly, BooksReplay;
  }

  /** An admitted evaluation verifies in every store that still holds its record. */
  lemma AdmittedVerifies(judgments: map<Digest, JudgmentRecord>, subject: Digest, books: Books, claim: CrossingClaim)
    requires BooksReplay(books)
    requires Judge(subject, books, claim).judgment.Admit?
    requires var r := Judge(subject, books, claim); OfJudgment(r) in judgments && judgments[OfJudgment(r)] == r
    ensures var r := Judge(subject, books, claim);
            VerifyAdmission(judgments, OfJudgment(r), subject) == Ok(Admission(OfJudgment(r), r.judgment.commit.commitDigest))
  {
    AdmissionReconstructs(books, claim);
  }

  /** What a stored evaluation says is so: it is about that subject and those books; it admits exactly when each book
      supports its family's claim, and its commit is then genuine and carries those claims. */
  lemma JudgmentsAreTrue(subject: Digest, books: Books, claim: CrossingClaim)
    requires BooksReplay(books)
    ensures var r := Judge(subject, books, claim);
            && r.subject == subject && r.books == Some(books)
            && (r.judgment.Admit? <==>
                  && Holds(books.origin, books.standing, claim.standing) && Holds(books.origin, books.custody, claim.custody)
                  && Holds(books.origin, books.obligation, claim.obligation) && Holds(books.origin, books.capacity, claim.capacity))
            && (r.judgment.Admit? ==>
                  && Genuine(books, r.judgment.commit)
                  && var w := r.judgment.commit.evidence;
                     w.standing.claim == claim.standing && w.custody.claim == claim.custody
                     && w.obligation.claim == claim.obligation && w.capacity.claim == claim.capacity)
            && (!r.judgment.Admit? ==> r.judgment == Refuse(Report(books, claim)))
  {
    HoldsMeans(Standing, books.origin, books.standing, claim.standing);
    HoldsMeans(Custodial, books.origin, books.custody, claim.custody);
    HoldsMeans(Obligation, books.origin, books.obligation, claim.obligation);
    HoldsMeans(Capacity, books.origin, books.capacity, claim.capacity);
    NothingToReportIff(books, claim);
    if Evaluate(books, claim).NativeAdmit? {
      AdmissionReconstructs(books, claim);
      GenuineMeans(books, CommitOf(Evaluate(books, claim).evidence));
    }
    hide Find, Head, Report, Genuine, Reconstruct, Holds;
  }

  /** The book has the claimed reference, inside this lifecycle, for the claimed subject. */
  ghost predicate Holds(origin: Origin, entries: seq<Entry>, claim: Claim) {
    claim.origin == origin && claim.reference.origin == origin && Entry(claim.reference, claim.subject) in entries
  }

  lemma HoldsMeans(family: Family, origin: Origin, entries: seq<Entry>, claim: Claim)
    requires Replays(origin, entries)
    ensures Holds(origin, entries, claim) <==> Decide(family, origin, entries, claim).Some?
    ensures Decide(family, origin, entries, claim).Some? ==> Decide(family, origin, entries, claim).value.claim == claim
  {
    var w := FamilyWitness(claim, Head(family, entries), claim.subject);
    HeadChains(family, entries, w.head);
    SupportedMeans(family, origin, entries, w);
    hide Head, ChainsTo;
  }

  /** Verification reads one row only, so it cannot change while that row stays. */
  lemma AdmissionIsStable(judgments: map<Digest, JudgmentRecord>, later: map<Digest, JudgmentRecord>,
                          judgment: Digest, subject: Digest)
    requires judgment in judgments && judgment in later && later[judgment] == judgments[judgment]
    ensures VerifyAdmission(later, judgment, subject) == VerifyAdmission(judgments, judgment, subject)
  {
  }

  // ------------------------------------------------------------ the governor's own claim for a worker

  function WorkerBooks(origin: Origin, subject: Digest): Books {
    Books(origin,
          [Entry(Ref(origin, WorkerStanding), subject)],
          [Entry(Ref(origin, WorkerCustody), subject)],
          [Entry(Ref(origin, WorkerMapping), subject)],
          [Entry(Ref(origin, WorkerCapacity), subject)])
  }

  function WorkerClaim(origin: Origin, subject: Digest): CrossingClaim {
    CrossingClaim(Claim(origin, subject, Ref(origin, WorkerStanding)),
                  Claim(origin, subject, Ref(origin, WorkerCustody)),
                  Claim(origin, subject, Ref(origin, WorkerMapping)),
                  Claim(origin, subject, Ref(origin, WorkerCapacity)))
  }

  function WorkerJudgment(origin: Origin, subject: Digest): JudgmentRecord {
    Judge(subject, WorkerBooks(origin, subject), WorkerClaim(origin, subject))
  }

  /** The reviewed worker mapping always admits, and its record verifies wherever it is stored. */
  lemma WorkerJudgmentAdmits(origin: Origin, subject: Digest)
    ensures BooksReplay(WorkerBooks(origin, subject)) && JudgmentSound(WorkerJudgment(origin, subject))
    ensures WorkerJudgment(origin, subject).judgment.Admit?
    ensures forall judgments: map<Digest, JudgmentRecord> ::
              var r := WorkerJudgment(origin, subject);
              OfJudgment(r) in judgments && judgments[OfJudgment(r)] == r ==>
                VerifyAdmission(judgments, OfJudgment(r), subject).Ok?
  {
    var books, claim := WorkerBooks(origin, subject), WorkerClaim(origin, subject);
    assert Evaluate(books, claim).NativeAdmit?;
    EvaluationIsSound(subject, books, claim);
    var r := WorkerJudgment(origin, subject);
    forall judgments: map<Digest, JudgmentRecord> | OfJudgment(r) in judgments && judgments[OfJudgment(r)] == r
      ensures VerifyAdmission(judgments, OfJudgment(r), subject).Ok?
    {
      AdmittedVerifies(judgments, subject, books, claim);
    }
  }
}
