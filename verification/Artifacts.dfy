/** Loading an intent's artifacts into one bounded transfer. */
module Artifacts {
  import opened Basics
  import opened Records

  datatype Transfer = Transfer(digest: Digest, content: Bytes)

  ghost predicate Readable(blobs: set<Bytes>, digest: Digest) {
    digest.OfBytes? && digest.bytes in blobs
  }

  ghost function LengthOf(digest: Digest): nat {
    if digest.OfBytes? then |digest.bytes| else 0
  }

  ghost function TotalLength(digests: set<Digest>): nat {
    if digests == {} then 0
    else
      var d :| d in digests;
      LengthOf(d) + TotalLength(digests - {d})
  }

  lemma {:induction false} TotalLengthSplits(digests: set<Digest>, d: Digest)
    requires d in digests
    ensures TotalLength(digests) == LengthOf(d) + TotalLength(digests - {d})
    decreases digests
  {
    var e :| e in digests && TotalLength(digests) == LengthOf(e) + TotalLength(digests - {e});
    if e != d {
      TotalLengthSplits(digests - {e}, d);
      TotalLengthSplits(digests - {d}, e);
      assert digests - {e} - {d} == digests - {d} - {e};
    }
  }

  /** The whole set fits: every artifact is in custody and within its own bound, and together they fit half a frame. */
  ghost predicate Fits(blobs: set<Bytes>, artifacts: set<Digest>, maxFrame: nat, maxArtifact: nat) {
    && (forall d :: d in artifacts ==> Readable(blobs, d) && LengthOf(d) <= maxArtifact)
    && TotalLength(artifacts) <= maxFrame / 2
  }

  ghost function DigestsOf(transfers: seq<Transfer>): set<Digest> {
    set t | t in transfers :: t.digest
  }

  lemma DigestsOfAppend(transfers: seq<Transfer>, t: Transfer)
    ensures DigestsOf(transfers + [t]) == DigestsOf(transfers) + {t.digest}
  {
    assert forall u :: u in transfers + [t] <==> u in transfers || u == t;
  }

  /** Reads each artifact under the smaller of its own bound and what is left of the frame's half.  Success does
      not depend on the order the set is walked in, and the remaining budget never underflows. */
  method LoadArtifactTransfers(blobs: set<Bytes>, artifacts: set<Digest>, maxFrame: nat, maxArtifact: nat)
    returns (transfers: Option<seq<Transfer>>)
    ensures transfers.Some? <==> Fits(blobs, artifacts, maxFrame, maxArtifact)
    ensures transfers.Some? ==>
              && DigestsOf(transfers.value) == artifacts
              && (forall t :: t in transfers.value ==> t.digest == OfBytes(t.content))
              && |transfers.value| == |artifacts|
  {
    var loaded: seq<Transfer> := [];
    var rest := artifacts;
    var remaining: nat := maxFrame / 2;
    while rest != {}
      invariant rest <= artifacts
      invariant remaining + TotalLength(artifacts) == maxFrame / 2 + TotalLength(rest)
      invariant forall d :: d in artifacts && d !in rest ==> Readable(blobs, d) && LengthOf(d) <= maxArtifact
      invariant DigestsOf(loaded) + rest == artifacts && DigestsOf(loaded) !! rest
      invariant forall t :: t in loaded ==> t.digest == OfBytes(t.content)
      invariant |loaded| + |rest| == |artifacts|
      decreases |rest|
    {
      var digest :| digest in rest;
      TotalLengthSplits(rest, digest);
      var maximum := if maxArtifact <= remaining then maxArtifact else remaining;
      if !digest.OfBytes? || digest.bytes !in blobs || |digest.bytes| > maximum {
        return None;
      }
      remaining := remaining - |digest.bytes|;
      DigestsOfAppend(loaded, Transfer(digest, digest.bytes));
      loaded := loaded + [Transfer(digest, digest.bytes)];
      rest := rest - {digest};
    }
    return Some(loaded);
  }
}
