/** The hash chain, seen as links: each hashes the previous hash followed by a payload. */
module HashChain {
  import opened Prelude
  import opened Text

  /** `payload` is absent when the event cannot be read. */
  datatype Link = Link(previousHash: string, payload: Option<string>, hash: string)

  function HashLink(sha: Sha, previousHash: string, payload: Option<string>): Option<string> {
    if payload.None? then None else Some(Hex(sha(previousHash + payload.value)))
  }

  /** The hash the link at position `i` must point back to. */
  function PreviousOf(links: seq<Link>, i: nat): string
    requires i <= |links|
  {
    if i == 0 then "" else links[i - 1].hash
  }

  function Head(links: seq<Link>): string { PreviousOf(links, |links|) }

  predicate LinkHolds(sha: Sha, links: seq<Link>, i: nat)
    requires i < |links|
  {
    links[i].previousHash == PreviousOf(links, i)
    && HashLink(sha, PreviousOf(links, i), links[i].payload) == Some(links[i].hash)
  }

  ghost predicate ChainValid(sha: Sha, links: seq<Link>) {
    forall i :: 0 <= i < |links| ==> LinkHolds(sha, links, i)
  }

  /** A link can be put at the end exactly when it points to the head and hashes right. */
  lemma ChainSnoc(sha: Sha, links: seq<Link>, l: Link)
    ensures ChainValid(sha, links + [l]) <==>
            ChainValid(sha, links) && l.previousHash == Head(links)
            && HashLink(sha, Head(links), l.payload) == Some(l.hash)
  {
    var longer := links + [l];
    forall i | 0 <= i < |links| ensures LinkHolds(sha, longer, i) <==> LinkHolds(sha, links, i) {
      assert PreviousOf(longer, i) == PreviousOf(links, i);
    }
    assert PreviousOf(longer, |links|) == Head(links);
    if ChainValid(sha, longer) {
      assert LinkHolds(sha, longer, |links|);
      forall i | 0 <= i < |links| ensures LinkHolds(sha, links, i) { assert LinkHolds(sha, longer, i); }
    }
  }

  /** Accepted chains are closed under taking prefixes. */
  lemma PrefixValid(sha: Sha, links: seq<Link>, n: nat)
    requires ChainValid(sha, links) && n <= |links|
    ensures ChainValid(sha, links[..n])
  {
    forall i | 0 <= i < n ensures LinkHolds(sha, links[..n], i) {
      assert LinkHolds(sha, links, i);
      assert PreviousOf(links[..n], i) == PreviousOf(links, i);
    }
  }

  // ----- walking the chain -----

  datatype Break = PreviousHashMismatch(index: nat) | HashMismatch(index: nat) | UnreadableEvent(index: nat)

  /** What a walk along the chain must find: nothing when the chain is valid, and otherwise
      the first position that breaks it, with the reason. */
  ghost predicate Verdict(sha: Sha, links: seq<Link>, r: Option<Break>) {
    match r
    case None => ChainValid(sha, links)
    case Some(e) =>
      && e.index < |links| && !LinkHolds(sha, links, e.index)
      && (forall k :: 0 <= k < e.index ==> LinkHolds(sha, links, k))
      && (e.PreviousHashMismatch? <==> links[e.index].previousHash != PreviousOf(links, e.index))
      && (e.UnreadableEvent? ==> links[e.index].payload == None)
      && (e.HashMismatch? ==> links[e.index].payload.Some?)
  }

  /** There is one verdict on a chain. */
  lemma VerdictUnique(sha: Sha, links: seq<Link>, r: Option<Break>, s: Option<Break>)
    requires Verdict(sha, links, r) && Verdict(sha, links, s)
    ensures r == s
  {
    if r.Some? && s.Some? {
      assert r.value.index == s.value.index;
    }
  }

  method VerifyChain<T>(sha: Sha, linkOf: T -> Link, events: seq<T>) returns (r: Option<Break>)
    ensures Verdict(sha, MapSeq(linkOf, events), r)
  {
    ghost var links := MapSeq(linkOf, events);
    var previousHash := "";
    for i := 0 to |events|
      invariant previousHash == PreviousOf(links, i)
      invariant forall k :: 0 <= k < i ==> LinkHolds(sha, links, k)
    {
      var event := linkOf(events[i]);
      if event.previousHash != previousHash {
        return Some(PreviousHashMismatch(i));
      }
      var gotHash := HashLink(sha, previousHash, event.payload);
      if gotHash == None {
        return Some(UnreadableEvent(i));
      }
      if event.hash != gotHash.value {
        return Some(HashMismatch(i));
      }
      previousHash := event.hash;
    }
    r := None;
  }

  // ----- the head commits to the whole chain -----

  /** Payloads open with a character that no hash contains. */
  ghost predicate Framed(links: seq<Link>) {
    forall i :: 0 <= i < |links| && links[i].payload.Some? ==>
          links[i].payload.value != "" && !IsHex(links[i].payload.value[0])
  }

  /** The text hashed for position `i`. */
  function Preimage(links: seq<Link>, i: nat): string
    requires i < |links| && links[i].payload.Some?
  {
    PreviousOf(links, i) + links[i].payload.value
  }

  /** Positions `i` and `j` of two chains were hashed from different texts to one digest. */
  ghost predicate CollisionAt(sha: Sha, a: seq<Link>, b: seq<Link>, i: nat, j: nat) {
    && i < |a| && j < |b| && a[i].payload.Some? && b[j].payload.Some?
    && Collides(sha, Preimage(a, i), Preimage(b, j))
  }

  lemma DigestText(d: Digest)
    ensures |Hex(d)| == 64 && forall k :: 0 <= k < 64 ==> IsHex(Hex(d)[k])
  {}

  lemma HashIsHex(sha: Sha, links: seq<Link>, i: nat)
    requires ChainValid(sha, links) && i <= |links|
    ensures forall k :: 0 <= k < |PreviousOf(links, i)| ==> IsHex(PreviousOf(links, i)[k])
    ensures i > 0 ==> |PreviousOf(links, i)| == 64
  {
    if i > 0 {
      assert LinkHolds(sha, links, i - 1);
      DigestText(sha(PreviousOf(links, i - 1) + links[i - 1].payload.value));
    }
  }

  lemma LastLinkAgrees(sha: Sha, a: seq<Link>, b: seq<Link>)
    requires a != [] && b != [] && Framed(a) && Framed(b)
    requires ChainValid(sha, a) && ChainValid(sha, b) && Head(a) == Head(b)
    requires !CollisionAt(sha, a, b, |a| - 1, |b| - 1)
    ensures PreviousOf(a, |a| - 1) == PreviousOf(b, |b| - 1) && a[|a| - 1].payload == b[|b| - 1].payload
  {
    var i, j := |a| - 1, |b| - 1;
    assert LinkHolds(sha, a, i) && LinkHolds(sha, b, j);
    HexInjective(sha(Preimage(a, i)), sha(Preimage(b, j)));
    HashIsHex(sha, a, i);
    HashIsHex(sha, b, j);
    SplitRun(IsHex, PreviousOf(a, i), PreviousOf(b, j), a[i].payload.value, b[j].payload.value);
  }

  ghost predicate SamePayloads(a: seq<Link>, b: seq<Link>) {
    |a| == |b| && forall i :: 0 <= i < |a| ==> a[i].payload == b[i].payload
  }

  /** Two valid chains that end in the same hash carry the same payloads, or two of the texts
      hashed along them collide. */
  lemma {:induction false} HeadCommits(sha: Sha, a: seq<Link>, b: seq<Link>)
    requires Framed(a) && Framed(b) && ChainValid(sha, a) && ChainValid(sha, b) && Head(a) == Head(b)
    ensures SamePayloads(a, b) || exists i, j :: CollisionAt(sha, a, b, i, j)
  {
    HashIsHex(sha, a, |a|);
    HashIsHex(sha, b, |b|);
    if a != [] && b != [] && !CollisionAt(sha, a, b, |a| - 1, |b| - 1) {
      LastLinkAgrees(sha, a, b);
      var x, y := a[..|a| - 1], b[..|b| - 1];
      PrefixValid(sha, a, |a| - 1);
      PrefixValid(sha, b, |b| - 1);
      HeadCommits(sha, x, y);
      if SamePayloads(x, y) {
        forall i | 0 <= i < |a| ensures a[i].payload == b[i].payload {
          if i < |x| { assert x[i].payload == y[i].payload; }
        }
      } else {
        var i, j :| CollisionAt(sha, x, y, i, j);
        assert PreviousOf(x, i) == PreviousOf(a, i) && PreviousOf(y, j) == PreviousOf(b, j);
        assert CollisionAt(sha, a, b, i, j);
      }
    }
  }
}
