/** Types shared by every component: optional values, results, bytes and digests. */
module Prelude {

  datatype Option<+T> = None | Some(value: T)

  datatype Result<+T, +E> = Ok(value: T) | Err(error: E)

  newtype byte = b: int | 0 <= b < 256

  /** A full SHA-256 digest. */
  type Digest = d: seq<byte> | |d| == 32 witness seq(32, _ => 0)

  /** The first 128 bits of a digest, the key type of the index and of the pointer table. */
  type Hash128 = h: seq<byte> | |h| == 16 witness seq(16, _ => 0)

  /** SHA-256 is a parameter of the model: any function from text to digests. */
  type Sha = string -> Digest

  /** The truncated digest that addresses agents, fact pointers and credential sets. */
  function Truncated(sha: Sha, text: string): Hash128 {
    sha(text)[..16]
  }

  /** No two different texts of `inputs` share a truncated digest.  `inputs` is always the
      finite set of texts that were hashed in a run, never the whole input space. */
  ghost predicate CollisionFree(sha: Sha, inputs: set<string>) {
    forall a, b :: a in inputs && b in inputs && Truncated(sha, a) == Truncated(sha, b) ==> a == b
  }

  /** A collision shown by example. */
  ghost predicate Collides(sha: Sha, a: string, b: string) {
    a != b && sha(a) == sha(b)
  }

  function MapSeq<T, U>(f: T -> U, s: seq<T>): (r: seq<U>)
    ensures |r| == |s|
    ensures forall i :: 0 <= i < |r| ==> r[i] == f(s[i])
  {
    if s == [] then [] else MapSeq(f, s[..|s| - 1]) + [f(s[|s| - 1])]
  }

  lemma MapTake<T, U>(f: T -> U, s: seq<T>, i: nat)
    requires i < |s|
    ensures MapSeq(f, s[..i + 1]) == MapSeq(f, s[..i]) + [f(s[i])]
  {
    assert s[..i + 1][..i] == s[..i];
  }

  lemma {:induction false} SameCount<T, A, B>(f: T -> A, g: T -> B, s: seq<T>, x: T)
    requires forall y :: y in s ==> (f(x) == f(y) <==> g(x) == g(y))
    ensures multiset(MapSeq(f, s))[f(x)] == multiset(MapSeq(g, s))[g(x)]
  {
    if s != [] {
      var front := s[..|s| - 1];
      SameCount(f, g, front, x);
      assert s[|s| - 1] in s;
    }
  }

  lemma {:induction false} Preimage<T, B>(g: T -> B, s: seq<T>, v: B) returns (x: T)
    requires v in MapSeq(g, s)
    ensures x in s && g(x) == v
  {
    var i :| 0 <= i < |s| && MapSeq(g, s)[i] == v;
    x := s[i];
  }

  lemma CountTransfer<T, A, B>(f: T -> A, g: T -> B, a: seq<T>, b: seq<T>, x: T)
    requires forall y :: y in a || y in b ==> (f(x) == f(y) <==> g(x) == g(y))
    requires multiset(MapSeq(f, a)) == multiset(MapSeq(f, b))
    ensures multiset(MapSeq(g, a))[g(x)] == multiset(MapSeq(g, b))[g(x)]
  {
    SameCount(f, g, a, x);
    SameCount(f, g, b, x);
  }

  lemma BagTransfer<T(!new), A, B(!new)>(f: T -> A, g: T -> B, a: seq<T>, b: seq<T>)
    requires forall x, y :: f(x) == f(y) <==> g(x) == g(y)
    requires multiset(MapSeq(f, a)) == multiset(MapSeq(f, b))
    ensures multiset(MapSeq(g, a)) == multiset(MapSeq(g, b))
  {
    forall v ensures multiset(MapSeq(g, a))[v] == multiset(MapSeq(g, b))[v] {
      if v in MapSeq(g, a) {
        var x := Preimage(g, a, v);
        CountTransfer(f, g, a, b, x);
      } else if v in MapSeq(g, b) {
        var x := Preimage(g, b, v);
        CountTransfer(f, g, a, b, x);
      }
    }
  }

  /** When two functions tell the same values apart, the images of two lists are the same bag
      under one exactly when they are under the other. */
  lemma SameBags<T(!new), A(!new), B(!new)>(f: T -> A, g: T -> B, a: seq<T>, b: seq<T>)
    requires forall x, y :: f(x) == f(y) <==> g(x) == g(y)
    ensures multiset(MapSeq(f, a)) == multiset(MapSeq(f, b)) <==> multiset(MapSeq(g, a)) == multiset(MapSeq(g, b))
  {
    if multiset(MapSeq(f, a)) == multiset(MapSeq(f, b)) { BagTransfer(f, g, a, b); }
    if multiset(MapSeq(g, a)) == multiset(MapSeq(g, b)) { BagTransfer(g, f, a, b); }
  }
}
