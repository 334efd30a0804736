/** Ordering, sorting and the small text encodings used by the stores.
    Text is a sequence of Unicode scalar values; comparing them one by one is the order of
    the bytes of their UTF-8 encodings, which is the order Go sorts strings by. */
module Text {
  import opened Prelude

  // ----- order -----

  predicate Less(a: string, b: string) {
    if b == "" then false
    else if a == "" then true
    else a[0] < b[0] || (a[0] == b[0] && Less(a[1..], b[1..]))
  }

  ghost predicate Irreflexive<T(!new)>(less: (T, T) -> bool) {
    forall a :: !less(a, a)
  }

  ghost predicate Transitive<T(!new)>(less: (T, T) -> bool) {
    forall a, b, c :: less(a, b) && less(b, c) ==> less(a, c)
  }

  ghost predicate Connected<T(!new)>(less: (T, T) -> bool) {
    forall a, b :: a != b ==> less(a, b) || less(b, a)
  }

  ghost predicate StrictTotal<T(!new)>(less: (T, T) -> bool) {
    Irreflexive(less) && Transitive(less) && Connected(less)
  }

  lemma LessIrreflexive(a: string)
    ensures !Less(a, a)
  {}

  lemma {:induction false} LessTransitive(a: string, b: string, c: string)
    requires Less(a, b) && Less(b, c)
    ensures Less(a, c)
  {
    if a != "" && a[0] == b[0] == c[0] {
      LessTransitive(a[1..], b[1..], c[1..]);
    }
  }

  lemma {:induction false} LessConnected(a: string, b: string)
    requires a != b
    ensures Less(a, b) || Less(b, a)
  {
    if a != "" && b != "" && a[0] == b[0] {
      assert a == [a[0]] + a[1..] && b == [b[0]] + b[1..];
      LessConnected(a[1..], b[1..]);
    }
  }

  lemma LessStrictTotal()
    ensures StrictTotal(Less)
  {
    assert Irreflexive(Less) by {
      forall a ensures !Less(a, a) { LessIrreflexive(a); }
    }
    assert Transitive(Less) by {
      forall a, b, c | Less(a, b) && Less(b, c) ensures Less(a, c) { LessTransitive(a, b, c); }
    }
    assert Connected(Less) by {
      forall a, b | a != b ensures Less(a, b) || Less(b, a) { LessConnected(a, b); }
    }
  }

  // ----- sorting -----

  ghost predicate Sorted<T>(less: (T, T) -> bool, s: seq<T>) {
    forall i, j :: 0 <= i < j < |s| ==> !less(s[j], s[i])
  }

  /** `x` placed after every element of `s` that is not greater than it. */
  function Insert<T>(less: (T, T) -> bool, s: seq<T>, x: T): seq<T> {
    if s == [] then [x]
    else if less(x, s[|s| - 1]) then Insert(less, s[..|s| - 1], x) + [s[|s| - 1]]
    else s + [x]
  }

  /** The sorted arrangement that `sort.Strings` and `sort.Slice` leave behind. */
  function SortBy<T>(less: (T, T) -> bool, s: seq<T>): seq<T> {
    if s == [] then [] else Insert(less, SortBy(less, s[..|s| - 1]), s[|s| - 1])
  }

  lemma {:induction false} InsertSorted<T(!new)>(less: (T, T) -> bool, s: seq<T>, x: T)
    requires StrictTotal(less) && Sorted(less, s)
    ensures Sorted(less, Insert(less, s, x))
    ensures multiset(Insert(less, s, x)) == multiset(s) + multiset{x}
  {
    if s != [] {
      var front, last := s[..|s| - 1], s[|s| - 1];
      assert s == front + [last];
      if less(x, last) {
        InsertSorted(less, front, x);
        var r := Insert(less, front, x);
        forall i | 0 <= i < |r| ensures !less(last, r[i]) {
          assert r[i] in multiset(front) + multiset{x};
        }
      } else {
        var r := s + [x];
        assert Insert(less, s, x) == r;
        forall i, j | 0 <= i < j < |r| ensures !less(r[j], r[i]) {
          if j == |s| {
            assert s[i] == last || less(s[i], last);
          }
        }
      }
    }
  }

  lemma {:induction false} SortByCorrect<T(!new)>(less: (T, T) -> bool, s: seq<T>)
    requires StrictTotal(less)
    ensures Sorted(less, SortBy(less, s))
    ensures multiset(SortBy(less, s)) == multiset(s)
  {
    if s != [] {
      assert s == s[..|s| - 1] + [s[|s| - 1]];
      SortByCorrect(less, s[..|s| - 1]);
      InsertSorted(less, SortBy(less, s[..|s| - 1]), s[|s| - 1]);
    }
  }

  /** A multiset has one sorted arrangement. */
  lemma {:induction false} SortedUnique<T(!new)>(less: (T, T) -> bool, a: seq<T>, b: seq<T>)
    requires Connected(less) && Sorted(less, a) && Sorted(less, b)
    requires multiset(a) == multiset(b)
    ensures a == b
  {
    assert |a| == |multiset(a)| == |multiset(b)| == |b|;
    if a != [] {
      FirstsAgree(less, a, b);
      assert a == [a[0]] + a[1..] && b == [b[0]] + b[1..];
      assert multiset(a[1..]) == multiset(a) - multiset{a[0]};
      assert multiset(b[1..]) == multiset(b) - multiset{b[0]};
      SortedUnique(less, a[1..], b[1..]);
    }
  }

  lemma FirstsAgree<T(!new)>(less: (T, T) -> bool, a: seq<T>, b: seq<T>)
    requires Connected(less) && Sorted(less, a) && Sorted(less, b)
    requires a != [] && b != [] && multiset(a) == multiset(b)
    ensures a[0] == b[0]
  {
    assert a[0] in multiset(b) && b[0] in multiset(a);
    var i :| 0 <= i < |b| && b[i] == a[0];
    var j :| 0 <= j < |a| && a[j] == b[0];
    assert !less(b[i], b[0]) || i == 0;
    assert !less(a[j], a[0]) || j == 0;
  }

  /** Two lists sort to the same arrangement exactly when they hold the same elements. */
  lemma SortByDeterminesMultiset<T(!new)>(less: (T, T) -> bool, a: seq<T>, b: seq<T>)
    requires StrictTotal(less)
    ensures SortBy(less, a) == SortBy(less, b) <==> multiset(a) == multiset(b)
  {
    SortByCorrect(less, a);
    SortByCorrect(less, b);
    if multiset(a) == multiset(b) {
      SortedUnique(less, SortBy(less, a), SortBy(less, b));
    }
  }

  /** Moves `a[i]` left into the sorted stretch `a[..i]`. */
  method InsertInPlace<T>(less: (T, T) -> bool, a: array<T>, i: nat)
    requires i < a.Length
    modifies a
    ensures a[..i + 1] == Insert(less, old(a[..i]), old(a[i]))
    ensures a[i + 1..] == old(a[i + 1..])
  {
    ghost var was := a[..];
    ghost var prefix := a[..i];
    var x, j := a[i], i;
    assert prefix[..i] == prefix && prefix[i..] == [];
    while j > 0 && less(x, a[j - 1])
      invariant 0 <= j <= i
      invariant forall k :: 0 <= k < a.Length && (k < j || k > i) ==> a[k] == was[k]
      invariant a[j] == x
      invariant forall k :: j < k <= i ==> a[k] == was[k - 1]
      invariant Insert(less, prefix, x) == Insert(less, prefix[..j], x) + prefix[j..]
    {
      InsertStep(less, prefix, x, j);
      a[j], a[j - 1] := a[j - 1], x;
      j := j - 1;
    }
    InsertStops(less, prefix, x, j);
    Shifted(a[..i + 1], prefix, x, j);
  }

  lemma InsertStops<T>(less: (T, T) -> bool, prefix: seq<T>, x: T, j: nat)
    requires j <= |prefix| && (j == 0 || !less(x, prefix[j - 1]))
    ensures Insert(less, prefix[..j], x) == prefix[..j] + [x]
  {}

  /** `s` is `prefix` with `x` put in at `j`. */
  lemma Shifted<T>(s: seq<T>, prefix: seq<T>, x: T, j: nat)
    requires j <= |prefix| && |s| == |prefix| + 1 && s[j] == x
    requires (forall k :: 0 <= k < j ==> s[k] == prefix[k]) && (forall k :: j < k < |s| ==> s[k] == prefix[k - 1])
    ensures s == prefix[..j] + [x] + prefix[j..]
  {}

  lemma InsertStep<T>(less: (T, T) -> bool, prefix: seq<T>, x: T, j: nat)
    requires 0 < j <= |prefix| && less(x, prefix[j - 1])
    ensures Insert(less, prefix[..j], x) + prefix[j..] == Insert(less, prefix[..j - 1], x) + prefix[j - 1..]
  {
    assert prefix[..j][..j - 1] == prefix[..j - 1];
    assert [prefix[j - 1]] + prefix[j..] == prefix[j - 1..];
  }

  /** The library sort, in place. */
  method SortInPlace<T>(less: (T, T) -> bool, a: array<T>)
    modifies a
    ensures a[..] == SortBy(less, old(a[..]))
  {
    ghost var was := a[..];
    for i := 0 to a.Length
      invariant a[..i] == SortBy(less, was[..i])
      invariant a[i..] == was[i..]
    {
      assert a[i] == a[i..][0] && was[i] == was[i..][0];
      assert a[i + 1..] == a[i..][1..] && was[i + 1..] == was[i..][1..];
      assert was[..i + 1][..i] == was[..i];
      InsertInPlace(less, a, i);
    }
    assert a[..] == a[..a.Length] && was[..a.Length] == was;
  }

  // ----- the keys of a map, in order -----

  predicate IsLeast(k: string, keys: set<string>) {
    k in keys && forall other :: other in keys && other != k ==> Less(k, other)
  }

  lemma {:induction false} LeastExists(keys: set<string>)
    requires keys != {}
    ensures exists k :: IsLeast(k, keys)
  {
    var k :| k in keys;
    var rest := keys - {k};
    assert forall o :: o in keys ==> o == k || o in rest;
    if rest == {} {
      assert IsLeast(k, keys);
    } else {
      LeastExists(rest);
      var m :| IsLeast(m, rest);
      LessConnected(k, m);
      if Less(k, m) {
        forall o | o in keys && o != k ensures Less(k, o) {
          assert o in rest;
          if o != m { LessTransitive(k, m, o); }
        }
        assert IsLeast(k, keys);
      } else {
        assert IsLeast(m, keys);
      }
    }
  }

  lemma LeastUnique(a: string, b: string, keys: set<string>)
    requires IsLeast(a, keys) && IsLeast(b, keys)
    ensures a == b
  {
    if a != b {
      LessTransitive(a, b, a);
      LessIrreflexive(a);
    }
  }

  function Least(keys: set<string>): (k: string)
    requires keys != {}
    ensures IsLeast(k, keys)
  {
    LeastExists(keys);
    assert forall a, b :: a in keys && IsLeast(a, keys) && b in keys && IsLeast(b, keys) ==> a == b by {
      forall a, b | IsLeast(a, keys) && IsLeast(b, keys) ensures a == b { LeastUnique(a, b, keys); }
    }
    var k :| k in keys && IsLeast(k, keys);
    k
  }

  function SortedKeys(keys: set<string>): (r: seq<string>)
    ensures forall k :: k in r <==> k in keys
    ensures forall i, j :: 0 <= i < j < |r| ==> Less(r[i], r[j])
  {
    if keys == {} then []
    else
      var k := Least(keys);
      var rest := SortedKeys(keys - {k});
      assert forall o :: o in rest <==> o in keys - {k};
      assert forall o :: o in [k] + rest <==> o == k || o in rest;
      [k] + rest
  }

  lemma SortedKeysDistinct(keys: set<string>)
    ensures var r := SortedKeys(keys); forall i, j :: 0 <= i < |r| && 0 <= j < |r| && r[i] == r[j] ==> i == j
  {
    var r := SortedKeys(keys);
    forall i, j | 0 <= i < |r| && 0 <= j < |r| && r[i] == r[j] ensures i == j {
      LessIrreflexive(r[i]);
    }
  }

  // ----- splitting a concatenation -----

  lemma SplitFixed(a: string, b: string, s: string, t: string)
    requires |a| == |b| && a + s == b + t
    ensures a == b && s == t
  {
    assert (a + s)[..|a|] == a && (b + t)[..|b|] == b;
    assert (a + s)[|a|..] == s && (b + t)[|b|..] == t;
  }

  /** The run of characters satisfying `p` ends where the first other character stands. */
  lemma {:induction false} SplitRun(p: char -> bool, a: string, b: string, s: string, t: string)
    requires (forall i :: 0 <= i < |a| ==> p(a[i])) && (forall i :: 0 <= i < |b| ==> p(b[i]))
    requires (s != "" ==> !p(s[0])) && (t != "" ==> !p(t[0]))
    requires a + s == b + t
    ensures a == b && s == t
  {
    if a == "" || b == "" {
      assert (a == "" ==> a + s == s) && (b == "" ==> b + t == t);
    } else {
      assert (a + s)[0] == a[0] && (b + t)[0] == b[0];
      assert (a + s)[1..] == a[1..] + s && (b + t)[1..] == b[1..] + t;
      SplitRun(p, a[1..], b[1..], s, t);
      assert a == [a[0]] + a[1..] && b == [b[0]] + b[1..];
    }
  }

  // ----- numbers -----

  function Digit(n: nat): (c: char)
    requires n < 10
    ensures '0' <= c <= '9' && c as int == '0' as int + n
  {
    ('0' as int + n) as char
  }

  predicate IsDigit(c: char) { '0' <= c <= '9' }

  /** A number written in base ten without leading zeros. */
  function Decimal(n: nat): (s: string)
    ensures s != "" && forall i :: 0 <= i < |s| ==> IsDigit(s[i])
  {
    if n < 10 then [Digit(n)] else Decimal(n / 10) + [Digit(n % 10)]
  }

  function ParseDecimal(s: string): nat {
    if s == "" then 0
    else 10 * ParseDecimal(s[..|s| - 1]) + (if IsDigit(s[|s| - 1]) then s[|s| - 1] as int - '0' as int else 0)
  }

  lemma {:induction false} DecimalRoundTrip(n: nat)
    ensures ParseDecimal(Decimal(n)) == n
  {
    if n >= 10 {
      DecimalRoundTrip(n / 10);
      assert Decimal(n)[..|Decimal(n)| - 1] == Decimal(n / 10);
    } else {
      assert Decimal(n)[..0] == "";
    }
  }

  /** A number written with exactly `width` digits. */
  function Padded(n: nat, width: nat): (s: string)
    ensures |s| == width && forall i :: 0 <= i < |s| ==> IsDigit(s[i])
  {
    if width == 0 then "" else Padded(n / 10, width - 1) + [Digit(n % 10)]
  }

  function Pow10(k: nat): (p: nat)
    ensures p >= 1
  {
    if k == 0 then 1 else 10 * Pow10(k - 1)
  }

  lemma {:induction false} PaddedInjective(a: nat, b: nat, width: nat)
    requires a < Pow10(width) && b < Pow10(width)
    requires Padded(a, width) == Padded(b, width)
    ensures a == b
  {
    if width > 0 {
      var s, t := Padded(a, width), Padded(b, width);
      assert s[..width - 1] == Padded(a / 10, width - 1);
      assert t[..width - 1] == Padded(b / 10, width - 1);
      assert s[width - 1] == Digit(a % 10) && t[width - 1] == Digit(b % 10);
      PaddedInjective(a / 10, b / 10, width - 1);
    }
  }

  // ----- hexadecimal -----

  predicate IsHex(c: char) { IsDigit(c) || 'a' <= c <= 'f' }

  function HexDigit(n: nat): (c: char)
    requires n < 16
    ensures IsHex(c)
  {
    if n < 10 then ('0' as int + n) as char else ('a' as int + n - 10) as char
  }

  function Hex(bytes: seq<byte>): (s: string)
    ensures |s| == 2 * |bytes| && forall i :: 0 <= i < |s| ==> IsHex(s[i])
  {
    if bytes == [] then ""
    else [HexDigit(bytes[0] as int / 16), HexDigit(bytes[0] as int % 16)] + Hex(bytes[1..])
  }

  lemma {:induction false} HexInjective(a: seq<byte>, b: seq<byte>)
    requires Hex(a) == Hex(b)
    ensures a == b
  {
    if a != [] {
      assert b != [];
      var s, t := Hex(a), Hex(b);
      assert s[0] == t[0] && s[1] == t[1];
      assert s[2..] == Hex(a[1..]) && t[2..] == Hex(b[1..]);
      HexInjective(a[1..], b[1..]);
      assert a[0] == b[0];
      assert a == [a[0]] + a[1..] && b == [b[0]] + b[1..];
    }
  }

  // ----- white space -----

  /** `unicode.IsSpace`. */
  predicate IsSpace(c: char) {
    || c in {'\t', '\n', '\U{0b}', '\U{0c}', '\r', ' ', '\U{85}', '\U{a0}', '\U{1680}', '\U{2028}', '\U{2029}',
          '\U{202f}', '\U{205f}', '\U{3000}'}
    || '\U{2000}' <= c <= '\U{200a}'
  }

  function TrimLeft(s: string): string {
    if s != "" && IsSpace(s[0]) then TrimLeft(s[1..]) else s
  }

  function TrimRight(s: string): string {
    if s != "" && IsSpace(s[|s| - 1]) then TrimRight(s[..|s| - 1]) else s
  }

  /** `strings.TrimSpace`. */
  function TrimSpace(s: string): string { TrimRight(TrimLeft(s)) }
}
