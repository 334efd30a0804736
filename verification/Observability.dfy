/** The metrics registry and the text it renders. */
module Observability {
  import opened Prelude
  import opened Text

  // ----- label values -----

  /** `strings.ReplaceAll` of one character. */
  function ReplaceAll(s: string, c: char, replacement: string): string {
    if s == "" then "" else (if s[0] == c then replacement else [s[0]]) + ReplaceAll(s[1..], c, replacement)
  }

  function EscapeLabel(value: string): string {
    ReplaceAll(ReplaceAll(ReplaceAll(value, '\\', "\\\\"), '\n', "\\n"), '"', "\\\"")
  }

  function EscapeChar(c: char): string {
    match c
    case '\\' => "\\\\"
    case '\n' => "\\n"
    case '"' => "\\\""
    case _ => [c]
  }

  function EscapeOnce(s: string): string {
    if s == "" then "" else EscapeChar(s[0]) + EscapeOnce(s[1..])
  }

  /** Reads an escaped value up to its closing quote, and what stands behind the quote. */
  function Unescape(s: string): Option<(string, string)> {
    if s == "" then None
    else if s[0] == '"' then Some(("", s[1..]))
    else if s[0] == '\\' then
      if |s| < 2 || s[1] !in ['\\', 'n', '"'] then None
      else match Unescape(s[2..])
        case None => None
        case Some(r) => Some(([if s[1] == 'n' then '\n' else s[1]] + r.0, r.1))
    else match Unescape(s[1..])
      case None => None
      case Some(r) => Some(([s[0]] + r.0, r.1))
  }

  lemma {:induction false} ReplaceAppend(a: string, b: string, c: char, replacement: string)
    ensures ReplaceAll(a + b, c, replacement) == ReplaceAll(a, c, replacement) + ReplaceAll(b, c, replacement)
  {
    if a == "" {
      assert a + b == b;
    } else {
      assert (a + b)[1..] == a[1..] + b;
      ReplaceAppend(a[1..], b, c, replacement);
    }
  }

  lemma ReplaceOne(d: char, c: char, replacement: string)
    ensures ReplaceAll([d], c, replacement) == if d == c then replacement else [d]
  {
    assert ReplaceAll([d], c, replacement) == (if d == c then replacement else [d]) + ReplaceAll("", c, replacement);
  }

  lemma ReplacePair(d: char, e: char, c: char, replacement: string)
    ensures ReplaceAll([d, e], c, replacement) == (if d == c then replacement else [d]) + (if e == c then replacement
            else [e])
  {
    ReplaceOne(d, c, replacement);
    ReplaceOne(e, c, replacement);
    ReplaceAppend([d], [e], c, replacement);
    assert [d, e] == [d] + [e];
  }

  lemma EscapeOneChar(c: char)
    ensures EscapeLabel([c]) == EscapeChar(c)
  {
    ReplaceOne(c, '\\', "\\\\");
    ReplaceOne(c, '\n', "\\n");
    ReplaceOne(c, '"', "\\\"");
    ReplacePair('\\', '\\', '\n', "\\n");
    ReplacePair('\\', '\\', '"', "\\\"");
    ReplacePair('\\', 'n', '"', "\\\"");
  }

  /** The three replacements, one after the other, escape every character once. */
  lemma {:induction false} PassesEscapeOnce(s: string)
    ensures EscapeLabel(s) == EscapeOnce(s)
  {
    if s != "" {
      assert s == [s[0]] + s[1..];
      ReplaceAppend([s[0]], s[1..], '\\', "\\\\");
      ReplaceAppend(ReplaceAll([s[0]], '\\', "\\\\"), ReplaceAll(s[1..], '\\', "\\\\"), '\n', "\\n");
      ReplaceAppend(ReplaceAll(ReplaceAll([s[0]], '\\', "\\\\"), '\n', "\\n"),
                    ReplaceAll(ReplaceAll(s[1..], '\\', "\\\\"), '\n', "\\n"), '"', "\\\"");
      EscapeOneChar(s[0]);
      PassesEscapeOnce(s[1..]);
    }
  }

  lemma UnescapeChar(c: char, tail: string, r: (string, string))
    requires Unescape(tail) == Some(r)
    ensures Unescape(EscapeChar(c) + tail) == Some(([c] + r.0, r.1))
  {
    var text := EscapeChar(c) + tail;
    assert text[|EscapeChar(c)|..] == tail && text[0] == EscapeChar(c)[0];
    if |EscapeChar(c)| == 2 { assert text[1] == EscapeChar(c)[1]; }
  }

  function Quoted(s: string, rest: string): string { EscapeOnce(s) + ("\"" + rest) }

  lemma QuotedStep(s: string, rest: string)
    ensures Quoted("", rest) == "\"" + rest
    ensures s != "" ==> Quoted(s, rest) == EscapeChar(s[0]) + Quoted(s[1..], rest)
  {}

  lemma UnescapeClose(rest: string)
    ensures Unescape("\"" + rest) == Some(("", rest))
  {
    assert ("\"" + rest)[1..] == rest;
  }

  lemma {:induction false} UnescapeOnce(s: string, rest: string)
    ensures Unescape(Quoted(s, rest)) == Some((s, rest))
  {
    QuotedStep(s, rest);
    if s == "" {
      UnescapeClose(rest);
    } else {
      UnescapeOnce(s[1..], rest);
      UnescapeChar(s[0], Quoted(s[1..], rest), (s[1..], rest));
      assert s == [s[0]] + s[1..];
    }
  }

  /** Every label value can be read back from its escaped, quoted form, whatever follows. */
  lemma LabelRoundTrip(value: string, rest: string)
    ensures Unescape(EscapeLabel(value) + ("\"" + rest)) == Some((value, rest))
  {
    PassesEscapeOnce(value);
    UnescapeOnce(value, rest);
  }

  // ----- label sets -----

  type Labels = map<string, string>

  function Part(labels: Labels, key: string): string
    requires key in labels
  {
    key + ("=\"" + (EscapeLabel(labels[key]) + "\""))
  }

  function JoinParts(labels: Labels, keys: seq<string>): string
    requires forall k :: k in keys ==> k in labels
  {
    if keys == [] then ""
    else if |keys| == 1 then Part(labels, keys[0])
    else Part(labels, keys[0]) + ("," + JoinParts(labels, keys[1..]))
  }

  function LabelsText(labels: Labels): string {
    if labels == map[] then "" else "{" + JoinParts(labels, SortedKeys(labels.Keys)) + "}"
  }

  ghost predicate Distinct<T>(s: seq<T>) { forall i, j :: 0 <= i < j < |s| ==> s[i] != s[j] }

  /** `formatLabels`: collects the keys in whatever order the map gives them, sorts them in
      place, and joins the parts. */
  method FormatLabels(labels: Labels) returns (text: string)
    ensures text == LabelsText(labels)
  {
    if |labels| == 0 {
      return "";
    }
    var keys: seq<string>, left := [], labels.Keys;
    while left != {}
      invariant left <= labels.Keys
      invariant forall k :: k in keys <==> k in labels.Keys - left
      invariant Distinct(keys)
      decreases left
    {
      var key :| key in left;
      DistinctSnoc(keys, key);
      keys := keys + [key];
      left := left - {key};
    }
    var sorted := new string[|keys|](i requires 0 <= i < |keys| => keys[i]);
    assert sorted[..] == keys;
    SortInPlace(Less, sorted);
    EnumerationSorts(keys, labels.Keys);
    text := "{" + JoinParts(labels, sorted[..]) + "}";
  }

  /** Sorting any enumeration of a set gives its keys in order. */
  lemma EnumerationSorts(keys: seq<string>, all: set<string>)
    requires (forall k :: k in keys <==> k in all) && Distinct(keys)
    ensures SortBy(Less, keys) == SortedKeys(all)
  {
    LessStrictTotal();
    SortByCorrect(Less, keys);
    var r := SortedKeys(all);
    SortedKeysDistinct(all);
    AscendingIsSorted(Less, r);
    SameElementsSameBag(keys, r);
    SortedUnique(Less, SortBy(Less, keys), r);
  }

  lemma {:induction false} SameElementsSameBag<T>(a: seq<T>, b: seq<T>)
    requires forall x :: x in a <==> x in b
    requires Distinct(a)
    requires Distinct(b)
    ensures multiset(a) == multiset(b)
  {
    CountsAreOne(a);
    CountsAreOne(b);
    forall x ensures multiset(a)[x] == multiset(b)[x] {
      assert x in a <==> x in multiset(a);
      assert x in b <==> x in multiset(b);
    }
  }

  lemma {:induction false} CountsAreOne<T>(a: seq<T>)
    requires Distinct(a)
    ensures forall x :: x in multiset(a) ==> multiset(a)[x] == 1
  {
    if a != [] {
      var front, last := a[..|a| - 1], a[|a| - 1];
      CountsAreOne(front);
      assert a == front + [last];
      assert last !in front;
      assert multiset(front)[last] == 0;
    }
  }

  lemma DistinctSnoc<T>(s: seq<T>, x: T)
    requires Distinct(s) && x !in s
    ensures Distinct(s + [x])
    ensures forall y :: y in s + [x] <==> y in s || y == x
  {}

  /** A key that cannot be mistaken for a key and the start of its value. */
  predicate Readable(key: string) { forall i :: 0 <= i < |key| - 1 ==> !(key[i] == '=' && key[i + 1] == '"') }

  /** The label names this program uses are plain identifiers. */
  predicate PlainKeys(labels: Labels) { forall k :: k in labels ==> Readable(k) }

  /** The joined parts followed by `rest`, built from the front. */
  function PartsThen(labels: Labels, keys: seq<string>, rest: string): string
    requires keys != [] && forall k :: k in keys ==> k in labels
  {
    keys[0] + ("=\"" + (EscapeLabel(labels[keys[0]]) + ("\"" + (if |keys| == 1 then rest
        else "," + PartsThen(labels, keys[1..], rest)))))
  }

  lemma PartThen(key: string, text: string, rest: string)
    ensures key + ("=\"" + (text + "\"")) + rest == key + ("=\"" + (text + ("\"" + rest)))
  {
    assert (text + "\"") + rest == text + ("\"" + rest);
    assert ("=\"" + (text + "\"")) + rest == "=\"" + ((text + "\"") + rest);
  }

  lemma {:induction false} JoinThen(labels: Labels, keys: seq<string>, rest: string)
    requires keys != [] && forall k :: k in keys ==> k in labels
    ensures JoinParts(labels, keys) + rest == PartsThen(labels, keys, rest)
  {
    if |keys| == 1 {
      PartThen(keys[0], EscapeLabel(labels[keys[0]]), rest);
    } else {
      JoinThen(labels, keys[1..], rest);
      Regrouped(Part(labels, keys[0]), JoinParts(labels, keys[1..]), rest);
      PartThen(keys[0], EscapeLabel(labels[keys[0]]), "," + PartsThen(labels, keys[1..], rest));
    }
  }

  lemma Regrouped(a: string, b: string, rest: string)
    ensures a + ("," + b) + rest == a + ("," + (b + rest))
  {
    assert ("," + b) + rest == "," + (b + rest);
  }

  lemma {:induction false} PartsSplit(a: Labels, b: Labels, x: seq<string>, y: seq<string>)
    requires PlainKeys(a) && PlainKeys(b) && x != [] && y != []
    requires (forall k :: k in x ==> k in a) && (forall k :: k in y ==> k in b)
    requires PartsThen(a, x, "}") == PartsThen(b, y, "}")
    ensures x == y && forall k :: k in x ==> a[k] == b[k]
  {
    var behindX := if |x| == 1 then "}" else "," + PartsThen(a, x[1..], "}");
    var behindY := if |y| == 1 then "}" else "," + PartsThen(b, y[1..], "}");
    SplitPart(a, b, x[0], y[0], behindX, behindY);
    assert behindX[0] == behindY[0];
    if |x| > 1 {
      SplitFixed(",", ",", PartsThen(a, x[1..], "}"), PartsThen(b, y[1..], "}"));
      PartsSplit(a, b, x[1..], y[1..]);
    }
    assert x == [x[0]] + x[1..] && y == [y[0]] + y[1..];
  }

  lemma ShortKeyInside(k: string, l: string, u: string, v: string)
    requires |k| < |l| && k + ("=\"" + u) == l + ("=\"" + v)
    ensures |k| + 1 < |l| && l[|k|] == '=' && l[|k| + 1] == '"'
  {
    var x, y := k + ("=\"" + u), l + ("=\"" + v);
    assert x[|k|] == '=' && x[|k| + 1] == '"';
    assert y[|k|] == l[|k|] && y[|l|] == '=';
  }

  lemma KeyNotLonger(k: string, l: string, u: string, v: string)
    requires Readable(l) && k + ("=\"" + u) == l + ("=\"" + v)
    ensures |l| <= |k|
  {
    if |k| < |l| { ShortKeyInside(k, l, u, v); }
  }

  lemma SplitPart(a: Labels, b: Labels, k: string, l: string, s: string, t: string)
    requires k in a && l in b && Readable(k) && Readable(l)
    requires k + ("=\"" + (EscapeLabel(a[k]) + ("\"" + s))) == l + ("=\"" + (EscapeLabel(b[l]) + ("\"" + t)))
    ensures k == l && a[k] == b[l] && s == t
  {
    var u, v := EscapeLabel(a[k]) + ("\"" + s), EscapeLabel(b[l]) + ("\"" + t);
    KeyNotLonger(k, l, u, v);
    KeyNotLonger(l, k, v, u);
    SplitFixed(k, l, "=\"" + u, "=\"" + v);
    SplitFixed("=\"", "=\"", u, v);
    LabelRoundTrip(a[k], s);
    LabelRoundTrip(b[l], t);
  }

  lemma TextParts(a: Labels)
    requires a != map[]
    ensures var x := SortedKeys(a.Keys);
            x != [] && (forall k :: k in x <==> k in a) && LabelsText(a) == "{" + PartsThen(a, x, "}")
  {
    var x := SortedKeys(a.Keys);
    assert forall k :: k in x <==> k in a.Keys;
    assert a.Keys != {};
    JoinThen(a, x, "}");
    assert LabelsText(a) == "{" + (JoinParts(a, x) + "}");
  }

  lemma PartsTell(a: Labels, b: Labels, x: seq<string>, y: seq<string>)
    requires PlainKeys(a) && PlainKeys(b) && x != [] && y != []
    requires (forall k :: k in x <==> k in a) && (forall k :: k in y <==> k in b)
    requires "{" + PartsThen(a, x, "}") == "{" + PartsThen(b, y, "}")
    ensures a == b
  {
    SplitFixed("{", "{", PartsThen(a, x, "}"), PartsThen(b, y, "}"));
    PartsSplit(a, b, x, y);
    assert forall k :: k in a.Keys <==> k in b.Keys;
  }

  /** Different label sets with plain keys have different texts. */
  lemma LabelsTextInjective(a: Labels, b: Labels)
    requires PlainKeys(a) && PlainKeys(b)
    ensures LabelsText(a) == LabelsText(b) <==> a == b
  {
    if a != map[] { TextParts(a); }
    if b != map[] { TextParts(b); }
    if LabelsText(a) == LabelsText(b) && a != map[] && b != map[] {
      PartsTell(a, b, SortedKeys(a.Keys), SortedKeys(b.Keys));
    }
  }

  lemma ListedKeys(labels: Labels, keys: seq<string>)
    requires forall i, j :: 0 <= i < j < |keys| ==> Less(keys[i], keys[j])
    requires forall k :: k in keys <==> k in labels
    ensures SortedKeys(labels.Keys) == keys
  {
    LessStrictTotal();
    SortedKeysDistinct(labels.Keys);
    assert forall k :: k in keys <==> k in labels.Keys;
    AscendingUnique(Less, SortedKeys(labels.Keys), keys);
  }

  const TWO_LABELS: Labels := map["x" := "", "y" := ""]

  const ONE_LABEL: Labels := map["x=\"\",y" := ""]

  lemma TwoLabelsText()
    ensures LabelsText(TWO_LABELS) == "{x=\"\",y=\"\"}"
  {
    XBeforeY();
    ListedKeys(TWO_LABELS, ["x", "y"]);
    JoinTwo(TWO_LABELS, "x", "y");
    EmptyPart(TWO_LABELS, "x");
    EmptyPart(TWO_LABELS, "y");
  }

  lemma XBeforeY()
    ensures Less("x", "y")
  {}

  lemma JoinTwo(labels: Labels, k: string, l: string)
    requires k in labels && l in labels
    ensures JoinParts(labels, [k, l]) == Part(labels, k) + ("," + Part(labels, l))
  {
    assert [k, l][1..] == [l];
  }

  lemma EmptyPart(labels: Labels, key: string)
    requires key in labels && labels[key] == ""
    ensures Part(labels, key) == key + "=\"\""
  {
    assert EscapeLabel("") + "\"" == "\"";
    assert "=\"" + "\"" == "=\"\"";
  }

  lemma OneLabelText()
    ensures LabelsText(ONE_LABEL) == "{x=\"\",y=\"\"}"
  {
    ListedKeys(ONE_LABEL, ["x=\"\",y"]);
  }

  /** A key with a value inside it is not told apart from two keys. */
  lemma AmbiguousKeys()
    ensures TWO_LABELS != ONE_LABEL && LabelsText(TWO_LABELS) == LabelsText(ONE_LABEL)
  {
    TwoLabelsText();
    OneLabelText();
    assert "x" in TWO_LABELS && "x" !in ONE_LABEL;
  }

  // ----- samples -----

  datatype MetricKey = MetricKey(name: string, labels: string)

  predicate KeyLess(a: MetricKey, b: MetricKey) {
    if a.name != b.name then Less(a.name, b.name) else Less(a.labels, b.labels)
  }

  lemma KeyLessStrictTotal()
    ensures StrictTotal(KeyLess)
  {
    assert Irreflexive(KeyLess) by {
      forall a: MetricKey ensures !KeyLess(a, a) { LessIrreflexive(a.labels); }
    }
    assert Transitive(KeyLess) by {
      forall a: MetricKey, b: MetricKey, c: MetricKey | KeyLess(a, b) && KeyLess(b, c) ensures KeyLess(a, c) {
        if a.name != b.name && b.name != c.name {
          LessTransitive(a.name, b.name, c.name);
          LessIrreflexive(a.name);
        } else if a.name == b.name && b.name == c.name {
          LessTransitive(a.labels, b.labels, c.labels);
        }
      }
    }
    assert Connected(KeyLess) by {
      forall a: MetricKey, b: MetricKey | a != b ensures KeyLess(a, b) || KeyLess(b, a) {
        if a.name != b.name { LessConnected(a.name, b.name); } else { LessConnected(a.labels, b.labels); }
      }
    }
  }

  /** Durations in microseconds: how many, their sum, the least and the greatest. */
  datatype LatencyStats = LatencyStats(count: nat, sum: int, least: int, greatest: int)

  const NO_STATS := LatencyStats(0, 0, 0, 0)

  const COUNTER_RANGE: nat := 0x1_0000_0000_0000_0000

  function Observed(s: LatencyStats, value: int): LatencyStats {
    var count := (s.count + 1) % COUNTER_RANGE;
    LatencyStats(count, s.sum + value,
                 if count == 1 || value < s.least then value else s.least,
                 if count == 1 || value > s.greatest then value else s.greatest)
  }

  function ObservedAll(values: seq<int>): LatencyStats {
    if values == [] then NO_STATS else Observed(ObservedAll(values[..|values| - 1]), values[|values| - 1])
  }

  function Sum(values: seq<int>): int {
    if values == [] then 0 else Sum(values[..|values| - 1]) + values[|values| - 1]
  }

  /** `s` describes the values seen: how many, their sum, and their bounds, both attained. */
  ghost predicate Describes(s: LatencyStats, values: seq<int>) {
    && s.count == |values| && s.sum == Sum(values) && s.least in values && s.greatest in values
    && forall i :: 0 <= i < |values| ==> s.least <= values[i] <= s.greatest
  }

  lemma DescribesNext(s: LatencyStats, front: seq<int>, last: int)
    requires |front| + 1 < COUNTER_RANGE && (if front == [] then s == NO_STATS else Describes(s, front))
    ensures Describes(Observed(s, last), front + [last])
  {
    var values := front + [last];
    assert values[..|values| - 1] == front && values[|front|] == last;
    if front != [] {
      var i :| 0 <= i < |front| && front[i] == s.least;
      var j :| 0 <= j < |front| && front[j] == s.greatest;
      assert values[i] == s.least && values[j] == s.greatest;
    }
  }

  /** As long as the counter has not wrapped, the statistics are those of the values seen. */
  lemma {:induction false} StatsDescribeValues(values: seq<int>)
    requires 0 < |values| < COUNTER_RANGE
    ensures Describes(ObservedAll(values), values)
  {
    var front, last := values[..|values| - 1], values[|values| - 1];
    assert values == front + [last];
    if front != [] {
      StatsDescribeValues(front);
    }
    DescribesNext(ObservedAll(front), front, last);
  }

  /** Microseconds as milliseconds with three decimals. */
  function Millis(micros: int): string {
    var size := if micros < 0 then -micros else micros;
    (if micros < 0 then "-" else "") + Decimal(size / 1000) + "." + Padded(size % 1000, 3)
  }

  function CounterLine(k: MetricKey, value: nat): string { k.name + k.labels + " " + Decimal(value) + "\n" }

  function LatencyLines(k: MetricKey, s: LatencyStats): string {
    k.name + "_count" + k.labels + " " + Decimal(s.count) + "\n"
    + k.name + "_sum" + k.labels + " " + Millis(s.sum) + "\n"
    + k.name + "_min" + k.labels + " " + Millis(s.least) + "\n"
    + k.name + "_max" + k.labels + " " + Millis(s.greatest) + "\n"
  }

  function Lines<V>(line: (MetricKey, V) -> string, values: map<MetricKey, V>, keys: seq<MetricKey>): string
    requires forall k :: k in keys ==> k in values
  {
    if keys == [] then ""
    else Lines(line, values, keys[..|keys| - 1]) + line(keys[|keys| - 1], values[keys[|keys| - 1]])
  }

  /** `keys` lists a map's keys once each, in sample order. */
  ghost predicate IsListing(keys: seq<MetricKey>, all: set<MetricKey>) {
    (forall k :: k in keys <==> k in all) && forall i, j :: 0 <= i < j < |keys| ==> KeyLess(keys[i], keys[j])
  }

  lemma ListingUnique(a: seq<MetricKey>, b: seq<MetricKey>, all: set<MetricKey>)
    requires IsListing(a, all) && IsListing(b, all)
    ensures a == b
  {
    KeyLessStrictTotal();
    AscendingUnique(KeyLess, a, b);
  }

  lemma AscendingIsSorted<T(!new)>(less: (T, T) -> bool, s: seq<T>)
    requires StrictTotal(less) && forall i, j :: 0 <= i < j < |s| ==> less(s[i], s[j])
    ensures Sorted(less, s)
    ensures Distinct(s)
  {
    forall i, j | 0 <= i < j < |s| ensures !less(s[j], s[i]) && s[i] != s[j] {
      assert less(s[i], s[j]) && !less(s[i], s[i]);
    }
  }

  /** There is one ascending list of given elements. */
  lemma AscendingUnique<T(!new)>(less: (T, T) -> bool, a: seq<T>, b: seq<T>)
    requires StrictTotal(less) && forall x :: x in a <==> x in b
    requires forall i, j :: 0 <= i < j < |a| ==> less(a[i], a[j])
    requires forall i, j :: 0 <= i < j < |b| ==> less(b[i], b[j])
    ensures a == b
  {
    AscendingIsSorted(less, a);
    AscendingIsSorted(less, b);
    SameElementsSameBag(a, b);
    SortedUnique(less, a, b);
  }

  /** Enumerates a map's keys in arbitrary order and sorts them. */
  method ListKeys<V>(values: map<MetricKey, V>) returns (keys: seq<MetricKey>)
    ensures IsListing(keys, values.Keys)
  {
    var found: seq<MetricKey>, left := [], values.Keys;
    while left != {}
      invariant left <= values.Keys
      invariant forall k :: k in found <==> k in values.Keys - left
      invariant Distinct(found)
      decreases left
    {
      var key :| key in left;
      DistinctSnoc(found, key);
      found := found + [key];
      left := left - {key};
    }
    var sorted := new MetricKey[|found|](i requires 0 <= i < |found| => found[i]);
    assert sorted[..] == found;
    SortInPlace(KeyLess, sorted);
    keys := sorted[..];
    SortedDistinctIsListing(found, values.Keys);
  }

  lemma SortedDistinctIsListing(found: seq<MetricKey>, all: set<MetricKey>)
    requires (forall k :: k in found <==> k in all) && Distinct(found)
    ensures IsListing(SortBy(KeyLess, found), all)
  {
    KeyLessStrictTotal();
    SortByCorrect(KeyLess, found);
    CountsAreOne(found);
    var r := SortBy(KeyLess, found);
    forall k ensures k in r <==> k in all {
      assert k in r <==> k in multiset(r);
      assert k in found <==> k in multiset(found);
    }
    forall i, j | 0 <= i < j < |r| ensures KeyLess(r[i], r[j]) {
      TwiceCounts(r, i, j);
      assert r[i] in multiset(r) && !KeyLess(r[j], r[i]);
    }
  }

  lemma TwiceCounts<T>(r: seq<T>, i: nat, j: nat)
    requires i < j < |r|
    ensures r[i] == r[j] ==> multiset(r)[r[i]] >= 2
  {
    assert r == r[..j] + r[j..];
    assert r[i] in multiset(r[..j]) by { assert r[..j][i] == r[i]; }
    assert r[j] in multiset(r[j..]) by { assert r[j..][0] == r[j]; }
  }

  class Registry {
    var counters: map<MetricKey, nat>
    var latencies: map<MetricKey, LatencyStats>

    constructor ()
      ensures counters == map[] && latencies == map[]
    {
      counters, latencies := map[], map[];
    }

    method AddCounter(name: string, labels: Labels, delta: nat)
      modifies this
      ensures var key := MetricKey(name, LabelsText(labels));
              counters == old(counters)[key := ((if key in old(counters) then old(counters)[key]
                  else 0) + delta) % COUNTER_RANGE]
      ensures latencies == old(latencies)
    {
      var text := FormatLabels(labels);
      var key := MetricKey(name, text);
      var before := if key in counters then counters[key] else 0;
      counters := counters[key := (before + delta) % COUNTER_RANGE];
    }

    method ObserveLatency(name: string, labels: Labels, value: int)
      modifies this
      ensures var key := MetricKey(name, LabelsText(labels));
              latencies == old(latencies)[key := Observed(if key in old(latencies) then old(latencies)[key]
                  else NO_STATS, value)]
      ensures counters == old(counters)
    {
      var text := FormatLabels(labels);
      var key := MetricKey(name, text);
      var stats := if key in latencies then latencies[key] else NO_STATS;
      stats := stats.(count := (stats.count + 1) % COUNTER_RANGE);
      stats := stats.(sum := stats.sum + value);
      if stats.count == 1 || value < stats.least {
        stats := stats.(least := value);
      }
      if stats.count == 1 || value > stats.greatest {
        stats := stats.(greatest := value);
      }
      latencies := latencies[key := stats];
    }

    /** The text depends only on the samples: whatever order the maps are walked in, the lines
        come out in the one listing of their keys. */
    method Render() returns (text: string)
      ensures forall c, l :: IsListing(c, counters.Keys) && IsListing(l, latencies.Keys) ==>
                text == Lines(CounterLine, counters, c) + Lines(LatencyLines, latencies, l)
      ensures exists c, l :: IsListing(c, counters.Keys) && IsListing(l, latencies.Keys)
    {
      var c := ListKeys(counters);
      var l := ListKeys(latencies);
      var first := WriteLines(CounterLine, counters, c);
      var second := WriteLines(LatencyLines, latencies, l);
      text := first + second;
      forall c', l' | IsListing(c', counters.Keys) && IsListing(l', latencies.Keys) ensures c' == c && l' == l {
        ListingUnique(c, c', counters.Keys);
        ListingUnique(l, l', latencies.Keys);
      }
    }
  }

  method WriteLines<V>(line: (MetricKey, V) -> string, values: map<MetricKey, V>, keys: seq<MetricKey>)
    returns (text: string)
    requires forall k :: k in keys ==> k in values
    ensures text == Lines(line, values, keys)
  {
    text := "";
    for i := 0 to |keys|
      invariant text == Lines(line, values, keys[..i])
    {
      assert keys[..i + 1][..i] == keys[..i];
      text := text + line(keys[i], values[keys[i]]);
    }
    assert keys[..|keys|] == keys;
  }
}
