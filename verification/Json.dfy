/** JSON values and the compact text `encoding/json` writes for them.
    A document is kept as the tree its text parses to, members in the order they stand in. */
module Json {
  import opened Text

  /** Numbers keep their literal text, as `UseNumber` does. */
  type NumberText = s: string | s != "" && (s[0] == '-' || IsDigit(s[0])) && forall i :: 0 <= i < |s| ==>
        IsNumberChar(s[i])
    witness "0"

  datatype Member = Member(key: string, value: Json)

  datatype Json =
    | Null
    | Bool(b: bool)
    | Num(text: NumberText)
    | Str(s: string)
    | Arr(items: seq<Json>)
    | Obj(members: seq<Member>)

  predicate IsNumberChar(c: char) { IsDigit(c) || c in {'-', '+', '.', 'e', 'E'} }

  function Number(n: nat): Json {
    var digits := Decimal(n);
    assert IsDigit(digits[0]);
    Num(digits)
  }

  // ----- printing -----

  function Hex2(n: nat): (s: string)
    requires n < 256
    ensures |s| == 2
  {
    [HexDigit(n / 16), HexDigit(n % 16)]
  }

  /** The letter after the backslash of a two-character escape, or a blank. */
  function ShortEscape(c: char): char {
    match c
    case '"' => '"'
    case '\\' => '\\'
    case '\n' => 'n'
    case '\r' => 'r'
    case '\t' => 't'
    case '\U{08}' => 'b'
    case '\U{0c}' => 'f'
    case _ => ' '
  }

  predicate NeedsHex(c: char) { c < ' ' || c in {'<', '>', '&'} }

  function Escape(c: char): (s: string)
    ensures s != "" && s[0] != '"'
  {
    if ShortEscape(c) != ' ' then ['\\', ShortEscape(c)]
    else if NeedsHex(c) then ['\\', 'u', '0', '0'] + Hex2(c as int)
    else if c == '\U{2028}' then ['\\', 'u', '2', '0', '2', '8']
    else if c == '\U{2029}' then ['\\', 'u', '2', '0', '2', '9']
    else [c]
  }

  function EscapeAll(s: string): string {
    if s == "" then "" else Escape(s[0]) + EscapeAll(s[1..])
  }

  /** The text of a value followed by `rest`. */
  function PrintThen(j: Json, rest: string): string
    decreases j, 0
  {
    match j
    case Null => "null" + rest
    case Bool(b) => (if b then "true" else "false") + rest
    case Num(text) => text + rest
    case Str(s) => "\"" + (EscapeAll(s) + ("\"" + rest))
    case Arr(items) => "[" + PrintItems(items, true, rest)
    case Obj(members) => "{" + PrintMembers(members, true, rest)
  }

  function PrintItems(items: seq<Json>, first: bool, rest: string): string
    decreases items, 1
  {
    if items == [] then "]" + rest
    else (if first then "" else ",") + PrintThen(items[0], PrintItems(items[1..], false, rest))
  }

  function PrintMembers(members: seq<Member>, first: bool, rest: string): string
    decreases members, 1
  {
    if members == [] then "}" + rest
    else
      (if first then "" else ",") + PrintMember(members[0], PrintMembers(members[1..], false, rest))
  }

  function PrintMember(m: Member, rest: string): string
    decreases m, 1
  {
    "\"" + (EscapeAll(m.key) + ("\"" + (":" + PrintThen(m.value, rest))))
  }

  /** `json.Marshal`. */
  function Print(j: Json): string { PrintThen(j, "") }

  // ----- the text determines the value -----

  lemma EscapeSplit(c: char, d: char, s: string, t: string)
    requires Escape(c) + s == Escape(d) + t
    ensures c == d && s == t
  {
    var u, v := Escape(c) + s, Escape(d) + t;
    assert u[0] == Escape(c)[0] && v[0] == Escape(d)[0];
    if u[0] == '\\' {
      assert u[1] == Escape(c)[1] && v[1] == Escape(d)[1];
    }
    assert |Escape(c)| == |Escape(d)|;
    SplitFixed(Escape(c), Escape(d), s, t);
    if NeedsHex(c) && NeedsHex(d) && ShortEscape(c) == ShortEscape(d) == ' ' {
      assert Escape(c)[4] == Hex2(c as int)[0] && Escape(d)[4] == Hex2(d as int)[0];
      assert Escape(c)[5] == Hex2(c as int)[1] && Escape(d)[5] == Hex2(d as int)[1];
    } else {
      assert u[0] == '\\' && u[1] == 'u' ==> Escape(c)[2] == Escape(d)[2] && Escape(c)[5] == Escape(d)[5];
    }
  }

  /** An escaped string, its closing quote, and what follows. */
  function Quoted(s: string, rest: string): string { EscapeAll(s) + ("\"" + rest) }

  lemma QuotedLead(s: string, rest: string)
    ensures Quoted(s, rest) != "" && (Quoted(s, rest)[0] == '"' <==> s == "")
    ensures s == "" ==> Quoted(s, rest)[1..] == rest
    ensures s != "" ==> Quoted(s, rest) == Escape(s[0]) + Quoted(s[1..], rest)
  {
    if s != "" { QuotedFirst(s[0], s[1..], s, rest); }
  }

  lemma QuotedFirst(c: char, tail: string, s: string, rest: string)
    requires s != "" && s[0] == c && s[1..] == tail
    ensures Quoted(s, rest) == Escape(c) + Quoted(tail, rest) && Quoted(s, rest)[0] != '"'
  {
    assert EscapeAll(s) == Escape(c) + EscapeAll(tail);
    assert Quoted(s, rest) == Escape(c) + (EscapeAll(tail) + ("\"" + rest));
  }

  lemma {:induction false} QuoteSplit(a: string, b: string, s: string, t: string)
    requires Quoted(a, s) == Quoted(b, t)
    ensures a == b && s == t
  {
    QuotedLead(a, s);
    QuotedLead(b, t);
    if a != "" {
      EscapeSplit(a[0], b[0], Quoted(a[1..], s), Quoted(b[1..], t));
      QuoteSplit(a[1..], b[1..], s, t);
      assert a == [a[0]] + a[1..] && b == [b[0]] + b[1..];
    }
  }

  /** What may follow a value: nothing, or a character no number contains. */
  predicate Boundary(s: string) { s != "" ==> !IsNumberChar(s[0]) }

  predicate LeadsWith(j: Json, c: char) {
    match j
    case Null => c == 'n'
    case Bool(b) => c == if b then 't' else 'f'
    case Num(_) => c == '-' || IsDigit(c)
    case Str(_) => c == '"'
    case Arr(_) => c == '['
    case Obj(_) => c == '{'
  }

  lemma PrintLead(j: Json, rest: string)
    ensures PrintThen(j, rest) != "" && LeadsWith(j, PrintThen(j, rest)[0])
  {
    if j.Num? {
      assert PrintThen(j, rest)[0] == j.text[0];
    }
  }

  /** The text of a value ends by itself: equal texts hold equal values and equal rests. */
  lemma {:induction false} PrintSplit(a: Json, b: Json, s: string, t: string)
    requires Boundary(s) && Boundary(t)
    requires PrintThen(a, s) == PrintThen(b, t)
    ensures a == b && s == t
    decreases a, 0
  {
    PrintLead(a, s);
    PrintLead(b, t);
    match a
    case Null => SplitFixed("null", "null", s, t);
    case Bool(x) =>
      var w := if x then "true" else "false";
      SplitFixed(w, w, s, t);
    case Num(x) => SplitRun(IsNumberChar, x, b.text, s, t);
    case Str(x) =>
      SplitFixed("\"", "\"", EscapeAll(x) + ("\"" + s), EscapeAll(b.s) + ("\"" + t));
      QuoteSplit(x, b.s, s, t);
    case Arr(x) =>
      SplitFixed("[", "[", PrintItems(x, true, s), PrintItems(b.items, true, t));
      ItemsSplit(x, b.items, true, s, t);
    case Obj(x) =>
      SplitFixed("{", "{", PrintMembers(x, true, s), PrintMembers(b.members, true, t));
      MembersSplit(x, b.members, true, s, t);
  }

  lemma ItemsLead(items: seq<Json>, first: bool, rest: string)
    ensures var r := PrintItems(items, first, rest);
            r != "" && (items == [] ==> r[0] == ']') && (items != [] ==> r[0] != ']') && (!first ==> Boundary(r))
  {
    if items != [] {
      PrintLead(items[0], PrintItems(items[1..], false, rest));
    }
  }

  lemma {:induction false} ItemsSplit(a: seq<Json>, b: seq<Json>, first: bool, s: string, t: string)
    requires Boundary(s) && Boundary(t)
    requires PrintItems(a, first, s) == PrintItems(b, first, t)
    ensures a == b && s == t
    decreases a, 1
  {
    ItemsLead(a, first, s);
    ItemsLead(b, first, t);
    if a == [] {
      SplitFixed("]", "]", s, t);
    } else {
      var restA, restB := PrintItems(a[1..], false, s), PrintItems(b[1..], false, t);
      ItemsLead(a[1..], false, s);
      ItemsLead(b[1..], false, t);
      var comma := if first then "" else ",";
      SplitFixed(comma, comma, PrintThen(a[0], restA), PrintThen(b[0], restB));
      PrintSplit(a[0], b[0], restA, restB);
      ItemsSplit(a[1..], b[1..], false, s, t);
      assert a == [a[0]] + a[1..] && b == [b[0]] + b[1..];
    }
  }

  lemma MembersLead(members: seq<Member>, first: bool, rest: string)
    ensures var r := PrintMembers(members, first, rest);
            r != "" && (members == [] <==> r[0] == '}') && (!first ==> Boundary(r))
  {}

  lemma {:induction false} MembersSplit(a: seq<Member>, b: seq<Member>, first: bool, s: string, t: string)
    requires Boundary(s) && Boundary(t)
    requires PrintMembers(a, first, s) == PrintMembers(b, first, t)
    ensures a == b && s == t
    decreases a, 1
  {
    MembersLead(a, first, s);
    MembersLead(b, first, t);
    if a == [] {
      SplitFixed("}", "}", s, t);
    } else {
      var restA, restB := PrintMembers(a[1..], false, s), PrintMembers(b[1..], false, t);
      MembersLead(a[1..], false, s);
      MembersLead(b[1..], false, t);
      var comma := if first then "" else ",";
      SplitFixed(comma, comma, PrintMember(a[0], restA), PrintMember(b[0], restB));
      MemberSplit(a[0], b[0], restA, restB);
      MembersSplit(a[1..], b[1..], false, s, t);
      assert a == [a[0]] + a[1..] && b == [b[0]] + b[1..];
    }
  }

  lemma {:induction false} MemberSplit(a: Member, b: Member, s: string, t: string)
    requires Boundary(s) && Boundary(t)
    requires PrintMember(a, s) == PrintMember(b, t)
    ensures a == b && s == t
    decreases a, 1
  {
    var valueA, valueB := ":" + PrintThen(a.value, s), ":" + PrintThen(b.value, t);
    SplitFixed("\"", "\"", EscapeAll(a.key) + ("\"" + valueA), EscapeAll(b.key) + ("\"" + valueB));
    QuoteSplit(a.key, b.key, valueA, valueB);
    SplitFixed(":", ":", PrintThen(a.value, s), PrintThen(b.value, t));
    PrintSplit(a.value, b.value, s, t);
  }

  lemma PrintInjective(a: Json, b: Json)
    ensures Print(a) == Print(b) <==> a == b
  {
    if Print(a) == Print(b) {
      PrintSplit(a, b, "", "");
    }
  }
}
