/** The canonical form of a JSON document: decoded into Go values, then marshalled again. */
module CanonicalJson {
  import opened Prelude
  import opened Text
  import opened Json

  /** A `json.RawMessage`: nothing, no bytes, bytes that do not parse, or one document. */
  datatype Raw = Nil | NoBytes | Malformed | Doc(json: Json)

  /** What `Decode` builds: objects have become maps, so member order and shadowed
      duplicates are gone. */
  datatype Value =
    | VNull
    | VBool(b: bool)
    | VNum(text: NumberText)
    | VStr(s: string)
    | VArr(items: seq<Value>)
    | VObj(fields: map<string, Value>)

  function Decode(j: Json): Value
    decreases j, 0
  {
    match j
    case Null => VNull
    case Bool(b) => VBool(b)
    case Num(text) => VNum(text)
    case Str(s) => VStr(s)
    case Arr(items) => VArr(DecodeItems(items))
    case Obj(members) => VObj(DecodeMembers(members))
  }

  function DecodeItems(items: seq<Json>): (r: seq<Value>)
    ensures |r| == |items|
    ensures forall i :: 0 <= i < |r| ==> r[i] == Decode(items[i])
    decreases items, 1
  {
    if items == [] then [] else [Decode(items[0])] + DecodeItems(items[1..])
  }

  /** Members are read in order and a later one overwrites an earlier one of the same key. */
  function DecodeMembers(members: seq<Member>): map<string, Value>
    decreases members, 1
  {
    if members == [] then map[]
    else
      var last := members[|members| - 1];
      DecodeMembers(members[..|members| - 1])[last.key := Decode(last.value)]
  }

  /** `json.Marshal` of a decoded value, as a tree: map keys come out sorted. */
  function Encode(v: Value): Json
    decreases v, 0
  {
    match v
    case VNull => Null
    case VBool(b) => Bool(b)
    case VNum(text) => Num(text)
    case VStr(s) => Str(s)
    case VArr(items) => Arr(EncodeItems(items))
    case VObj(fields) => Obj(EncodeFields(v, SortedKeys(fields.Keys)))
  }

  function EncodeItems(items: seq<Value>): (r: seq<Json>)
    ensures |r| == |items|
    ensures forall i :: 0 <= i < |r| ==> r[i] == Encode(items[i])
    decreases items, 1
  {
    if items == [] then [] else [Encode(items[0])] + EncodeItems(items[1..])
  }

  function EncodeFields(v: Value, keys: seq<string>): (r: seq<Member>)
    requires v.VObj? && forall i :: 0 <= i < |keys| ==> keys[i] in v.fields
    ensures |r| == |keys|
    ensures forall i :: 0 <= i < |r| ==> r[i].key == keys[i] && r[i].value == Encode(v.fields[keys[i]])
    decreases v, 0, |keys|
  {
    if keys == [] then [] else [Member(keys[0], Encode(v.fields[keys[0]]))] + EncodeFields(v, keys[1..])
  }

  /** `CanonicalJSON`: empty input stands for the empty object; malformed input is refused. */
  function Canonical(raw: Raw): Option<Json> {
    match raw
    case Nil => Some(Obj([]))
    case NoBytes => Some(Obj([]))
    case Malformed => None
    case Doc(j) => Some(CanonicalTree(j))
  }

  function CanonicalTree(j: Json): Json { Encode(Decode(j)) }

  // ----- last duplicate wins -----

  predicate HasKey(members: seq<Member>, key: string) {
    exists i :: 0 <= i < |members| && members[i].key == key
  }

  /** The position of the last member with `key`. */
  function LastIndex(members: seq<Member>, key: string): (i: nat)
    requires HasKey(members, key)
    ensures i < |members| && members[i].key == key
    ensures forall k :: i < k < |members| ==> members[k].key != key
  {
    if members[|members| - 1].key == key then |members| - 1
    else
      var front := members[..|members| - 1];
      assert HasKey(front, key) by {
        var k :| 0 <= k < |members| && members[k].key == key;
        assert front[k].key == key;
      }
      LastIndex(front, key)
  }

  lemma {:induction false} DecodeMembersLookup(members: seq<Member>, key: string)
    ensures key in DecodeMembers(members) <==> HasKey(members, key)
    ensures HasKey(members, key) ==> DecodeMembers(members)[key] == Decode(members[LastIndex(members, key)].value)
  {
    if members != [] {
      var front := members[..|members| - 1];
      DecodeMembersLookup(front, key);
      if HasKey(front, key) {
        var i :| 0 <= i < |front| && front[i].key == key;
        assert members[i].key == key;
      }
      if HasKey(members, key) && members[|members| - 1].key != key {
        var i :| 0 <= i < |members| && members[i].key == key;
        assert front[i].key == key;
        var k := LastIndex(members, key);
        assert front[k] == members[k];
        assert LastIndex(front, key) == k;
      }
    }
  }

  // ----- decode undoes encode -----

  lemma {:induction false} DecodeEncode(v: Value)
    ensures Decode(Encode(v)) == v
    decreases v
  {
    match v
    case VArr(items) =>
      forall i | 0 <= i < |items| ensures Decode(Encode(items[i])) == items[i] { DecodeEncode(items[i]); }
    case VObj(fields) =>
      forall key | key in fields ensures Decode(Encode(fields[key])) == fields[key] { DecodeEncode(fields[key]); }
      DecodeEncodedFields(v, SortedKeys(fields.Keys));
    case _ =>
  }

  lemma DecodeEncodedFields(v: Value, keys: seq<string>)
    requires v.VObj? && forall key :: key in keys <==> key in v.fields
    requires forall key :: key in v.fields ==> Decode(Encode(v.fields[key])) == v.fields[key]
    ensures DecodeMembers(EncodeFields(v, keys)) == v.fields
  {
    var members := EncodeFields(v, keys);
    forall key ensures HasKey(members, key) <==> key in v.fields {
      if key in v.fields {
        assert key in keys;
        var i :| 0 <= i < |keys| && keys[i] == key;
        assert members[i].key == key;
      }
    }
    forall key
      ensures key in DecodeMembers(members) <==> key in v.fields
      ensures key in v.fields ==> DecodeMembers(members)[key] == v.fields[key]
    {
      DecodeMembersLookup(members, key);
    }
  }

  /** Canonicalising twice changes nothing. */
  lemma CanonicalIdempotent(j: Json)
    ensures CanonicalTree(CanonicalTree(j)) == CanonicalTree(j)
    ensures Canonical(Doc(CanonicalTree(j))) == Some(CanonicalTree(j))
  {
    DecodeEncode(Decode(j));
  }

  /** Two documents say the same: equal scalars, arrays equal item by item, and objects
      with the same keys whose last members for each key say the same. */
  ghost predicate SameMeaning(a: Json, b: Json)
    decreases a
  {
    match (a, b)
    case (Arr(x), Arr(y)) => |x| == |y| && forall i :: 0 <= i < |x| ==> SameMeaning(x[i], y[i])
    case (Obj(x), Obj(y)) =>
      && (forall key :: HasKey(x, key) <==> HasKey(y, key))
      && (forall key :: HasKey(x, key) && HasKey(y, key) ==>
            SameMeaning(x[LastIndex(x, key)].value, y[LastIndex(y, key)].value))
    case _ => a == b
  }

  lemma {:induction false} SameMeaningIsEqualDecoding(a: Json, b: Json)
    ensures SameMeaning(a, b) <==> Decode(a) == Decode(b)
    decreases a
  {
    match (a, b)
    case (Arr(x), Arr(y)) =>
      if |x| == |y| {
        forall i | 0 <= i < |x| ensures SameMeaning(x[i], y[i]) <==> Decode(x[i]) == Decode(y[i]) {
          SameMeaningIsEqualDecoding(x[i], y[i]);
        }
        assert (forall i :: 0 <= i < |x| ==> DecodeItems(x)[i] == DecodeItems(y)[i]) <==>
                 DecodeItems(x) == DecodeItems(y);
      }
    case (Obj(x), Obj(y)) =>
      forall key | HasKey(x, key) && HasKey(y, key)
        ensures SameMeaning(x[LastIndex(x, key)].value, y[LastIndex(y, key)].value)
           <==> Decode(x[LastIndex(x, key)].value) == Decode(y[LastIndex(y, key)].value)
      {
        SameMeaningIsEqualDecoding(x[LastIndex(x, key)].value, y[LastIndex(y, key)].value);
      }
      EqualFields(x, y);
    case _ =>
  }

  /** Two objects decode to the same map exactly when their last members agree key by key. */
  lemma EqualFields(x: seq<Member>, y: seq<Member>)
    ensures DecodeMembers(x) == DecodeMembers(y) <==>
            && (forall key :: HasKey(x, key) <==> HasKey(y, key))
            && (forall key :: HasKey(x, key) && HasKey(y, key) ==>
                  Decode(x[LastIndex(x, key)].value) == Decode(y[LastIndex(y, key)].value))
  {
    var m, n := DecodeMembers(x), DecodeMembers(y);
    forall key
      ensures (key in m <==> HasKey(x, key)) && (HasKey(x, key) ==> m[key] == Decode(x[LastIndex(x, key)].value))
      ensures (key in n <==> HasKey(y, key)) && (HasKey(y, key) ==> n[key] == Decode(y[LastIndex(y, key)].value))
    {
      DecodeMembersLookup(x, key);
      DecodeMembersLookup(y, key);
    }
    if (forall key :: HasKey(x, key) <==> HasKey(y, key))
       && (forall key :: HasKey(x, key) && HasKey(y, key) ==>
             Decode(x[LastIndex(x, key)].value) == Decode(y[LastIndex(y, key)].value)) {
      assert forall key :: key in m <==> key in n;
      assert forall key :: key in m ==> m[key] == n[key];
      assert m == n;
    }
  }

  /** Canonical bytes are equal exactly when the documents say the same; in particular they
      do not depend on the order of members at any depth. */
  lemma CanonicalTextIsMeaning(a: Json, b: Json)
    ensures Print(CanonicalTree(a)) == Print(CanonicalTree(b)) <==> SameMeaning(a, b)
  {
    PrintInjective(CanonicalTree(a), CanonicalTree(b));
    DecodeEncode(Decode(a));
    DecodeEncode(Decode(b));
    SameMeaningIsEqualDecoding(a, b);
  }

  ghost predicate DistinctKeys(members: seq<Member>) {
    forall i, j :: 0 <= i < j < |members| ==> members[i].key != members[j].key
  }

  /** Rearranging members with different keys leaves the canonical form alone. */
  lemma ReorderedMembers(x: seq<Member>, y: seq<Member>)
    requires DistinctKeys(x) && DistinctKeys(y) && multiset(x) == multiset(y)
    ensures CanonicalTree(Obj(x)) == CanonicalTree(Obj(y))
  {
    forall key ensures key in DecodeMembers(x) <==> key in DecodeMembers(y) {
      SameLookup(x, y, key);
      SameLookup(y, x, key);
    }
    forall key | key in DecodeMembers(x) ensures DecodeMembers(x)[key] == DecodeMembers(y)[key] {
      SameLookup(x, y, key);
    }
    assert DecodeMembers(x) == DecodeMembers(y);
  }

  lemma SameLookup(x: seq<Member>, y: seq<Member>, key: string)
    requires DistinctKeys(y) && multiset(x) == multiset(y)
    ensures key in DecodeMembers(x) ==> key in DecodeMembers(y) && DecodeMembers(x)[key] == DecodeMembers(y)[key]
  {
    DecodeMembersLookup(x, key);
    DecodeMembersLookup(y, key);
    if HasKey(x, key) {
      var m := x[LastIndex(x, key)];
      assert m in multiset(y);
      var j :| 0 <= j < |y| && y[j] == m;
      assert y[j].key == key;
      assert LastIndex(y, key) == j;
    }
  }
}
