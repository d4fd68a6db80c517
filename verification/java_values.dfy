/**
 * The values a parsed JSON or YAML document holds, as Java objects, and their `toString`.
 * Floating-point numbers are not part of this model.
 */
module JavaValues {
  import opened Results
  import opened Text

  /** `String`, `Integer`/`Long`, `Boolean`, `null`, `List` and (insertion-ordered) `Map` values. */
  datatype Value =
    | VString(s: string)
    | VInt(i: int)
    | VBool(b: bool)
    | VNull
    | VList(items: seq<Value>)
    | VMap(entries: seq<(string, Value)>)

  /** The parts joined with ", " between neighbours, as the collection `toString`s do. */
  function JoinComma(parts: seq<string>): (r: string)
    ensures parts == [] ==> r == ""
    ensures |parts| == 1 ==> r == parts[0]
    ensures |r| >= if parts == [] then 0 else 2 * (|parts| - 1)
  {
    if parts == [] then ""
    else if |parts| == 1 then parts[0]
    else parts[0] + ", " + JoinComma(parts[1..])
  }

  /**
   * `String.valueOf(v)`: a string is itself, numbers in decimal, booleans as "true"/"false", null
   * as "null", a list as "[a, b]" and a map as "{k=v, ...}", elements rendered the same way.
   */
  function ToString(v: Value): (r: string)
    ensures v.VString? ==> r == v.s
    ensures v.VInt? ==> r == IntToDecimal(v.i)
    ensures v.VBool? ==> r == if v.b then "true" else "false"
    ensures v.VNull? ==> r == "null"
    ensures v == VList([]) ==> r == "[]"
    ensures v == VMap([]) ==> r == "{}"
    ensures v.VList? ==> |r| >= 2 && r[0] == '[' && r[|r| - 1] == ']'
    ensures v.VMap? ==> |r| >= 2 && r[0] == '{' && r[|r| - 1] == '}'
    decreases v
  {
    match v
    case VString(s) => s
    case VInt(i) => IntToDecimal(i)
    case VBool(b) => if b then "true" else "false"
    case VNull => "null"
    case VList(items) =>
      "[" + JoinComma(seq(|items|, k requires 0 <= k < |items| => ToString(items[k]))) + "]"
    case VMap(entries) =>
      "{" + JoinComma(seq(|entries|, k requires 0 <= k < |entries| =>
                            entries[k].0 + "=" + ToString(entries[k].1))) + "}"
  }

  /** The texts of a list's elements, as `ToString` joins them. */
  function ItemTexts(items: seq<Value>): seq<string> {
    seq(|items|, k requires 0 <= k < |items| => ToString(items[k]))
  }

  /** The texts of a map's entries, as `ToString` joins them. */
  function EntryTexts(entries: seq<(string, Value)>): seq<string> {
    seq(|entries|, k requires 0 <= k < |entries| => entries[k].0 + "=" + ToString(entries[k].1))
  }

  lemma ListToStringUnfold(items: seq<Value>)
    ensures ToString(VList(items)) == "[" + JoinComma(ItemTexts(items)) + "]"
  {
  }

  lemma MapToStringUnfold(entries: seq<(string, Value)>)
    ensures ToString(VMap(entries)) == "{" + JoinComma(EntryTexts(entries)) + "}"
  {
  }

  lemma ItemTextsCons(x: Value, rest: seq<Value>)
    ensures ItemTexts([x] + rest) == [ToString(x)] + ItemTexts(rest)
  {
    var items := [x] + rest;
    forall k | 0 <= k < |rest| ensures ItemTexts(items)[k + 1] == ItemTexts(rest)[k] {
      assert items[k + 1] == rest[k];
    }
  }

  lemma EntryTextsCons(key: string, value: Value, rest: seq<(string, Value)>)
    ensures EntryTexts([(key, value)] + rest) == [key + "=" + ToString(value)] + EntryTexts(rest)
  {
    var entries := [(key, value)] + rest;
    forall k | 0 <= k < |rest| ensures EntryTexts(entries)[k + 1] == EntryTexts(rest)[k] {
      assert entries[k + 1] == rest[k];
    }
  }

  /** Joining a part in front of a non-empty tail puts ", " between them. */
  lemma JoinCommaCons(head: string, tail: seq<string>)
    requires tail != []
    ensures JoinComma([head] + tail) == head + ", " + JoinComma(tail)
  {
    assert ([head] + tail)[1..] == tail;
  }

  /** Moving the ", " join of a head and a tail's rendering between brackets. */
  lemma BracketCons(open: string, close: string, head: string, inner: string)
    requires |open| == 1
    ensures open + (head + ", " + inner) + close == open + head + ", " + (open + inner + close)[1..]
  {
    assert (open + inner + close)[1..] == inner + close;
  }

  /**
   * A list renders element by element: "[" and the first element, then ", " before each later
   * element, then "]".
   */
  lemma ListToStringCons(x: Value, rest: seq<Value>)
    ensures ToString(VList([x])) == "[" + ToString(x) + "]"
    ensures rest != [] ==>
      ToString(VList([x] + rest)) == "[" + ToString(x) + ", " + ToString(VList(rest))[1..]
  {
    ItemTextsCons(x, []);
    assert [x] + [] == [x];
    ListToStringUnfold([x]);
    if rest != [] {
      ItemTextsCons(x, rest);
      ListToStringUnfold([x] + rest);
      ListToStringUnfold(rest);
      JoinCommaCons(ToString(x), ItemTexts(rest));
      BracketCons("[", "]", ToString(x), JoinComma(ItemTexts(rest)));
    }
  }

  /** A map renders entry by entry as "key=value", in the same layout as a list within "{" and "}". */
  lemma MapToStringCons(key: string, value: Value, rest: seq<(string, Value)>)
    ensures ToString(VMap([(key, value)])) == "{" + key + "=" + ToString(value) + "}"
    ensures rest != [] ==>
      ToString(VMap([(key, value)] + rest)) == "{" + key + "=" + ToString(value) + ", " + ToString(VMap(rest))[1..]
  {
    MapToStringSingle(key, value);
    if rest != [] {
      MapToStringConsStep(key, value, rest);
    }
  }

  lemma MapToStringSingle(key: string, value: Value)
    ensures ToString(VMap([(key, value)])) == "{" + key + "=" + ToString(value) + "}"
  {
    EntryTextsCons(key, value, []);
    assert [(key, value)] + [] == [(key, value)];
    MapToStringUnfold([(key, value)]);
    var head := key + "=" + ToString(value);
    assert "{" + head + "}" == "{" + key + "=" + ToString(value) + "}";
  }

  lemma MapToStringConsStep(key: string, value: Value, rest: seq<(string, Value)>)
    requires rest != []
    ensures ToString(VMap([(key, value)] + rest)) == "{" + key + "=" + ToString(value) + ", " + ToString(VMap(rest))[1..]
  {
    var head := key + "=" + ToString(value);
    var inner := JoinComma(EntryTexts(rest));
    EntryTextsCons(key, value, rest);
    MapToStringUnfold([(key, value)] + rest);
    MapToStringUnfold(rest);
    JoinCommaCons(head, EntryTexts(rest));
    BracketCons("{", "}", head, inner);
    assert "{" + head + ", " == "{" + key + "=" + ToString(value) + ", ";
  }

  /** A Java `int` renders in decimal and `Integer.parseInt` reads it back. */
  lemma IntToStringParses(i: int)
    requires IsInt32(i)
    ensures ParseInt(ToString(VInt(i))) == Some(i)
  {
    ParseIntOfDecimal(i);
  }
}
