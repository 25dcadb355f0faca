/**
 * src/query-string-parsers.ts: the parser that converts numeric values with
 * `isNumeric` and URI-decodes the others, and the serialiser that recurses into
 * nested objects, naming their entries `parent[key]`.
 */
module QueryStringParsers {
  import opened Wrappers
  import opened Text
  import opened Foreign
  import opened Helpers
  import opened QueryValues
  import Flat = RouterQueryStringParsers

  /** `toObjectParser(query)`: the loop over the `&`-separated parts. */
  method ToObjectParser(host: Host, query: string) returns (result: map<string, Value>)
    ensures result == ToObject(DecodeNumeric(host.decodeUri), query)
  {
    ghost var conv := DecodeNumeric(host.decodeUri);
    var vars := Split(query, '&');
    result := map[];
    var i := 0;
    while i < |vars|
      invariant 0 <= i <= |vars|
      invariant result == FoldFrom(conv, map[], Entries(vars[..i]))
    {
      result := ParseNext(host, vars, i, result);
      i := i + 1;
    }
    assert vars[..|vars|] == vars;
  }

  /** The loop's step: parsing the next part extends the fold over the parts before it by one. */
  method ParseNext(host: Host, vars: seq<string>, i: nat, result: map<string, Value>) returns (result': map<string, Value>)
    requires i < |vars|
    requires result == FoldFrom(DecodeNumeric(host.decodeUri), map[], Entries(vars[..i]))
    ensures result' == FoldFrom(DecodeNumeric(host.decodeUri), map[], Entries(vars[..i + 1]))
  {
    result' := ParsePart(host, result, vars[i]);
    ParseStep(DecodeNumeric(host.decodeUri), vars, i + 1, result, result');
  }

  /** One turn of the loop: the part is split at `=`, its key and value read, and the value accumulated under the key. */
  method ParsePart(host: Host, result: map<string, Value>, part: string) returns (result': map<string, Value>)
    ensures result' == Accumulate(DecodeNumeric(host.decodeUri), result, EntryOf(part))
  {
    var pair := Split(part, '=');
    var isArrayKey := Includes(pair[0], "[]");
    var key := ReplaceFirst(pair[0], "[]", "");
    var value := Undefined;
    if |pair| > 1 {
      if IsNumeric(pair[1]) {
        value := Num(pair[1]);
      } else {
        value := Str(host.decodeUri(pair[1]));
      }
    }
    result' := result;
    if key in result' && Truthy(result'[key]) {
      if result'[key].List? {
        result' := result'[key := List(result'[key].items + [value])];
      } else {
        result' := result'[key := List([result'[key], value])];
      }
    } else if isArrayKey {
      result' := result'[key := List([value])];
    } else {
      result' := result'[key := value];
    }
  }

  /** The name of a nested entry: `parent[key]`, or `key` itself at the top (an empty parent is falsy). */
  function NestedKey(parentKey: string, key: string): string {
    if parentKey != "" then parentKey + "[" + key + "]" else key
  }

  /**
   * `toStringParser(params, parentKey)`. A nested object recurses under its
   * `parent[key]` name, `null` recurses into an empty copy and so gives the empty
   * text, and an array gives `key[]=item` per item.
   */
  function ToStringParser(params: seq<(string, Param)>, parentKey: string): (r: string)
    ensures params == [] ==> r == ""
    ensures |params| == 1 ==> r == KeyPart(params[0], parentKey)
    ensures |params| >= 2 ==> r == KeyPart(params[0], parentKey) + "&" + ToStringParser(params[1..], parentKey)
    decreases params, 1
  {
    Join(KeyParts(params, parentKey), "&")
  }

  function KeyParts(params: seq<(string, Param)>, parentKey: string): (parts: seq<string>)
    ensures |parts| == |params|
    decreases params, 0
  {
    if params == [] then []
    else [KeyPart(params[0], parentKey)] + KeyParts(params[1..], parentKey)
  }

  function KeyPart(entry: (string, Param), parentKey: string): string
    decreases entry
  {
    var updatedKey := NestedKey(parentKey, entry.0);
    match entry.1
    case Object(entries) => ToStringParser(entries, updatedKey)
    case Null => ""  // the spread copy of `null` has no keys
    case Array(items) => Join(ArrayParts(updatedKey, items), "&")
    case Scalar(t) => updatedKey + "=" + t
  }

  /** An object with no nested object and no `null` is written exactly as the flat serialiser writes it. */
  lemma {:induction false} FlatAgrees(params: seq<(string, Param)>)
    requires forall i :: 0 <= i < |params| ==> params[i].1.Scalar? || params[i].1.Array?
    ensures KeyParts(params, "") == Flat.KeyParts(params)
    ensures ToStringParser(params, "") == Flat.ToStringParser(params)
    decreases |params|
  {
    if params != [] {
      FlatAgrees(params[1..]);
      assert Flat.KeyParts(params) == [Flat.KeyPart(params[0].0, params[0].1)] + Flat.KeyParts(params[1..]);
    }
  }

  /**
   * For flat objects the round trip of the flat serialiser carries over: this
   * parser reads back every key, numbers as numbers and other texts decoded.
   */
  lemma RoundTrip(host: Host, params: seq<(string, Param)>)
    requires Flat.Serialisable(params)
    requires forall i :: 0 <= i < |params| ==> params[i].1.Scalar? || params[i].1.Array?
    ensures ToObject(DecodeNumeric(host.decodeUri), ToStringParser(params, ""))
            == Flat.ExpectedObject(DecodeNumeric(host.decodeUri), params)
  {
    FlatAgrees(params);
    Flat.RoundTrip(DecodeNumeric(host.decodeUri), params);
  }

  /** Nested entries are named by their path: `{a: {b: "1", c: ["x"]}}` gives `a[b]=1&a[c][]=x`. */
  lemma NestedExample()
    ensures ToStringParser([("a", Object([("b", Scalar("1")), ("c", Array(["x"]))]))], "") == "a[b]=1&a[c][]=x"
  {
    var inner := [("b", Scalar("1")), ("c", Array(["x"]))];
    assert NestedKey("a", "b") == "a[b]" && NestedKey("a", "c") == "a[c]";
    assert "a[c]" + "[]=" + "x" == "a[c][]=x" && "a[b]" + "=" + "1" == "a[b]=1";
    assert ArrayParts("a[c]", ["x"]) == ["a[c][]=x"];
    assert KeyPart(inner[1], "a") == "a[c][]=x";
    assert inner[1..][1..] == [];
    assert KeyParts(inner[1..], "a") == ["a[c][]=x"];
    assert KeyParts(inner, "a") == ["a[b]=1", "a[c][]=x"];
    assert ToStringParser(inner, "a") == "a[b]=1&a[c][]=x";
    assert [("a", Object(inner))][1..] == [];
    assert KeyParts([("a", Object(inner))], "") == ["a[b]=1&a[c][]=x"];
  }

  /** A `null` entry contributes an empty part, and so does an empty array: `{a: null, b: "1"}` gives `&b=1`. */
  lemma EmptyPartsExample()
    ensures ToStringParser([("a", Null), ("b", Scalar("1"))], "") == "&b=1"
    ensures ToStringParser([("a", Array([])), ("b", Scalar("1"))], "") == "&b=1"
  {
    assert "b" + "=" + "1" == "b=1";
    assert [("b", Scalar("1"))][1..] == [];
    assert KeyParts([("b", Scalar("1"))], "") == ["b=1"];
    assert KeyParts([("a", Null), ("b", Scalar("1"))], "") == ["", "b=1"];
    assert ArrayParts("a", []) == [];
    assert KeyParts([("a", Array([])), ("b", Scalar("1"))], "") == ["", "b=1"];
  }
}
