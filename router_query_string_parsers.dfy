/**
 * src/router/query-string-parsers.ts: the flat parser, which converts numeric
 * values with the library test `Is.numeric` and decodes nothing, and the flat
 * serialiser, which writes arrays as repeated `key[]=item` parts and every other
 * value as `key=value`.
 */
module RouterQueryStringParsers {
  import opened Wrappers
  import opened Text
  import opened Foreign
  import opened QueryValues

  /** `toObjectParser(query)`: the loop over the `&`-separated parts. */
  method ToObjectParser(host: Host, query: string) returns (result: map<string, Value>)
    ensures result == ToObject(LibNumeric(host.isNumericLib), query)
  {
    ghost var conv := LibNumeric(host.isNumericLib);
    var vars := Split(query, '&');
    result := map[];
    var i := 0;
    while i < |vars|
      invariant 0 <= i <= |vars|
      invariant result == FoldFrom(conv, map[], Entries(vars[..i]))
    {
      result := ParseNext(host, vars, i, result);
      i := i + 1;
    }
    assert vars[..|vars|] == vars;
  }

  /** The loop's step: parsing the next part extends the fold over the parts before it by one. */
  method ParseNext(host: Host, vars: seq<string>, i: nat, result: map<string, Value>) returns (result': map<string, Value>)
    requires i < |vars|
    requires result == FoldFrom(LibNumeric(host.isNumericLib), map[], Entries(vars[..i]))
    ensures result' == FoldFrom(LibNumeric(host.isNumericLib), map[], Entries(vars[..i + 1]))
  {
    result' := ParsePart(host, result, vars[i]);
    ParseStep(LibNumeric(host.isNumericLib), vars, i + 1, result, result');
  }

  /** One turn of the loop: the part is split at `=`, its key and value read, and the value accumulated under the key. */
  method ParsePart(host: Host, result: map<string, Value>, part: string) returns (result': map<string, Value>)
    ensures result' == Accumulate(LibNumeric(host.isNumericLib), result, EntryOf(part))
  {
    var pair := Split(part, '=');
    var isArrayKey := Includes(pair[0], "[]");
    var key := ReplaceFirst(pair[0], "[]", "");
    var value := Undefined;
    if |pair| > 1 {
      value := if host.isNumericLib(pair[1]) then Num(pair[1]) else Str(pair[1]);
    }
    result' := result;
    if key in result' && Truthy(result'[key]) {
      if result'[key].List? {
        result' := result'[key := List(result'[key].items + [value])];
      } else {
        result' := result'[key := List([result'[key], value])];
      }
    } else if isArrayKey {
      result' := result'[key := List([value])];
    } else {
      result' := result'[key := value];
    }
  }

  /** The text one key contributes: `key[]=item` per array item, `key=value` otherwise. */
  function KeyPart(key: string, value: Param): string {
    if value.Array? then Join(ArrayParts(key, value.items), "&") else key + "=" + Printed(value)
  }

  function KeyParts(params: seq<(string, Param)>): (parts: seq<string>)
    ensures |parts| == |params|
    ensures forall i :: 0 <= i < |params| ==> parts[i] == KeyPart(params[i].0, params[i].1)
  {
    seq(|params|, i requires 0 <= i < |params| => KeyPart(params[i].0, params[i].1))
  }

  /** `toStringParser(params)`, the entries listed in `Object.keys` order. */
  function ToStringParser(params: seq<(string, Param)>): (r: string)
    ensures params == [] ==> r == ""
    ensures |params| == 1 ==> r == KeyPart(params[0].0, params[0].1)
    ensures |params| >= 2 ==> r == KeyPart(params[0].0, params[0].1) + "&" + ToStringParser(params[1..])
  {
    assert |params| >= 1 ==> KeyParts(params)[1..] == KeyParts(params[1..]);
    Join(KeyParts(params), "&")
  }

  // ---------------------------------------------------------------- round trip

  /** A key or value text the parser reads back unchanged: it holds no `&` and no `=`. */
  predicate PlainText(t: string) {
    '&' !in t && '=' !in t
  }

  /** A key that survives `[]` removal: plain, and holding no `[]`. */
  predicate PlainKey(k: string) {
    PlainText(k) && !Includes(k, "[]")
  }

  /** A value written as plain parts: a non-empty array of plain items, or a value that prints plainly. */
  predicate PlainValue(v: Param) {
    if v.Array? then |v.items| >= 1 && forall i :: 0 <= i < |v.items| ==> PlainText(v.items[i])
    else PlainText(Printed(v))
  }

  /** The objects whose serialisation parses back: non-empty, with distinct plain keys and plain values. */
  predicate Serialisable(params: seq<(string, Param)>) {
    |params| >= 1
    && (forall i, j :: 0 <= i < j < |params| ==> params[i].0 != params[j].0)
    && forall i :: 0 <= i < |params| ==> PlainKey(params[i].0) && PlainValue(params[i].1)
  }

  /** The converted items of an array. */
  function ConvertItems(conv: Conversion, items: seq<string>): (vs: seq<Value>)
    ensures |vs| == |items|
    ensures forall i :: 0 <= i < |items| ==> vs[i] == Convert(conv, Some(items[i]))
  {
    seq(|items|, i requires 0 <= i < |items| => Convert(conv, Some(items[i])))
  }

  /** What a parser reads back for one value. */
  function Expected(conv: Conversion, v: Param): Value {
    if v.Array? then List(ConvertItems(conv, v.items)) else Convert(conv, Some(Printed(v)))
  }

  /** What a parser reads back for an object: every key with its value converted. */
  function ExpectedObject(conv: Conversion, params: seq<(string, Param)>): map<string, Value>
    decreases |params|
  {
    if params == [] then map[]
    else
      var last := params[|params| - 1];
      ExpectedObject(conv, params[..|params| - 1])[last.0 := Expected(conv, last.1)]
  }

  /** A key no entry has is not in the expected object. */
  lemma {:induction false} ExpectedObjectAbsent(conv: Conversion, params: seq<(string, Param)>, k: string)
    requires forall i :: 0 <= i < |params| ==> params[i].0 != k
    ensures k !in ExpectedObject(conv, params)
    decreases |params|
  {
    if params != [] {
      ExpectedObjectAbsent(conv, params[..|params| - 1], k);
    }
  }

  /**
   * Serialising then parsing gives back every key with its converted value,
   * for any conversion, so for both parsers. (An empty object does not round
   * trip: the empty query parses to the single key `""` holding `undefined`.)
   */
  lemma RoundTrip(conv: Conversion, params: seq<(string, Param)>)
    requires Serialisable(params)
    ensures ToObject(conv, ToStringParser(params)) == ExpectedObject(conv, params)
  {
    SerialisedParts(params);
    PiecesPlain(params);
    SplitJoin(Pieces(params), '&');
    FoldPieces(conv, params);
  }

  /** The parts of the whole query, key by key. */
  function Pieces(params: seq<(string, Param)>): seq<string>
    decreases |params|
  {
    if params == [] then []
    else
      var last := params[|params| - 1];
      Pieces(params[..|params| - 1]) + PiecesOf(last.0, last.1)
  }

  function PiecesOf(key: string, value: Param): seq<string> {
    if value.Array? then ArrayParts(key, value.items) else [key + "=" + Printed(value)]
  }

  /** The serialisation is the join of all the parts. */
  lemma {:induction false} SerialisedParts(params: seq<(string, Param)>)
    requires |params| >= 1
    requires forall i :: 0 <= i < |params| ==> PlainValue(params[i].1)
    ensures |Pieces(params)| >= 1
    ensures ToStringParser(params) == Join(Pieces(params), "&")
    decreases |params|
  {
    var n := |params| - 1;
    var prefix, last := params[..n], params[n];
    OwnPieces(last.0, last.1);
    if n == 0 {
      assert prefix == [];
      assert Pieces(params) == PiecesOf(last.0, last.1);
      assert KeyParts(params) == [KeyPart(last.0, last.1)];
    } else {
      SerialisedParts(prefix);
      KeyPartsSnoc(params);
      JoinAppend(KeyParts(prefix), [KeyPart(last.0, last.1)], "&");
      JoinAppend(Pieces(prefix), PiecesOf(last.0, last.1), "&");
    }
  }

  /** A value contributes at least one part, and its text is the join of its parts. */
  lemma OwnPieces(key: string, value: Param)
    requires PlainValue(value)
    ensures |PiecesOf(key, value)| >= 1
    ensures KeyPart(key, value) == Join(PiecesOf(key, value), "&")
  {
  }

  lemma KeyPartsSnoc(params: seq<(string, Param)>)
    requires |params| >= 1
    ensures KeyParts(params) == KeyParts(params[..|params| - 1]) + [KeyPart(params[|params| - 1].0, params[|params| - 1].1)]
  {
  }

  /** No part holds an `&`. */
  lemma {:induction false} PiecesPlain(params: seq<(string, Param)>)
    requires forall i :: 0 <= i < |params| ==> PlainKey(params[i].0) && PlainValue(params[i].1)
    ensures forall i :: 0 <= i < |Pieces(params)| ==> '&' !in Pieces(params)[i]
    decreases |params|
  {
    if params != [] {
      var n := |params| - 1;
      PiecesPlain(params[..n]);
      var own := PiecesOf(params[n].0, params[n].1);
      forall i | 0 <= i < |own| ensures '&' !in own[i] {
        if params[n].1.Array? {
          assert own[i] == params[n].0 + "[]=" + params[n].1.items[i];
        }
      }
    }
  }

  /** Parsing the parts of the whole query builds the expected object. */
  lemma {:induction false} FoldPieces(conv: Conversion, params: seq<(string, Param)>)
    requires (forall i, j :: 0 <= i < j < |params| ==> params[i].0 != params[j].0)
    requires forall i :: 0 <= i < |params| ==> PlainKey(params[i].0) && PlainValue(params[i].1)
    ensures FoldFrom(conv, map[], Entries(Pieces(params))) == ExpectedObject(conv, params)
    decreases |params|
  {
    if params != [] {
      var n := |params| - 1;
      assert forall i :: 0 <= i < n ==> params[..n][i] == params[i];
      FoldPieces(conv, params[..n]);
      FoldPiecesStep(conv, params);
    }
  }

  /** One more key: its parts, parsed after those of the keys before it, add it with its expected value. */
  lemma FoldPiecesStep(conv: Conversion, params: seq<(string, Param)>)
    requires params != []
    requires var last := params[|params| - 1];
      && (forall i :: 0 <= i < |params| - 1 ==> params[i].0 != last.0)
      && PlainKey(last.0) && PlainValue(last.1)
    requires var prefix := params[..|params| - 1];
      FoldFrom(conv, map[], Entries(Pieces(prefix))) == ExpectedObject(conv, prefix)
    ensures FoldFrom(conv, map[], Entries(Pieces(params))) == ExpectedObject(conv, params)
  {
    var n := |params| - 1;
    var prefix, last := params[..n], params[n];
    var before := ExpectedObject(conv, prefix);
    var own := Entries(PiecesOf(last.0, last.1));
    assert last.0 !in before by {
      assert forall i :: 0 <= i < |prefix| ==> prefix[i].0 != last.0;
      ExpectedObjectAbsent(conv, prefix, last.0);
    }
    assert Entries(Pieces(params)) == Entries(Pieces(prefix)) + own by {
      assert Pieces(params) == Pieces(prefix) + PiecesOf(last.0, last.1);
      EntriesAppend(Pieces(prefix), PiecesOf(last.0, last.1));
    }
    assert FoldFrom(conv, map[], Entries(Pieces(prefix)) + own) == FoldFrom(conv, before, own) by {
      FoldFromAppend(conv, map[], Entries(Pieces(prefix)), own);
    }
    FoldOwnPieces(conv, before, last.0, last.1);
  }

  /** Parsing one key's parts onto an object without that key adds the key with its expected value. */
  lemma FoldOwnPieces(conv: Conversion, acc: map<string, Value>, key: string, value: Param)
    requires key !in acc && PlainKey(key) && PlainValue(value)
    ensures FoldFrom(conv, acc, Entries(PiecesOf(key, value))) == acc[key := Expected(conv, value)]
  {
    if value.Array? {
      FoldArrayParts(conv, acc, key, value.items);
    } else {
      EntryOfPair(key, Printed(value));
      var es := Entries(PiecesOf(key, value));
      assert es == [Entry(key, false, Some(Printed(value)))];
      assert es[..0] == [];
    }
  }

  /** Parsing `key[]=item` parts onto an object without `key` collects every item, in order. */
  lemma {:induction false} FoldArrayParts(conv: Conversion, acc: map<string, Value>, key: string, items: seq<string>)
    requires key !in acc && PlainKey(key)
    requires |items| >= 1 && forall i :: 0 <= i < |items| ==> PlainText(items[i])
    ensures FoldFrom(conv, acc, Entries(ArrayParts(key, items))) == acc[key := List(ConvertItems(conv, items))]
    decreases |items|
  {
    var n := |items| - 1;
    if n > 0 {
      FoldArrayParts(conv, acc, key, items[..n]);
    }
    FoldArrayPartsStep(conv, acc, key, items);
  }

  /** `FoldArrayParts` for the last item, given the prefix (empty, or already folded). */
  lemma FoldArrayPartsStep(conv: Conversion, acc: map<string, Value>, key: string, items: seq<string>)
    requires key !in acc && PlainKey(key)
    requires |items| >= 1 && forall i :: 0 <= i < |items| ==> PlainText(items[i])
    requires var n := |items| - 1;
      n > 0 ==> FoldFrom(conv, acc, Entries(ArrayParts(key, items[..n]))) == acc[key := List(ConvertItems(conv, items[..n]))]
    ensures FoldFrom(conv, acc, Entries(ArrayParts(key, items))) == acc[key := List(ConvertItems(conv, items))]
  {
    var n := |items| - 1;
    var es := Entries(ArrayParts(key, items));
    var done, last := ConvertItems(conv, items[..n]), Convert(conv, Some(items[n]));
    var start := if n == 0 then acc else acc[key := List(done)];
    assert |es| == n + 1;
    assert es[n] == Entry(key, true, Some(items[n])) by { ArrayPartEntry(key, items, n); }
    assert FoldFrom(conv, acc, es[..n]) == start && ConvertItems(conv, items) == done + [last] by {
      ArrayPartsPrefix(conv, key, items);
      if n == 0 {
        assert es[..0] == [] && items[..0] == [];
      }
    }
    assert FoldFrom(conv, acc, es) == Accumulate(conv, start, es[n]) by { FoldFromLast(conv, acc, es); }
    assert Accumulate(conv, start, es[n]) == acc[key := List(done + [last])] by {
      AppendArrayItem(conv, acc, key, done, items[n]);
    }
  }

  /** One more `key[]=item` part: the first starts the array, every later one is appended. */
  lemma AppendArrayItem(conv: Conversion, acc: map<string, Value>, key: string, done: seq<Value>, item: string)
    requires key !in acc
    ensures var start := if done == [] then acc else acc[key := List(done)];
      Accumulate(conv, start, Entry(key, true, Some(item))) == acc[key := List(done + [Convert(conv, Some(item))])]
  {
    if done == [] {
      assert done + [Convert(conv, Some(item))] == [Convert(conv, Some(item))];
    }
  }

  /** The `n`-th array part reads back as an array entry for the key. */
  lemma ArrayPartEntry(key: string, items: seq<string>, n: nat)
    requires PlainKey(key) && n < |items| && PlainText(items[n])
    ensures Entries(ArrayParts(key, items))[n] == Entry(key, true, Some(items[n]))
  {
    EntryOfPair(key, items[n]);
    assert ArrayParts(key, items)[n] == key + "[]=" + items[n];
  }

  /** The entries and converted items of an array's prefix. */
  lemma ArrayPartsPrefix(conv: Conversion, key: string, items: seq<string>)
    requires |items| >= 1
    ensures var n := |items| - 1;
      && Entries(ArrayParts(key, items))[..n] == Entries(ArrayParts(key, items[..n]))
      && ConvertItems(conv, items) == ConvertItems(conv, items[..n]) + [Convert(conv, Some(items[n]))]
  {
  }

  /** Arrays are written item by item and read back as arrays: `{a: ["1", "x"]}` gives `a[]=1&a[]=x`. */
  lemma ArrayExample()
    ensures ToStringParser([("a", Array(["1", "x"]))]) == "a[]=1&a[]=x"
  {
    var parts := ArrayParts("a", ["1", "x"]);
    assert "a" + "[]=" + "1" == "a[]=1" && "a" + "[]=" + "x" == "a[]=x";
    assert parts == ["a[]=1", "a[]=x"];
    assert Join(parts, "&") == "a[]=1&a[]=x";
    assert KeyParts([("a", Array(["1", "x"]))]) == ["a[]=1&a[]=x"];
  }
}
