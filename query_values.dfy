/**
 * What the two query-string parsers (src/query-string-parsers.ts and
 * src/router/query-string-parsers.ts) share: the values a parsed query holds,
 * how one `&`-separated part is read, and how the parts accumulate into the
 * result object. They differ only in how a raw value is converted.
 */
module QueryValues {
  import opened Wrappers
  import opened Text
  import Helpers

  /** A parsed value: `undefined`, a number (kept as the text it was read from), a string, or an array. */
  datatype Value = Undefined | Num(text: string) | Str(s: string) | List(items: seq<Value>)

  /** `Number(text) === 0` for a decimal text: every digit before the exponent is `0`. */
  predicate ZeroMantissa(t: string)
    decreases |t|
  {
    t == [] || Helpers.IsExponentMark(t[0]) || ((!Helpers.IsDigit(t[0]) || t[0] == '0') && ZeroMantissa(t[1..]))
  }

  /** JavaScript truthiness of a parsed value. */
  predicate Truthy(v: Value) {
    match v
    case Undefined => false
    case Num(t) => !ZeroMantissa(t)
    case Str(s) => s != ""
    case List(_) => true
  }

  /** How a raw value is converted by each parser. */
  datatype Conversion =
    | /** src/query-string-parsers.ts: `isNumeric`, else `decodeURIComponent`. */
      DecodeNumeric(decodeUri: string -> string)
    | /** src/router/query-string-parsers.ts: `Is.numeric`, no decoding. */
      LibNumeric(isNumeric: string -> bool)

  /** The converted value of `pair[1]`; an absent value stays `undefined`, and no conversion makes an array. */
  function Convert(conv: Conversion, raw: Option<string>): (v: Value)
    ensures raw.None? <==> v.Undefined?
    ensures !v.List?
  {
    match raw
    case None => Undefined
    case Some(s) =>
      match conv
      case DecodeNumeric(decode) => if Helpers.IsNumeric(s) then Num(s) else Str(decode(s))
      case LibNumeric(isNumeric) => if isNumeric(s) then Num(s) else Str(s)
  }

  /** One `&`-separated part: its key, whether that key held `[]`, and the raw value (`pair[1]`). */
  datatype Entry = Entry(key: string, isArrayKey: bool, raw: Option<string>)

  function EntryOf(part: string): Entry {
    var pair := Split(part, '=');
    Entry(ReplaceFirst(pair[0], "[]", ""), Includes(pair[0], "[]"), if |pair| > 1 then Some(pair[1]) else None)
  }

  function Entries(parts: seq<string>): (es: seq<Entry>)
    ensures |es| == |parts|
    ensures forall i :: 0 <= i < |parts| ==> es[i] == EntryOf(parts[i])
  {
    seq(|parts|, i requires 0 <= i < |parts| => EntryOf(parts[i]))
  }

  /** The entries of a longer list of parts extend those of its prefix. */
  lemma EntriesAppend(xs: seq<string>, ys: seq<string>)
    ensures Entries(xs + ys) == Entries(xs) + Entries(ys)
  {
    assert forall i :: 0 <= i < |xs + ys| ==> Entries(xs + ys)[i] == (Entries(xs) + Entries(ys))[i];
  }

  /** A part `key=value` with no further `=`, and `key[]=value`, are read back as written. */
  lemma EntryOfPair(key: string, value: string)
    requires '=' !in key && '=' !in value && !Includes(key, "[]")
    ensures EntryOf(key + "=" + value) == Entry(key, false, Some(value))
    ensures EntryOf(key + "[]=" + value) == Entry(key, true, Some(value))
  {
    assert Join([key, value], "=") == key + "=" + value;
    SplitJoin([key, value], '=');
    assert '=' !in key + "[]";
    assert Join([key + "[]", value], "=") == key + "[]=" + value;
    SplitJoin([key + "[]", value], '=');
    KeyWithBrackets(key);
  }

  /** Only the text between the first and the second `=` is the value: `a=b=c` reads as `a` = `b`. */
  lemma SecondEqualsCutsValue(key: string, value: string, more: string)
    requires '=' !in key && '=' !in value && '=' !in more
    ensures EntryOf(key + "=" + value + "=" + more).raw == Some(value)
  {
    assert [key, value, more][1..] == [value, more];
    assert Join([value, more], "=") == value + "=" + more;
    assert Join([key, value, more], "=") == key + "=" + value + "=" + more;
    SplitJoin([key, value, more], '=');
  }

  /** A part with no `=` has an undefined value. */
  lemma NoEqualsUndefined(part: string)
    requires '=' !in part
    ensures EntryOf(part).raw == None
  {
    assert Join([part], "=") == part;
    SplitJoin([part], '=');
  }

  /** `(key + "[]").replace("[]", "")` is `key` again when `key` holds no `[]`. */
  lemma KeyWithBrackets(key: string)
    requires !Includes(key, "[]")
    ensures Includes(key + "[]", "[]") && ReplaceFirst(key + "[]", "[]", "") == key
  {
    var s := key + "[]";
    assert OccursAt(s, "[]", |key|);
    assert IndexOf(key, "[]").None?;
    forall j | 0 <= j < |key| ensures !OccursAt(s, "[]", j) {
      if j + 2 <= |key| {
        assert s[j..j + 2] == key[j..j + 2];
        assert !OccursAt(key, "[]", j);
      } else {
        assert s[j..j + 2][1] == s[j + 1] == '[';
      }
    }
    var i := IndexOf(s, "[]").value;
    assert i == |key|;
    assert s[..i] == key;
  }

  // ---------------------------------------------------------------- accumulation as written

  /**
   * One iteration of the parser loop: a key whose current value is truthy
   * collects the new value into an array; otherwise the key is (re)set, to a
   * one-element array when it was written with `[]`.
   */
  function Accumulate(conv: Conversion, result: map<string, Value>, e: Entry): (r: map<string, Value>)
    ensures r.Keys == result.Keys + {e.key}
    ensures forall k :: k in result && k != e.key ==> r[k] == result[k]
  {
    var value := Convert(conv, e.raw);
    if e.key in result && Truthy(result[e.key]) then
      if result[e.key].List? then result[e.key := List(result[e.key].items + [value])]
      else result[e.key := List([result[e.key], value])]
    else if e.isArrayKey then result[e.key := List([value])]
    else result[e.key := value]
  }

  /** `acc` after the loop has run over `es`. */
  function FoldFrom(conv: Conversion, acc: map<string, Value>, es: seq<Entry>): map<string, Value>
    decreases |es|
  {
    if es == [] then acc
    else Accumulate(conv, FoldFrom(conv, acc, es[..|es| - 1]), es[|es| - 1])
  }

  /** The loop keeps the keys it started with and adds exactly the keys of the parts. */
  lemma {:induction false} FoldFromKeys(conv: Conversion, acc: map<string, Value>, es: seq<Entry>)
    ensures FoldFrom(conv, acc, es).Keys == acc.Keys + set e | e in es :: e.key
    decreases |es|
  {
    if es != [] {
      var prefix := es[..|es| - 1];
      FoldFromKeys(conv, acc, prefix);
      KeysSnoc(es);
    }
  }

  /** The keys of a list of entries are those of all but the last, and the last one's. */
  lemma KeysSnoc(es: seq<Entry>)
    requires es != []
    ensures (set e | e in es :: e.key) == (set e | e in es[..|es| - 1] :: e.key) + {es[|es| - 1].key}
  {
    assert es == es[..|es| - 1] + [es[|es| - 1]];
  }

  /** The loop's last iteration. */
  lemma FoldFromLast(conv: Conversion, acc: map<string, Value>, es: seq<Entry>)
    requires es != []
    ensures FoldFrom(conv, acc, es) == Accumulate(conv, FoldFrom(conv, acc, es[..|es| - 1]), es[|es| - 1])
  {
  }

  /** `toObjectParser(query)` as written, for the given conversion. */
  function ToObject(conv: Conversion, query: string): map<string, Value> {
    FoldFrom(conv, map[], Entries(Split(query, '&')))
  }

  /** Running the loop over two lists in turn is running it over their concatenation. */
  lemma {:induction false} FoldFromAppend(conv: Conversion, acc: map<string, Value>, xs: seq<Entry>, ys: seq<Entry>)
    ensures FoldFrom(conv, acc, xs + ys) == FoldFrom(conv, FoldFrom(conv, acc, xs), ys)
    decreases |ys|
  {
    if ys == [] {
      assert xs + ys == xs;
    } else {
      var n := |ys| - 1;
      assert (xs + ys)[..|xs + ys| - 1] == xs + ys[..n];
      assert (xs + ys)[|xs + ys| - 1] == ys[n];
      FoldFromAppend(conv, acc, xs, ys[..n]);
    }
  }

  /** The loop over a prefix, one part longer. */
  lemma FoldFromSnoc(conv: Conversion, parts: seq<string>, i: nat)
    requires i < |parts|
    ensures FoldFrom(conv, map[], Entries(parts[..i + 1]))
            == Accumulate(conv, FoldFrom(conv, map[], Entries(parts[..i])), EntryOf(parts[i]))
  {
    var es := Entries(parts[..i + 1]);
    assert es[..|es| - 1] == Entries(parts[..i]);
  }

  /** One turn of a parser loop: accumulating the entry of the next part extends the loop over the prefix by that part. */
  lemma ParseStep(conv: Conversion, parts: seq<string>, j: nat, before: map<string, Value>, after: map<string, Value>)
    requires 0 < j <= |parts|
    requires before == FoldFrom(conv, map[], Entries(parts[..j - 1]))
    requires after == Accumulate(conv, before, EntryOf(parts[j - 1]))
    ensures after == FoldFrom(conv, map[], Entries(parts[..j]))
  {
    FoldFromSnoc(conv, parts, j - 1);
  }

  /** The values a key holds: the items of an array, or the one value. */
  function ValuesOf(v: Value): seq<Value> {
    if v.List? then v.items else [v]
  }

  /** The converted values of the parts with key `k`, in order. */
  function ValuesFor(conv: Conversion, es: seq<Entry>, k: string): (vs: seq<Value>)
    ensures |vs| <= |es|
    decreases |es|
  {
    if es == [] then []
    else
      var last := es[|es| - 1];
      ValuesFor(conv, es[..|es| - 1], k) + (if last.key == k then [Convert(conv, last.raw)] else [])
  }

  /** `a=0&a=1` reads as two plain entries for `a`, whose values convert to the numbers 0 and 1. */
  lemma ZeroThenOne(conv: Conversion)
    requires conv.LibNumeric? ==> conv.isNumeric("0") && conv.isNumeric("1")
    ensures Entries(Split("a=0&a=1", '&')) == [Entry("a", false, Some("0")), Entry("a", false, Some("1"))]
    ensures Convert(conv, Some("0")) == Num("0") && Convert(conv, Some("1")) == Num("1")
  {
    ZeroOneEntries();
    ZeroOneNumeric();
  }

  lemma ZeroOneEntries()
    ensures Entries(Split("a=0&a=1", '&')) == [Entry("a", false, Some("0")), Entry("a", false, Some("1"))]
  {
    SplitZeroOne();
    var parts := ["a=0", "a=1"];
    assert Entries(parts) == [EntryOf(parts[0]), EntryOf(parts[1])];
    EntryOfA();
  }

  lemma EntryOfA()
    ensures EntryOf("a=0") == Entry("a", false, Some("0"))
    ensures EntryOf("a=1") == Entry("a", false, Some("1"))
  {
    PlainA();
    EntryOfPair("a", "0");
    EntryOfPair("a", "1");
    assert "a" + "=" + "0" == "a=0" && "a" + "=" + "1" == "a=1";
  }

  lemma ZeroOneNumeric()
    ensures Helpers.IsNumeric("0") && Helpers.IsNumeric("1")
  {
    assert Helpers.DigitsEnd("0", 0) == 1;
    assert Helpers.DigitsEnd("1", 0) == 1;
  }

  lemma SplitZeroOne()
    ensures Split("a=0&a=1", '&') == ["a=0", "a=1"]
  {
    assert Join(["a=0", "a=1"], "&") == "a=0&a=1";
    SplitJoin(["a=0", "a=1"], '&');
  }

  lemma PlainA()
    ensures !Includes("a", "[]")
  {
    assert !OccursAt("a", "[]", 0) && !OccursAt("a", "[]", 1);
  }

  /** A key no part has collects no values. */
  lemma {:induction false} ValuesForAbsent(conv: Conversion, es: seq<Entry>, k: string)
    requires forall e :: e in es ==> e.key != k
    ensures ValuesFor(conv, es, k) == []
    decreases |es|
  {
    if es != [] {
      assert es[|es| - 1] in es;
      assert forall e :: e in es[..|es| - 1] ==> e in es;
      ValuesForAbsent(conv, es[..|es| - 1], k);
    }
  }

  /**
   * As written, a repeated key loses its earlier value when that value is falsy:
   * `a=0&a=1` gives `a` the single number 1 rather than `[0, 1]`.
   */
  lemma FalsyValueDropped(conv: Conversion)
    requires conv.LibNumeric? ==> conv.isNumeric("0") && conv.isNumeric("1")
    ensures ValuesFor(conv, Entries(Split("a=0&a=1", '&')), "a") == [Num("0"), Num("1")]
    ensures ToObject(conv, "a=0&a=1") == map["a" := Num("1")]
  {
    ZeroThenOne(conv);
    RepeatedKey(conv, "a", Some("0"), Some("1"));
    assert !Truthy(Num("0")) by { assert ZeroMantissa("0"[1..]); }
  }

  /**
   * A plain key given twice: the first value survives, paired with the second,
   * only when it is truthy; otherwise the second value replaces it.
   */
  lemma RepeatedKey(conv: Conversion, k: string, first: Option<string>, second: Option<string>)
    ensures var v0, v1 := Convert(conv, first), Convert(conv, second);
      && ValuesFor(conv, [Entry(k, false, first), Entry(k, false, second)], k) == [v0, v1]
      && FoldFrom(conv, map[], [Entry(k, false, first), Entry(k, false, second)])
         == if Truthy(v0) then map[k := List([v0, v1])] else map[k := v1]
  {
    var es := [Entry(k, false, first), Entry(k, false, second)];
    assert es[..1] == [es[0]] && es[..1][..0] == [];
    var one := FoldFrom(conv, map[], es[..1]);
    assert one == Accumulate(conv, FoldFrom(conv, map[], []), es[0]);
    assert FoldFrom(conv, map[], es) == Accumulate(conv, one, es[1]);
  }

  // ---------------------------------------------------------------- accumulation by presence

  /** The accumulation the loop evidently intends: any key already present collects the new value. */
  function AccumulateKept(conv: Conversion, result: map<string, Value>, e: Entry): (r: map<string, Value>)
    ensures r.Keys == result.Keys + {e.key}
    ensures forall k :: k in result && k != e.key ==> r[k] == result[k]
  {
    var value := Convert(conv, e.raw);
    if e.key in result then
      if result[e.key].List? then result[e.key := List(result[e.key].items + [value])]
      else result[e.key := List([result[e.key], value])]
    else if e.isArrayKey then result[e.key := List([value])]
    else result[e.key := value]
  }

  function FoldKept(conv: Conversion, es: seq<Entry>): map<string, Value>
    decreases |es|
  {
    if es == [] then map[]
    else AccumulateKept(conv, FoldKept(conv, es[..|es| - 1]), es[|es| - 1])
  }

  /** Accumulating by presence yields exactly the keys of the parts. */
  lemma {:induction false} FoldKeptKeys(conv: Conversion, es: seq<Entry>)
    ensures FoldKept(conv, es).Keys == set e | e in es :: e.key
    decreases |es|
  {
    if es != [] {
      var prefix := es[..|es| - 1];
      FoldKeptKeys(conv, prefix);
      KeysSnoc(es);
    }
  }

  /** Accumulating by presence keeps every value of every key, in order. */
  lemma {:induction false} FoldKeptKeepsAll(conv: Conversion, es: seq<Entry>)
    ensures forall k :: k in FoldKept(conv, es) ==> ValuesOf(FoldKept(conv, es)[k]) == ValuesFor(conv, es, k)
    decreases |es|
  {
    if es != [] {
      var prefix := es[..|es| - 1];
      FoldKeptKeepsAll(conv, prefix);
      FoldKeptStep(conv, es);
    }
  }

  /** One step of `FoldKeptKeepsAll`: the property for the prefix carries over to one more entry. */
  lemma FoldKeptStep(conv: Conversion, es: seq<Entry>)
    requires es != []
    requires var before := FoldKept(conv, es[..|es| - 1]);
      forall k :: k in before ==> ValuesOf(before[k]) == ValuesFor(conv, es[..|es| - 1], k)
    ensures forall k :: k in FoldKept(conv, es) ==> ValuesOf(FoldKept(conv, es)[k]) == ValuesFor(conv, es, k)
  {
    forall k | k in FoldKept(conv, es) ensures ValuesOf(FoldKept(conv, es)[k]) == ValuesFor(conv, es, k) {
      FoldKeptStepAt(conv, es, k);
    }
  }

  /** `FoldKeptStep` for one key. */
  lemma FoldKeptStepAt(conv: Conversion, es: seq<Entry>, k: string)
    requires es != [] && k in FoldKept(conv, es)
    requires var before := FoldKept(conv, es[..|es| - 1]);
      k in before ==> ValuesOf(before[k]) == ValuesFor(conv, es[..|es| - 1], k)
    ensures ValuesOf(FoldKept(conv, es)[k]) == ValuesFor(conv, es, k)
  {
    var prefix, last := es[..|es| - 1], es[|es| - 1];
    var before := FoldKept(conv, prefix);
    var after := AccumulateKept(conv, before, last);
    assert FoldKept(conv, es) == after;
    var value := Convert(conv, last.raw);
    assert ValuesFor(conv, es, k) == ValuesFor(conv, prefix, k) + (if last.key == k then [value] else []);
    if k != last.key {
      assert after[k] == before[k];
    } else if k in before {
      assert ValuesOf(after[k]) == ValuesOf(before[k]) + [value];
    } else {
      FoldKeptKeys(conv, prefix);
      assert forall e :: e in prefix ==> e.key != k;
      ValuesForAbsent(conv, prefix, k);
      assert ValuesOf(after[k]) == [value];
    }
  }

  /** The same query read by presence keeps both numbers. */
  lemma FalsyValueKept(conv: Conversion)
    requires conv.LibNumeric? ==> conv.isNumeric("0") && conv.isNumeric("1")
    ensures FoldKept(conv, Entries(Split("a=0&a=1", '&'))) == map["a" := List([Num("0"), Num("1")])]
  {
    ZeroThenOne(conv);
    RepeatedKeyKept(conv, "a", Some("0"), Some("1"));
  }

  /** Read by presence, a plain key given twice always holds both values. */
  lemma RepeatedKeyKept(conv: Conversion, k: string, first: Option<string>, second: Option<string>)
    ensures FoldKept(conv, [Entry(k, false, first), Entry(k, false, second)])
            == map[k := List([Convert(conv, first), Convert(conv, second)])]
  {
    var es := [Entry(k, false, first), Entry(k, false, second)];
    assert es[..1] == [es[0]] && es[..1][..0] == [];
    var one := FoldKept(conv, es[..1]);
    assert one == AccumulateKept(conv, FoldKept(conv, []), es[0]);
    assert FoldKept(conv, es) == AccumulateKept(conv, one, es[1]);
  }

  // ---------------------------------------------------------------- objects to serialise

  /** A value of the object given to `toStringParser`. Scalars and array items are kept as their printed text. */
  datatype Param = Scalar(text: string) | Null | Array(items: seq<string>) | Object(entries: seq<(string, Param)>)

  /** `${value}` for a value that is not an array. */
  function Printed(v: Param): string {
    match v
    case Scalar(t) => t
    case Null => "null"
    case Array(items) => Join(items, ",")
    case Object(_) => "[object Object]"
  }

  /** The `key[]=item` parts of an array, one per item. */
  function ArrayParts(key: string, items: seq<string>): (parts: seq<string>)
    ensures |parts| == |items|
    ensures forall i :: 0 <= i < |items| ==> parts[i] == key + "[]=" + items[i]
  {
    seq(|items|, i requires 0 <= i < |items| => key + "[]=" + items[i])
  }
}
