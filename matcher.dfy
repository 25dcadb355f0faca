/**
 * The route-pattern compiler and the cached matcher of src/matcher.ts.
 *
 * A pattern is scanned for tokens `:name`, `:name?`, `:name+` and `:name*`
 * (the global expression `:([A-Za-z0-9_]+)([?+*]?)`); the text between tokens is
 * regex-escaped, each token becomes a capture group, and the whole is anchored
 * with an optional trailing slash and compiled case-insensitively.
 *
 * `ExecFrom` is the scan `groupRx.exec` performs; `Tokenize` is the compiler's
 * view of the whole pattern, and the method `UrlPatternMatcher` (the source's
 * `while` loop) is proved to build exactly `Compile(pattern)`.
 */
module Matcher {
  import opened Wrappers

  // ---------------------------------------------------------------- escaping

  /** The characters `escapeRx` puts a backslash in front of. */
  predicate IsRxSpecial(c: char) {
    c in ".+*?=^!:${}()[]|/\\"
  }

  /** `escapeRx(str)`: a backslash before every special character. */
  function EscapeRx(s: string): (r: string)
    ensures |r| >= |s|
  {
    if s == [] then ""
    else (if IsRxSpecial(s[0]) then ['\\', s[0]] else [s[0]]) + EscapeRx(s[1..])
  }

  /** Reads an escaped text back: a backslash stands for the character after it. */
  function UnescapeRx(t: string): string
    decreases |t|
  {
    if t == [] then ""
    else if t[0] == '\\' && |t| >= 2 then [t[1]] + UnescapeRx(t[2..])
    else [t[0]] + UnescapeRx(t[1..])
  }

  /** Escaping loses nothing: the literal text is recovered from the escaped one. */
  lemma {:induction false} EscapeRxRoundTrip(s: string)
    ensures UnescapeRx(EscapeRx(s)) == s
  {
    if s != [] {
      EscapeRxRoundTrip(s[1..]);
      var head := if IsRxSpecial(s[0]) then ['\\', s[0]] else [s[0]];
      var t := head + EscapeRx(s[1..]);
      if IsRxSpecial(s[0]) {
        assert t[2..] == EscapeRx(s[1..]);
      } else {
        assert t[0] != '\\';
        assert t[1..] == EscapeRx(s[1..]);
      }
    }
  }

  /** Escaping works character by character: the escape of a concatenation is the concatenation of the escapes. */
  lemma {:induction false} EscapeRxAppend(a: string, b: string)
    ensures EscapeRx(a + b) == EscapeRx(a) + EscapeRx(b)
    decreases |a|
  {
    if a != [] {
      EscapeRxAppend(a[1..], b);
      var head := if IsRxSpecial(a[0]) then ['\\', a[0]] else [a[0]];
      calc {
        EscapeRx(a + b);
        { assert (a + b)[0] == a[0] && (a + b)[1..] == a[1..] + b; }
        head + EscapeRx(a[1..] + b);
        head + (EscapeRx(a[1..]) + EscapeRx(b));
        (head + EscapeRx(a[1..])) + EscapeRx(b);
      }
    } else {
      assert a + b == b;
    }
  }

  /** A special character gets one backslash in front of it; any other character is kept as it is. */
  lemma EscapeRxChar(c: char)
    ensures EscapeRx([c]) == if IsRxSpecial(c) then ['\\', c] else [c]
  {
  }

  /** A text without special characters is its own escape. */
  lemma {:induction false} EscapeRxPlain(s: string)
    requires forall i :: 0 <= i < |s| ==> !IsRxSpecial(s[i])
    ensures EscapeRx(s) == s
    decreases |s|
  {
    if s != [] {
      EscapeRxPlain(s[1..]);
    }
  }

  /** Every character of the escaped text is either kept or a backslash before a special one. */
  lemma {:induction false} EscapeRxShape(s: string, i: nat)
    requires i < |s|
    ensures s[i] in EscapeRx(s)
    ensures IsRxSpecial(s[i]) ==> '\\' in EscapeRx(s)
  {
    if i > 0 { EscapeRxShape(s[1..], i - 1); }
  }

  // ---------------------------------------------------------------- segments

  const SEGMENT_CAPTURE := "([^\\/]+?)"
  const REPEAT_CAPTURE := "((?:[^\\/]+?)(?:\\/(?:[^\\/]+?))*)"

  /** `rxForSegment(repeat, optional, prefix)`. */
  function RxForSegment(repeat: bool, optional: bool, prefix: bool): (r: string)
    ensures |r| > 0
    ensures optional <==> r[|r| - 1] == '?'
    ensures optional && prefix <==> |r| >= 5 && r[..5] == "(?:\\/"
    ensures !(optional && prefix) ==> r[..|r| - (if optional then 1 else 0)] == (if repeat then REPEAT_CAPTURE else SEGMENT_CAPTURE)
    ensures optional && prefix ==> r == "(?:\\/" + (if repeat then REPEAT_CAPTURE else SEGMENT_CAPTURE) + ")?"
  {
    var capture := if repeat then REPEAT_CAPTURE else SEGMENT_CAPTURE;
    var grouped := if optional && prefix then "(?:\\/" + capture + ")" else capture;
    var r := grouped + (if optional then "?" else "");
    assert !(optional && prefix) ==> r[1] == capture[1] != '?';
    assert !(optional && prefix) && |r| >= 5 ==> r[..5][1] == r[1];
    r
  }

  // ---------------------------------------------------------------- scanning

  predicate IsNameChar(c: char) {
    'A' <= c <= 'Z' || 'a' <= c <= 'z' || '0' <= c <= '9' || c == '_'
  }

  predicate IsModifier(c: char) { c == '?' || c == '+' || c == '*' }

  /** The group expression can match at `i`: a colon followed by a name character. */
  predicate TokenStartsAt(p: string, i: nat) {
    i + 1 < |p| && p[i] == ':' && IsNameChar(p[i + 1])
  }

  /** The end of the run of name characters that starts at `i`. */
  function NameEnd(p: string, i: nat): (j: nat)
    requires i <= |p|
    ensures i <= j <= |p|
    ensures forall k :: i <= k < j ==> IsNameChar(p[k])
    ensures j == |p| || !IsNameChar(p[j])
    decreases |p| - i
  {
    if i < |p| && IsNameChar(p[i]) then NameEnd(p, i + 1) else i
  }

  /** One result of `groupRx.exec`: where it matched, its two groups, and the new `lastIndex`. */
  datatype Exec = Exec(index: nat, name: string, mod: string, lastIndex: nat)

  /** The match at a token start: the longest name, then a modifier if one follows. */
  function ExecAt(p: string, i: nat): (m: Exec)
    requires TokenStartsAt(p, i)
    ensures m.index == i && i + 2 <= m.lastIndex <= |p|
    ensures p[i + 1..m.lastIndex] == m.name + m.mod
    ensures m.lastIndex > 0 && !IsNameChar(p[m.lastIndex - 1]) ==> m.mod != ""
    ensures |m.name| > 0 && forall k :: 0 <= k < |m.name| ==> IsNameChar(m.name[k])
    ensures m.mod == "" || (|m.mod| == 1 && IsModifier(m.mod[0]))
    ensures i + 1 + |m.name| == |p| || !IsNameChar(p[i + 1 + |m.name|])
    ensures m.mod == "" ==> i + 1 + |m.name| == |p| || !IsModifier(p[i + 1 + |m.name|])
  {
    var e := NameEnd(p, i + 1);
    var mod := if e < |p| && IsModifier(p[e]) then p[e..e + 1] else "";
    assert p[i + 1..e + |mod|] == p[i + 1..e] + mod;
    Exec(i, p[i + 1..e], mod, e + |mod|)
  }

  /** `groupRx.exec(pattern)` with `groupRx.lastIndex == from`: the leftmost match at or after `from`. */
  function ExecFrom(p: string, from: nat): (r: Option<Exec>)
    requires from <= |p|
    ensures r.None? ==> forall i :: from <= i < |p| ==> !TokenStartsAt(p, i)
    ensures r.Some? ==> from <= r.value.index && TokenStartsAt(p, r.value.index) && r.value == ExecAt(p, r.value.index)
    ensures r.Some? ==> forall i :: from <= i < r.value.index ==> !TokenStartsAt(p, i)
    decreases |p| - from
  {
    if from == |p| then None
    else if TokenStartsAt(p, from) then Some(ExecAt(p, from))
    else ExecFrom(p, from + 1)
  }

  /** A token as the compiler sees it: the literal text before it, its name and its modifier. */
  datatype Token = Token(literal: string, name: string, mod: string)

  /** The tokens found from `lastIndex` on, and the literal text after the last one. */
  function Tokenize(p: string, lastIndex: nat): (r: (seq<Token>, string))
    requires lastIndex <= |p|
    decreases |p| - lastIndex
  {
    match ExecFrom(p, lastIndex)
    case None => ([], p[lastIndex..])
    case Some(m) =>
      var rest := Tokenize(p, m.lastIndex);
      ([Token(p[lastIndex..m.index], m.name, m.mod)] + rest.0, rest.1)
  }

  // ---------------------------------------------------------------- compiling

  predicate Repeats(t: Token) { t.mod == "+" || t.mod == "*" }
  predicate IsOptional(t: Token) { t.mod == "?" || t.mod == "*" }

  /** An optional token right after a slash takes that slash into its group. */
  predicate Prefixed(t: Token) {
    IsOptional(t) && |t.literal| > 0 && t.literal[|t.literal| - 1] == '/'
  }

  /** The literal text that stays outside the token's group. */
  function KeptLiteral(t: Token): string {
    if Prefixed(t) then t.literal[..|t.literal| - 1] else t.literal
  }

  function TokenSource(t: Token): string {
    EscapeRx(KeptLiteral(t)) + RxForSegment(Repeats(t), IsOptional(t), Prefixed(t))
  }

  function TokensSource(ts: seq<Token>): string {
    if ts == [] then "" else TokensSource(ts[..|ts| - 1]) + TokenSource(ts[|ts| - 1])
  }

  function Names(ts: seq<Token>): (names: seq<string>)
    ensures |names| == |ts|
    ensures forall i :: 0 <= i < |ts| ==> names[i] == ts[i].name
  {
    seq(|ts|, i requires 0 <= i < |ts| => ts[i].name)
  }

  const ANCHOR_START := "^"
  const ANCHOR_END := "(?:\\/)?$"

  /** `new RegExp(source, ignoreCase ? "i" : "")`. */
  datatype Regexp = Regexp(source: string, ignoreCase: bool)

  /** What a match maker returns: the key names and the expression. */
  datatype Compiled = Compiled(keys: seq<string>, regexp: Regexp)

  /** The expression assembled from the tokens and the trailing literal. */
  function Assemble(ts: seq<Token>, tail: string): (c: Compiled)
    ensures c.regexp.ignoreCase
    ensures ANCHOR_START <= c.regexp.source
    ensures |c.regexp.source| >= |ANCHOR_END| && c.regexp.source[|c.regexp.source| - |ANCHOR_END|..] == ANCHOR_END
  {
    var source := ANCHOR_START + (TokensSource(ts) + EscapeRx(tail)) + ANCHOR_END;
    assert source[|source| - |ANCHOR_END|..] == ANCHOR_END;
    Compiled(Names(ts), Regexp(source, true))
  }

  /** The compiled form of a pattern. */
  function Compile(p: string): Compiled {
    Assemble(Tokenize(p, 0).0, Tokenize(p, 0).1)
  }

  /** One turn of the compiler's loop: where the next token ends, and how it splits the rest. */
  lemma TokenizeStep(p: string, lastIndex: nat, m: Exec, t: Token)
    requires lastIndex <= |p|
    requires ExecFrom(p, lastIndex) == Some(m)
    requires t == Token(p[lastIndex..m.index], m.name, m.mod)
    ensures lastIndex < m.lastIndex <= |p|
    ensures p[m.lastIndex - 1] != '/'
    ensures Tokenize(p, lastIndex).0 == [t] + Tokenize(p, m.lastIndex).0
    ensures Tokenize(p, lastIndex).1 == Tokenize(p, m.lastIndex).1
  {
    if m.mod != "" {
      assert p[m.index + 1..m.lastIndex][|p[m.index + 1..m.lastIndex]| - 1] == p[m.lastIndex - 1];
    }
  }

  /** The slash before an optional token is the last character of its literal. */
  lemma PrefixStep(p: string, lastIndex: nat, m: Exec, t: Token)
    requires lastIndex <= |p| && (lastIndex == 0 || p[lastIndex - 1] != '/')
    requires ExecFrom(p, lastIndex) == Some(m)
    requires t == Token(p[lastIndex..m.index], m.name, m.mod)
    ensures IsOptional(t) && m.index > 0 && p[m.index - 1] == '/' <==> Prefixed(t)
    ensures KeptLiteral(t) == p[lastIndex..m.index - (if Prefixed(t) then 1 else 0)]
  {
    if m.index > 0 && m.index == lastIndex { assert p[m.index - 1] != '/'; }
  }

  /** Appending one token appends its names and its source text. */
  lemma TokensGrow(done: seq<Token>, t: Token)
    ensures Names(done + [t]) == Names(done) + [t.name]
    ensures TokensSource(done + [t]) == TokensSource(done) + TokenSource(t)
  {
    assert (done + [t])[..|done|] == done;
  }

  /** The loop's view of the tokenization moves one token from "to do" to "done". */
  lemma TokensShift(all: seq<Token>, done: seq<Token>, t: Token, later: seq<Token>)
    requires all == done + ([t] + later)
    ensures all == (done + [t]) + later
  {
  }

  /** What the compiler's loop knows after consuming the tokens `done`. */
  ghost predicate LoopState(p: string, lastIndex: nat, done: seq<Token>, keys: seq<string>, result: string) {
    lastIndex <= |p| && (lastIndex == 0 || p[lastIndex - 1] != '/')
    && Tokenize(p, 0).0 == done + Tokenize(p, lastIndex).0
    && Tokenize(p, 0).1 == Tokenize(p, lastIndex).1
    && keys == Names(done) && result == TokensSource(done)
  }

  /** The token `exec` finds next lies inside the pattern, after the previous one. */
  lemma StepBounds(p: string, lastIndex: nat, m: Exec)
    requires lastIndex <= |p| && (lastIndex == 0 || p[lastIndex - 1] != '/')
    requires ExecFrom(p, lastIndex) == Some(m)
    ensures lastIndex <= m.index < m.lastIndex <= |p|
    ensures m.index > 0 && p[m.index - 1] == '/' ==> lastIndex < m.index
  {
    if m.index > 0 && m.index == lastIndex { assert p[m.index - 1] != '/'; }
  }

  /** The text the loop appends for a token is that token's expression. */
  lemma PieceStep(p: string, lastIndex: nat, m: Exec, t: Token, repeat: bool, optional: bool, prefix: bool, prev: string)
    requires lastIndex <= |p| && (lastIndex == 0 || p[lastIndex - 1] != '/')
    requires ExecFrom(p, lastIndex) == Some(m)
    requires t == Token(p[lastIndex..m.index], m.name, m.mod)
    requires repeat == (m.mod == "+" || m.mod == "*") && optional == (m.mod == "?" || m.mod == "*")
    requires prefix == (optional && m.index > 0 && p[m.index - 1] == '/')
    requires lastIndex <= m.index - (if prefix then 1 else 0) && prev == p[lastIndex..m.index - (if prefix then 1 else 0)]
    ensures EscapeRx(prev) + RxForSegment(repeat, optional, prefix) == TokenSource(t)
  {
    PrefixStep(p, lastIndex, m, t);
    assert repeat == Repeats(t) && optional == IsOptional(t) && prefix == Prefixed(t);
    assert prev == KeptLiteral(t);
  }

  /** One turn of the loop: appending the key and the token's expression keeps `LoopState`. */
  lemma LoopStep(p: string, lastIndex: nat, done: seq<Token>, keys: seq<string>, result: string,
                 m: Exec, repeat: bool, optional: bool, prefix: bool, prev: string)
    returns (t: Token)
    requires LoopState(p, lastIndex, done, keys, result)
    requires ExecFrom(p, lastIndex) == Some(m)
    requires repeat == (m.mod == "+" || m.mod == "*") && optional == (m.mod == "?" || m.mod == "*")
    requires prefix == (optional && m.index > 0 && p[m.index - 1] == '/')
    requires lastIndex <= m.index - (if prefix then 1 else 0) && prev == p[lastIndex..m.index - (if prefix then 1 else 0)]
    ensures lastIndex < m.lastIndex
    ensures LoopState(p, m.lastIndex, done + [t], keys + [m.name],
                      result + (EscapeRx(prev) + RxForSegment(repeat, optional, prefix)))
  {
    t := Token(p[lastIndex..m.index], m.name, m.mod);
    TokenizeStep(p, lastIndex, m, t);
    assert Tokenize(p, 0).0 == (done + [t]) + Tokenize(p, m.lastIndex).0 by {
      TokensShift(Tokenize(p, 0).0, done, t, Tokenize(p, m.lastIndex).0);
    }
    PieceStep(p, lastIndex, m, t, repeat, optional, prefix, prev);
    TokensGrow(done, t);
  }

  /** When `exec` finds nothing more, the loop has built the whole compiled source. */
  lemma LoopExit(p: string, lastIndex: nat, done: seq<Token>, keys: seq<string>, result: string)
    requires LoopState(p, lastIndex, done, keys, result)
    requires ExecFrom(p, lastIndex).None?
    ensures Compiled(keys, Regexp(ANCHOR_START + (result + EscapeRx(p[lastIndex..])) + ANCHOR_END, true)) == Compile(p)
  {
    assert Tokenize(p, lastIndex) == ([], p[lastIndex..]);
    assert done == Tokenize(p, 0).0;
  }

  /** `urlPatternMatcher(pattern)`: the scanning loop of the source, proved to compile `pattern`. */
  method UrlPatternMatcher(pattern: string) returns (c: Compiled)
    ensures c == Compile(pattern)
  {
    var lastIndex := 0;
    var keys: seq<string> := [];
    var result := "";
    ghost var done: seq<Token> := [];
    var m := ExecFrom(pattern, lastIndex);
    while m.Some?
      invariant LoopState(pattern, lastIndex, done, keys, result)
      invariant m == ExecFrom(pattern, lastIndex)
      decreases |pattern| - lastIndex
    {
      var exec := m.value;
      var segment, mod := exec.name, exec.mod;
      var repeat := mod == "+" || mod == "*";
      var optional := mod == "?" || mod == "*";
      StepBounds(pattern, lastIndex, exec);
      var prefix := optional && exec.index > 0 && pattern[exec.index - 1] == '/';
      var prev := pattern[lastIndex..exec.index - (if prefix then 1 else 0)];
      ghost var t := LoopStep(pattern, lastIndex, done, keys, result, exec, repeat, optional, prefix, prev);
      keys := keys + [segment];
      result := result + (EscapeRx(prev) + RxForSegment(repeat, optional, prefix));
      done := done + [t];
      lastIndex := exec.lastIndex;
      m := ExecFrom(pattern, lastIndex);
    }
    LoopExit(pattern, lastIndex, done, keys, result);
    c := Compiled(keys, Regexp(ANCHOR_START + (result + EscapeRx(pattern[lastIndex..])) + ANCHOR_END, true));
  }

  // ---------------------------------------------------------------- what the tokens say about the pattern

  /** The pattern text a token list stands for: each literal, then `:name` and the modifier. */
  function Rebuild(ts: seq<Token>, tail: string): string {
    if ts == [] then tail
    else ts[0].literal + ([':'] + ts[0].name + ts[0].mod) + Rebuild(ts[1..], tail)
  }

  /** A token as the group expression produces it, with no token start hidden in its literal. */
  predicate WellFormed(t: Token) {
    && |t.name| > 0
    && (forall k :: 0 <= k < |t.name| ==> IsNameChar(t.name[k]))
    && (t.mod == "" || (|t.mod| == 1 && IsModifier(t.mod[0])))
    && (forall i :: 0 <= i < |t.literal| ==> !TokenStartsAt(t.literal, i))
  }

  /** A token start inside a prefix of the text is a token start of the text. */
  lemma TokenStartsInPrefix(p: string, lo: nat, hi: nat, i: nat)
    requires lo <= hi <= |p|
    requires TokenStartsAt(p[lo..hi], i)
    ensures TokenStartsAt(p, lo + i)
  {
    assert p[lo..hi][i] == p[lo + i] && p[lo..hi][i + 1] == p[lo + i + 1];
  }

  /** Tokenizing loses nothing and invents nothing: the tokens and the trailing text spell the scanned text again. */
  lemma {:induction false} TokenizeRebuilds(p: string, from: nat)
    requires from <= |p|
    ensures Rebuild(Tokenize(p, from).0, Tokenize(p, from).1) == p[from..]
    decreases |p| - from
  {
    match ExecFrom(p, from)
    case None =>
    case Some(m) =>
      var t := Token(p[from..m.index], m.name, m.mod);
      TokenizeStep(p, from, m, t);
      TokenizeRebuilds(p, m.lastIndex);
      var rest := Tokenize(p, m.lastIndex);
      assert ([t] + rest.0)[1..] == rest.0;
      assert Rebuild(Tokenize(p, from).0, Tokenize(p, from).1) == t.literal + ([':'] + m.name + m.mod) + Rebuild(rest.0, rest.1);
      TokenSpelled(p, from, m);
  }

  /** The text before a token, the token as `:name` and its modifier, and the text after it spell the text again. */
  lemma TokenSpelled(p: string, from: nat, m: Exec)
    requires from <= m.index < m.lastIndex <= |p| && p[m.index] == ':'
    requires p[m.index + 1..m.lastIndex] == m.name + m.mod
    ensures p[from..m.index] + ([':'] + m.name + m.mod) + p[m.lastIndex..] == p[from..]
  {
    assert p[m.index..m.lastIndex] == [p[m.index]] + p[m.index + 1..m.lastIndex];
    assert p[from..m.index] + p[m.index..m.lastIndex] == p[from..m.lastIndex];
    assert p[from..m.lastIndex] + p[m.lastIndex..] == p[from..];
  }

  /** Every key is a run of name characters with a valid modifier, and no literal text hides a token. */
  lemma {:induction false} TokenizeWellFormed(p: string, from: nat)
    requires from <= |p|
    ensures forall t :: t in Tokenize(p, from).0 ==> WellFormed(t)
    ensures forall i :: 0 <= i < |Tokenize(p, from).1| ==> !TokenStartsAt(Tokenize(p, from).1, i)
    decreases |p| - from
  {
    match ExecFrom(p, from)
    case None =>
      forall i | 0 <= i < |p[from..]| ensures !TokenStartsAt(p[from..], i) {
        if TokenStartsAt(p[from..], i) { TokenStartsInPrefix(p, from, |p|, i); }
      }
    case Some(m) =>
      var t := Token(p[from..m.index], m.name, m.mod);
      TokenizeStep(p, from, m, t);
      TokenizeWellFormed(p, m.lastIndex);
      forall i | 0 <= i < |t.literal| ensures !TokenStartsAt(t.literal, i) {
        if TokenStartsAt(t.literal, i) { TokenStartsInPrefix(p, from, m.index, i); }
      }
      assert WellFormed(t);
  }

  /**
   * A token's name is as long as it can be: what follows the name (the
   * modifier, or else the text after the token) does not start with a name
   * character, and a token without a modifier is not followed by one.
   */
  predicate Maximal(t: Token, after: string) {
    && (t.mod + after == [] || !IsNameChar((t.mod + after)[0]))
    && (t.mod == "" ==> after == [] || !IsModifier(after[0]))
  }

  /** Every token takes the longest name the group expression can match, and a modifier whenever one follows it. */
  lemma {:induction false} TokenizeMaximal(p: string, from: nat)
    requires from <= |p|
    ensures var r := Tokenize(p, from);
            forall k :: 0 <= k < |r.0| ==> Maximal(r.0[k], Rebuild(r.0[k + 1..], r.1))
    decreases |p| - from
  {
    match ExecFrom(p, from)
    case None =>
    case Some(m) =>
      var t := Token(p[from..m.index], m.name, m.mod);
      TokenizeStep(p, from, m, t);
      TokenizeMaximal(p, m.lastIndex);
      TokenizeRebuilds(p, m.lastIndex);
      var rest := Tokenize(p, m.lastIndex);
      TokenFollowed(p, m, t);
      MaximalCons(t, rest.0, rest.1);
  }

  /** A token followed by a list in which every token is maximal gives a list in which every token is maximal. */
  lemma MaximalCons(t: Token, ts: seq<Token>, tail: string)
    requires Maximal(t, Rebuild(ts, tail))
    requires forall k :: 0 <= k < |ts| ==> Maximal(ts[k], Rebuild(ts[k + 1..], tail))
    ensures var us := [t] + ts;
            forall k :: 0 <= k < |us| ==> Maximal(us[k], Rebuild(us[k + 1..], tail))
  {
    var us := [t] + ts;
    forall k | 0 <= k < |us| ensures Maximal(us[k], Rebuild(us[k + 1..], tail)) {
      if k == 0 {
        assert us[1..] == ts;
      } else {
        assert us[k] == ts[k - 1] && us[k + 1..] == ts[k..];
      }
    }
  }

  /** The text after a match, read from the end of its name, is its modifier and then the rest of the pattern. */
  lemma TokenFollowed(p: string, m: Exec, t: Token)
    requires TokenStartsAt(p, m.index) && m == ExecAt(p, m.index)
    requires t.name == m.name && t.mod == m.mod
    ensures Maximal(t, p[m.lastIndex..])
  {
    var e := m.index + 1 + |m.name|;
    assert p[m.index + 1..m.lastIndex] == m.name + m.mod;
    assert m.lastIndex == e + |m.mod|;
    assert m.mod == p[e..m.lastIndex] by {
      assert p[m.index + 1..m.lastIndex][|m.name|..] == p[e..m.lastIndex];
    }
    assert m.mod + p[m.lastIndex..] == p[e..];
    if e < |p| { assert (m.mod + p[m.lastIndex..])[0] == p[e]; }
  }

  /**
   * The keys are exactly the token names, in the order they appear in the
   * pattern, where the tokens with the text around them spell the pattern and
   * each token takes the longest name and any modifier that follows it.
   */
  lemma CompileKeys(p: string)
    ensures Compile(p).keys == Names(Tokenize(p, 0).0)
    ensures |Compile(p).keys| == |Tokenize(p, 0).0|
    ensures forall k :: k in Compile(p).keys ==> |k| > 0 && forall j :: 0 <= j < |k| ==> IsNameChar(k[j])
    ensures Rebuild(Tokenize(p, 0).0, Tokenize(p, 0).1) == p
    ensures var r := Tokenize(p, 0);
            forall k :: 0 <= k < |r.0| ==> WellFormed(r.0[k]) && Maximal(r.0[k], Rebuild(r.0[k + 1..], r.1))
  {
    TokenizeRebuilds(p, 0);
    assert p[0..] == p;
    TokenizeMaximal(p, 0);
    TokenizeWellFormed(p, 0);
    var ts := Tokenize(p, 0).0;
    forall k | k in Compile(p).keys
      ensures |k| > 0 && forall j :: 0 <= j < |k| ==> IsNameChar(k[j])
    {
      var i :| 0 <= i < |ts| && Names(ts)[i] == k;
      assert ts[i] in ts;
    }
  }

  /** A pattern without tokens compiles to the whole pattern, escaped, between the anchors. */
  lemma CompileWithoutTokens(p: string)
    requires forall i :: !TokenStartsAt(p, i)
    ensures Compile(p).keys == []
    ensures Compile(p).regexp == Regexp(ANCHOR_START + EscapeRx(p) + ANCHOR_END, true)
  {
    assert ExecFrom(p, 0).None?;
    assert Tokenize(p, 0) == ([], p);
    assert TokensSource([]) + EscapeRx(p) == EscapeRx(p);
  }

  // ---------------------------------------------------------------- matching

  /** `out[i + 1]` of a regexp match: the capture of group `i`, undefined when it took no part or is absent. */
  function Capture(out: seq<Option<string>>, i: nat): Option<string> {
    if i < |out| then out[i] else None
  }

  /** `keys.reduce((params, key, i) => { params[key.name] = out[i + 1]; ... }, {})`. */
  function ZipParams(keys: seq<string>, out: seq<Option<string>>): (params: map<string, Option<string>>)
    ensures params.Keys == set k | k in keys
  {
    if keys == [] then map[]
    else ZipParams(keys[..|keys| - 1], out)[keys[|keys| - 1] := Capture(out, |keys| - 1)]
  }

  /** Each name gets the capture of its last occurrence: a later duplicate overwrites an earlier one. */
  lemma {:induction false} ZipParamsLastWins(keys: seq<string>, out: seq<Option<string>>, i: nat)
    requires i < |keys|
    requires forall j :: i < j < |keys| ==> keys[j] != keys[i]
    ensures keys[i] in ZipParams(keys, out) && ZipParams(keys, out)[keys[i]] == Capture(out, i)
  {
    if i < |keys| - 1 {
      var front := keys[..|keys| - 1];
      assert forall j :: i < j < |front| ==> front[j] != front[i];
      ZipParamsLastWins(front, out, i);
    }
  }

  /** The result of one `matchUrl` call against a compiled pattern. */
  datatype MatchOutcome = MatchOutcome(matched: bool, params: Option<map<string, Option<string>>>)

  /** `[false, null]` on no match, otherwise `[true, params]` zipped from the captures. */
  function MatchCompiled(c: Compiled, path: string, exec: (Regexp, string) -> Option<seq<Option<string>>>): (r: MatchOutcome)
    ensures r.matched <==> exec(c.regexp, path).Some?
    ensures r.params.Some? <==> r.matched
    ensures r.matched ==> r.params.value.Keys == set k | k in c.keys
    ensures r.matched ==>
              (forall i :: 0 <= i < |c.keys| && (forall j :: i < j < |c.keys| ==> c.keys[j] != c.keys[i]) ==>
                 r.params.value[c.keys[i]] == Capture(exec(c.regexp, path).value, i))
  {
    match exec(c.regexp, path)
    case None => MatchOutcome(false, None)
    case Some(out) =>
      var params := ZipParams(c.keys, out);
      assert forall i :: 0 <= i < |c.keys| && (forall j :: i < j < |c.keys| ==> c.keys[j] != c.keys[i])
               ==> params[c.keys[i]] == Capture(out, i) by {
        forall i | 0 <= i < |c.keys| && (forall j :: i < j < |c.keys| ==> c.keys[j] != c.keys[i])
          ensures c.keys[i] in params && params[c.keys[i]] == Capture(out, i)
        {
          ZipParamsLastWins(c.keys, out, i);
        }
      }
      MatchOutcome(true, Some(params))
  }

  /** The module-level `cache` of compiled patterns, with a record of every build. */
  class MatchCache {
    var cache: map<string, Compiled>
    ghost var builds: seq<string>

    /** Every cached pattern was built exactly once. */
    ghost predicate Valid()
      reads this
    {
      && (forall q :: q in cache <==> q in builds)
      && (forall i, j :: 0 <= i < j < |builds| ==> builds[i] != builds[j])
    }

    constructor ()
      ensures Valid() && cache == map[] && builds == []
    {
      cache := map[];
      builds := [];
    }

    /**
     * `matchUrl(pattern, path, matchMaker)`: the compiled pattern is taken from the
     * cache, or made and stored on the first call, then matched against `path`.
     */
    method MatchUrl(pattern: string, path: string, maker: string -> Compiled,
                    exec: (Regexp, string) -> Option<seq<Option<string>>>) returns (r: MatchOutcome)
      requires Valid()
      modifies this
      ensures Valid()
      ensures pattern in old(cache) ==> cache == old(cache) && builds == old(builds)
      ensures pattern !in old(cache) ==> cache == old(cache)[pattern := maker(pattern)] && builds == old(builds) + [pattern]
      ensures r == MatchCompiled(cache[pattern], path, exec)
    {
      if pattern !in cache {
        cache := cache[pattern := maker(pattern)];
        builds := builds + [pattern];
      }
      r := MatchCompiled(cache[pattern], path, exec);
    }
  }
}
