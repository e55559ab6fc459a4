/**
 * The few PHP runtime behaviours the plugin's core leans on: trim(), the
 * truthiness test empty(), the (string) cast, and the values json_decode
 * produces when asked for associative arrays.
 */
module Php {

  datatype Option<T> = None | Some(value: T)

  datatype Result<T, E> = Ok(value: T) | Err(error: E)

  /** The characters PHP's trim() strips by default: space, tab, newline,
      carriage return, NUL and vertical tab. */
  predicate IsTrimChar(c: char) {
    c == ' ' || c == '\t' || c == '\n' || c == '\r' || c == '\0' || c == '\U{0B}'
  }

  predicate AllTrimChars(s: string) {
    forall k :: 0 <= k < |s| ==> IsTrimChar(s[k])
  }

  /** ltrim(): drops the leading trim characters, nothing else. */
  function TrimLeft(s: string): (r: string)
    ensures |r| <= |s| && r == s[|s| - |r|..]
    ensures AllTrimChars(s[..|s| - |r|])
    ensures r != [] ==> !IsTrimChar(r[0])
  {
    if s == [] || !IsTrimChar(s[0]) then s
    else
      var r := TrimLeft(s[1..]);
      assert s[..|s| - |r|] == [s[0]] + s[1..][..|s[1..]| - |r|];
      r
  }

  /** rtrim(): drops the trailing trim characters, nothing else. */
  function TrimRight(s: string): (r: string)
    ensures |r| <= |s| && r == s[..|r|]
    ensures AllTrimChars(s[|r|..])
    ensures r != [] ==> !IsTrimChar(r[|r| - 1])
  {
    if s == [] || !IsTrimChar(s[|s| - 1]) then s
    else
      var r := TrimRight(s[..|s| - 1]);
      assert s[|r|..] == s[..|s| - 1][|r|..] + [s[|s| - 1]];
      r
  }

  /** trim(): a run of s with only trim characters cut from either end. */
  function Trim(s: string): (r: string)
    ensures |r| <= |s|
    ensures r != [] ==> !IsTrimChar(r[0]) && !IsTrimChar(r[|r| - 1])
    ensures r == [] <==> AllTrimChars(s)
    ensures TrimmedFrom(s, r)
  {
    TrimFacts(s);
    TrimRight(TrimLeft(s))
  }

  lemma {:induction false} TrimFacts(s: string)
    ensures var r := TrimRight(TrimLeft(s));
      && |r| <= |s|
      && (r != [] ==> !IsTrimChar(r[0]) && !IsTrimChar(r[|r| - 1]))
      && (r == [] <==> AllTrimChars(s))
      && TrimmedFrom(s, r)
  {
    var l := TrimLeft(s);
    CutEnds(s, l, TrimRight(l));
  }

  /** r is a run of s with only trim characters cut from either end. */
  predicate TrimmedFrom(s: string, r: string) {
    exists a, b :: 0 <= a <= b <= |s| && r == s[a..b] && AllTrimChars(s[..a]) && AllTrimChars(s[b..])
  }

  /** Cutting the trim characters from the front, then from the back: the
      run left over is empty exactly when s was all trim characters. */
  lemma {:induction false} CutEnds(s: string, l: string, r: string)
    requires |l| <= |s| && l == s[|s| - |l|..] && AllTrimChars(s[..|s| - |l|])
    requires l != [] ==> !IsTrimChar(l[0])
    requires |r| <= |l| && r == l[..|r|] && AllTrimChars(l[|r|..])
    ensures TrimmedFrom(s, r)
    ensures r != [] ==> r[0] == l[0]
    ensures r == [] <==> AllTrimChars(s)
  {
    var a := |s| - |l|;
    var b := a + |r|;
    SliceOfSuffix(s, a, |r|);
    assert r == s[a..b];
    assert AllTrimChars(s[b..]);
    if r == [] {
      assert l == [];
      forall k | 0 <= k < |s| ensures IsTrimChar(s[k]) {
        assert s[k] == s[..a][k];
      }
    } else {
      assert r[0] == l[0] == s[a];
    }
  }

  lemma {:induction false} SliceOfSuffix(s: string, a: nat, n: nat)
    requires a + n <= |s|
    ensures s[a..][..n] == s[a..a + n] && s[a..][n..] == s[a + n..]
  {
  }

  /** A string PHP's empty() treats as false: "" and "0". */
  predicate EmptyString(s: string) {
    s == "" || s == "0"
  }

  /** ASCII decimal text of a natural number, as PHP prints integers. */
  function NatText(n: nat): (r: string)
    ensures 1 <= |r|
    ensures n < 10 <==> |r| == 1
    ensures forall k :: 0 <= k < |r| ==> '0' <= r[k] <= '9'
  {
    if n < 10 then [('0' as int + n) as char]
    else NatText(n / 10) + [('0' as int + n % 10) as char]
  }

  function IntText(i: int): (r: string)
  {
    if i < 0 then "-" + NatText(-i) else NatText(i)
  }

  /** Different naturals print differently. */
  lemma {:induction false} NatTextInjective(a: nat, b: nat)
    requires NatText(a) == NatText(b)
    ensures a == b
  {
    if a >= 10 && b >= 10 {
      var ta, tb := NatText(a), NatText(b);
      assert ta[..|ta| - 1] == NatText(a / 10);
      assert tb[..|tb| - 1] == NatText(b / 10);
      NatTextInjective(a / 10, b / 10);
      assert ta[|ta| - 1] == tb[|tb| - 1];
    }
  }

  /** Different integers print differently: a key built from an id names
      that id alone. */
  lemma IntTextInjective(a: int, b: int)
    requires IntText(a) == IntText(b)
    ensures a == b
  {
    if a < 0 || b < 0 {
      assert IntText(a)[0] == '-' && IntText(b)[0] == '-';
      assert a < 0 && b < 0;
      assert IntText(a)[1..] == NatText(-a);
      assert IntText(b)[1..] == NatText(-b);
      NatTextInjective(-a, -b);
    } else {
      NatTextInjective(a, b);
    }
  }

  /** Only zero prints as "0", and no integer prints as "". */
  lemma IntTextEmptyOnlyForZero(i: int)
    ensures EmptyString(IntText(i)) <==> i == 0
  {
    if i < 0 {
      assert IntText(i)[0] == '-';
    } else if 0 < i < 10 {
      assert IntText(i) == [('0' as int + i) as char];
    }
  }

  /**
   * A value as json_decode($text, true) returns it. JSON objects and lists
   * both become PHP arrays; JMap keeps the keys in document order (a PHP
   * array never repeats a key, so neither does a decoded JMap). Anything
   * the decoder rejects comes back as JNull. Floats are not modelled.
   */
  datatype Json =
    | JNull
    | JBool(b: bool)
    | JInt(i: int)
    | JStr(s: string)
    | JList(items: seq<Json>)
    | JMap(fields: seq<(string, Json)>)

  /** is_array() */
  predicate IsArray(v: Json) {
    v.JList? || v.JMap?
  }

  /** empty(): null, false, 0, "", "0" and the empty array. */
  predicate Empty(v: Json) {
    match v
    case JNull => true
    case JBool(b) => !b
    case JInt(i) => i == 0
    case JStr(s) => EmptyString(s)
    case JList(items) => items == []
    case JMap(fields) => fields == []
  }

  function Lookup(fields: seq<(string, Json)>, key: string): (r: Json)
    ensures r != JNull ==> exists k :: 0 <= k < |fields| && fields[k] == (key, r)
  {
    if fields == [] then JNull
    else if fields[0].0 == key then fields[0].1
    else Lookup(fields[1..], key)
  }

  /** $v[$key] read inside empty(): a missing key, or a value that is not
      an array with string keys, reads as null. */
  function Get(v: Json, key: string): Json {
    if v.JMap? then Lookup(v.fields, key) else JNull
  }

  /** The values foreach visits, in order. */
  function Values(v: Json): (r: seq<Json>)
    requires IsArray(v)
    ensures v.JList? ==> r == v.items
    ensures v.JMap? ==> |r| == |v.fields| && forall k :: 0 <= k < |r| ==> r[k] == v.fields[k].1
  {
    if v.JList? then v.items else seq(|v.fields|, k requires 0 <= k < |v.fields| => v.fields[k].1)
  }

  /** An array that foreach visits at least once. */
  lemma NonEmptyArrayHasValues(v: Json)
    requires IsArray(v) && !Empty(v)
    ensures |Values(v)| > 0
  {
  }

  /** The (string) cast. */
  function ToPhpString(v: Json): string {
    match v
    case JNull => ""
    case JBool(b) => if b then "1" else ""
    case JInt(i) => IntText(i)
    case JStr(s) => s
    case JList(_) => "Array"
    case JMap(_) => "Array"
  }

  /** The only values whose (string) cast is "" or "0" are the ones empty()
      already rejects. */
  lemma CastOfNonEmpty(v: Json)
    requires !Empty(v)
    ensures !EmptyString(ToPhpString(v))
  {
    if v.JInt? {
      IntTextEmptyOnlyForZero(v.i);
    }
  }
}
