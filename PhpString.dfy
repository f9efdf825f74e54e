/**
 * The few PHP string primitives the plugin relies on, written out so that their
 * edge cases are explicit: truthiness (`empty()`, `!`), `trim()`, the ASCII
 * `strtolower()`, the PCRE classes `\W` and `\s`, `strpos(...) === 0`,
 * `strstr($s, '/', true)` and the `(string)` cast of a scalar.
 */
module PhpString {
  import opened Wrappers

  /** PHP truthiness of a string: `''` and `'0'` are the only falsy strings. */
  predicate Truthy(s: string) {
    s != "" && s != "0"
  }

  /** The characters `trim()` strips by default: space, tab, LF, CR, NUL and vertical tab. */
  predicate IsTrimChar(c: char) {
    c == ' ' || c == '\t' || c == '\n' || c == '\r' || c == '\0' || c == '\U{B}'
  }

  /** `ltrim()`: drops the longest prefix of trim characters. */
  function TrimLeft(s: string): string {
    if |s| > 0 && IsTrimChar(s[0]) then TrimLeft(s[1..]) else s
  }

  /** `ltrim()` keeps a suffix, and what it drops is the longest run of trim characters in front. */
  lemma {:induction false} TrimLeftSpec(s: string)
    ensures var r := TrimLeft(s);
            && |r| <= |s| && r == s[|s| - |r|..]
            && (forall k :: 0 <= k < |s| - |r| ==> IsTrimChar(s[k]))
            && (r == [] || !IsTrimChar(r[0]))
  {
    if |s| > 0 && IsTrimChar(s[0]) {
      var t := s[1..];
      TrimLeftSpec(t);
      var r := TrimLeft(t);
      assert TrimLeft(s) == r;
      assert t[|t| - |r|..] == s[|s| - |r|..];
      forall k | 0 <= k < |s| - |r|
        ensures IsTrimChar(s[k])
      {
        if k > 0 {
          assert s[k] == t[k - 1];
        }
      }
    }
  }

  /** `rtrim()`: drops the longest suffix of trim characters. */
  function TrimRight(s: string): string {
    if |s| > 0 && IsTrimChar(s[|s| - 1]) then TrimRight(s[..|s| - 1]) else s
  }

  /** `rtrim()` keeps a prefix, and what it drops is the longest run of trim characters at the end. */
  lemma {:induction false} TrimRightSpec(s: string)
    ensures var r := TrimRight(s);
            && |r| <= |s| && r == s[..|r|]
            && (forall k :: |r| <= k < |s| ==> IsTrimChar(s[k]))
            && (r == [] || !IsTrimChar(r[|r| - 1]))
  {
    if |s| > 0 && IsTrimChar(s[|s| - 1]) {
      var t := s[..|s| - 1];
      TrimRightSpec(t);
      var r := TrimRight(t);
      assert TrimRight(s) == r;
      assert t[..|r|] == s[..|r|];
      forall k | |r| <= k < |s|
        ensures IsTrimChar(s[k])
      {
        if k < |s| - 1 {
          assert s[k] == t[k];
        }
      }
    }
  }

  /** `trim()`. */
  function Trim(s: string): string {
    TrimRight(TrimLeft(s))
  }

  /** A trimmed string neither starts nor ends with a trim character. */
  lemma TrimEnds(s: string)
    ensures var t := Trim(s); t == [] || (!IsTrimChar(t[0]) && !IsTrimChar(t[|t| - 1]))
  {
    var l := TrimLeft(s);
    var t := TrimRight(l);
    TrimLeftSpec(s);
    TrimRightSpec(l);
    if t != [] {
      assert t[0] == l[0];
    }
  }

  /** Trimming twice is trimming once; PHP code that trims a value read back from storage sees what was stored. */
  lemma TrimIdempotent(s: string)
    ensures Trim(Trim(s)) == Trim(s)
  {
    var t := Trim(s);
    TrimEnds(s);
    assert TrimLeft(t) == t by {
      if t != [] { assert !IsTrimChar(t[0]); }
    }
    assert TrimRight(t) == t by {
      if t != [] { assert !IsTrimChar(t[|t| - 1]); }
    }
  }

  /** A string that neither starts nor ends with a trim character is its own trim. */
  lemma TrimNoop(s: string)
    requires s == [] || (!IsTrimChar(s[0]) && !IsTrimChar(s[|s| - 1]))
    ensures Trim(s) == s
  {
    assert TrimLeft(s) == s;
  }

  /** Whole-string truthiness after trimming: whitespace-only input is falsy. */
  lemma TrimOfBlankIsFalsy(s: string)
    requires forall k :: 0 <= k < |s| ==> IsTrimChar(s[k])
    ensures Trim(s) == ""
  {
    TrimLeftSpec(s);
    assert TrimLeft(s) == "";
  }

  function LowerChar(c: char): char {
    if 'A' <= c <= 'Z' then (c as int + 32) as char else c
  }

  function UpperChar(c: char): char {
    if 'a' <= c <= 'z' then (c as int - 32) as char else c
  }

  /** `strtolower()`: ASCII letters only, character by character. */
  function ToLower(s: string): string {
    if s == [] then [] else [LowerChar(s[0])] + ToLower(s[1..])
  }

  /** `strtolower()` keeps the length and lower-cases each character where it stands. */
  lemma {:induction false} ToLowerSpec(s: string)
    ensures |ToLower(s)| == |s|
    ensures forall k :: 0 <= k < |s| ==> ToLower(s)[k] == LowerChar(s[k])
  {
    if s != [] {
      ToLowerSpec(s[1..]);
      var r := ToLower(s);
      assert r == [LowerChar(s[0])] + ToLower(s[1..]);
      forall k | 0 <= k < |s|
        ensures r[k] == LowerChar(s[k])
      {
        if k > 0 {
          assert r[k] == ToLower(s[1..])[k - 1];
          assert s[k] == s[1..][k - 1];
        }
      }
    }
  }

  /** Lower-casing twice is lower-casing once. */
  lemma {:induction false} ToLowerIdempotent(s: string)
    ensures ToLower(ToLower(s)) == ToLower(s)
  {
    if s != [] {
      ToLowerIdempotent(s[1..]);
      var r := ToLower(s);
      assert r[0] == LowerChar(s[0]) && r[1..] == ToLower(s[1..]);
    }
  }

  /** `strcasecmp($a, $b) === 0`: equal after ASCII lower-casing. */
  predicate CaseInsensitiveEqual(a: string, b: string) {
    ToLower(a) == ToLower(b)
  }

  /** A PCRE word character (`\w`, no `/u` flag): ASCII letter, digit or underscore. */
  predicate IsWordChar(c: char) {
    ('a' <= c <= 'z') || ('A' <= c <= 'Z') || ('0' <= c <= '9') || c == '_'
  }

  /** `preg_replace('/\W/', '_', $s)`. */
  function ReplaceNonWord(s: string): string {
    if s == [] then [] else [if IsWordChar(s[0]) then s[0] else '_'] + ReplaceNonWord(s[1..])
  }

  /** Every non-word character becomes `_`, each where it stands. */
  lemma {:induction false} ReplaceNonWordSpec(s: string)
    ensures |ReplaceNonWord(s)| == |s|
    ensures forall k :: 0 <= k < |s| ==> ReplaceNonWord(s)[k] == if IsWordChar(s[k]) then s[k] else '_'
  {
    if s != [] {
      ReplaceNonWordSpec(s[1..]);
      var r := ReplaceNonWord(s);
      forall k | 0 <= k < |s|
        ensures r[k] == if IsWordChar(s[k]) then s[k] else '_'
      {
        if k > 0 {
          assert r[k] == ReplaceNonWord(s[1..])[k - 1];
          assert s[k] == s[1..][k - 1];
        }
      }
    }
  }

  /** A PCRE whitespace character (`\s`): space, tab, LF, vertical tab, form feed, CR. */
  predicate IsSpace(c: char) {
    c == ' ' || c == '\t' || c == '\n' || c == '\U{B}' || c == '\U{C}' || c == '\r'
  }

  /** `preg_replace('/\s+/', '', $s)`: every whitespace character removed. */
  function StripSpace(s: string): (r: string)
    ensures |r| <= |s|
    ensures forall k :: 0 <= k < |r| ==> !IsSpace(r[k])
  {
    if s == [] then []
    else if IsSpace(s[0]) then StripSpace(s[1..])
    else [s[0]] + StripSpace(s[1..])
  }

  lemma {:induction false} StripSpaceAppend(a: string, b: string)
    ensures StripSpace(a + b) == StripSpace(a) + StripSpace(b)
  {
    if a == [] {
      assert a + b == b;
    } else {
      assert (a + b)[0] == a[0];
      assert (a + b)[1..] == a[1..] + b;
      StripSpaceAppend(a[1..], b);
    }
  }

  /** One character is dropped when it is whitespace and kept otherwise; with `StripSpaceAppend` this fixes `StripSpace` completely. */
  lemma StripSpaceOne(c: char)
    ensures StripSpace([c]) == if IsSpace(c) then "" else [c]
  {
    assert [c][1..] == [];
  }

  /** A string without whitespace is its own `StripSpace`. */
  lemma {:induction false} StripSpaceKeepsNonSpace(s: string)
    requires forall k :: 0 <= k < |s| ==> !IsSpace(s[k])
    ensures StripSpace(s) == s
  {
    if s != [] {
      assert !IsSpace(s[0]);
      StripSpaceKeepsNonSpace(s[1..]);
    }
  }

  /** Padding a template with whitespace never changes what `StripSpace` compares. */
  lemma {:induction false} StripSpaceIgnoresSpace(s: string)
    requires forall k :: 0 <= k < |s| ==> IsSpace(s[k])
    ensures StripSpace(s) == ""
  {
    if s != [] {
      StripSpaceIgnoresSpace(s[1..]);
    }
  }

  /** `strpos($s, $prefix) === 0`. */
  predicate StartsWith(s: string, prefix: string) {
    |prefix| <= |s| && s[..|prefix|] == prefix
  }

  /** Index of the first occurrence of `c` in `s`, when there is one. */
  function IndexOf(s: string, c: char): (r: Option<nat>)
    ensures r.Some? <==> c in s
    ensures r.Some? ==> r.value < |s| && s[r.value] == c && c !in s[..r.value]
  {
    if s == [] then None
    else if s[0] == c then Some(0)
    else match IndexOf(s[1..], c)
      case None => None
      case Some(i) => Some(i + 1)
  }

  /** `strstr($s, $c, true)`: the part before the first `c`, or `false` (None) when `c` does not occur. */
  function Before(s: string, c: char): (r: Option<string>)
    ensures r.Some? <==> c in s
    ensures r.Some? ==> c !in r.value && StartsWith(s, r.value + [c])
  {
    match IndexOf(s, c)
    case None => None
    case Some(i) => Some(s[..i])
  }

  /** The PHP scalars an option value can hold. */
  datatype Scalar = Str(s: string) | Int(i: int) | Bool(b: bool) | Null

  function DigitChar(d: int): char
    requires 0 <= d < 10
  {
    "0123456789"[d]
  }

  /** The number a string of decimal digits stands for, most significant first. */
  function DigitsValue(r: string): nat
    requires forall k :: 0 <= k < |r| ==> '0' <= r[k] <= '9'
  {
    if r == [] then 0 else 10 * DigitsValue(r[..|r| - 1]) + (r[|r| - 1] as int - '0' as int)
  }

  lemma DigitCharValue(d: int)
    requires 0 <= d < 10
    ensures '0' <= DigitChar(d) <= '9' && DigitChar(d) as int - '0' as int == d
  {
    assert "0123456789"[0] == '0' && "0123456789"[1] == '1' && "0123456789"[2] == '2';
    assert "0123456789"[3] == '3' && "0123456789"[4] == '4' && "0123456789"[5] == '5';
    assert "0123456789"[6] == '6' && "0123456789"[7] == '7' && "0123456789"[8] == '8';
    assert "0123456789"[9] == '9';
  }

  /** Decimal digits of a natural number, most significant first, no leading zero, standing for `n`. */
  function NatString(n: nat): (r: string)
    ensures |r| >= 1 && (n >= 10 ==> |r| >= 2)
    ensures forall k :: 0 <= k < |r| ==> '0' <= r[k] <= '9'
    ensures r[0] == '0' <==> n == 0
    ensures DigitsValue(r) == n
  {
    DigitCharValue(n % 10);
    if n < 10 then
      var r := [DigitChar(n)];
      assert r[..0] == [];
      r
    else
      var p := NatString(n / 10);
      var r := p + [DigitChar(n % 10)];
      assert r[..|r| - 1] == p;
      r
  }

  /** `strval()` / `(string)` of a scalar: `true` is `'1'`, `false` and `null` are `''`. */
  function Strval(v: Scalar): string {
    match v
    case Str(s) => s
    case Int(i) => if i < 0 then "-" + NatString(-i) else NatString(i)
    case Bool(b) => if b then "1" else ""
    case Null => ""
  }

  /** Casting a scalar to a string keeps its PHP truthiness. */
  lemma StrvalKeepsTruthiness(v: Scalar)
    ensures v.Int? ==> (Truthy(Strval(v)) <==> v.i != 0)
    ensures v.Bool? ==> (Truthy(Strval(v)) <==> v.b)
    ensures v.Null? ==> !Truthy(Strval(v))
  {
    if v.Int? && v.i >= 10 {
      assert |Strval(v)| >= 2;
    }
  }
}
