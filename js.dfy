/** JavaScript values and the string operations of the JavaScript standard
    library that the site's code relies on: truthiness and `||` chains,
    `trim`, ASCII case folding, `includes`, `startsWith`, `split` on one
    character and the decimal rendering of integers. */
module Js {

  datatype Option<T> = None | Some(value: T)

  /** A JSON-representable scalar as it arrives in a request body or a
      metadata object. Arrays, objects, floating point and NaN are not
      modelled. */
  datatype JsValue = Undefined | Null | Bool(b: bool) | Num(n: int) | Str(s: string)

  /** JavaScript truthiness: `undefined`, `null`, `false`, `0` and `''` are
      falsy, everything else is truthy. */
  predicate Truthy(v: JsValue) {
    match v
    case Undefined => false
    case Null => false
    case Bool(b) => b
    case Num(n) => n != 0
    case Str(s) => s != ""
  }

  /** `a || b`: the first operand if it is truthy, otherwise the second. */
  function Or(a: JsValue, b: JsValue): (r: JsValue)
    ensures Truthy(a) ==> r == a
    ensures !Truthy(a) ==> r == b
  {
    if Truthy(a) then a else b
  }

  /** `a || b || ... || last`: the first truthy value of the chain, or
      `last` when none is. */
  function FirstTruthy(chain: seq<JsValue>, last: JsValue): (r: JsValue)
    ensures r == last || r in chain
    ensures (forall i :: 0 <= i < |chain| ==> !Truthy(chain[i])) ==> r == last
    ensures forall i :: 0 <= i < |chain| && Truthy(chain[i]) ==>
              Truthy(r) && exists j :: 0 <= j <= i && r == chain[j]
  {
    if chain == [] then last
    else if Truthy(chain[0]) then chain[0]
    else FirstTruthy(chain[1..], last)
  }

  /** `v !== undefined && v !== null` */
  predicate IsPresent(v: JsValue) {
    !v.Undefined? && !v.Null?
  }

  /** `v !== undefined && v !== null && v !== ''`: the route's "provided and
      not empty" test. Unlike truthiness, it lets `0` and `false` through. */
  predicate IsProvided(v: JsValue) {
    IsPresent(v) && v != Str("")
  }

  lemma {:induction false} TruthyIsProvided(v: JsValue)
    ensures Truthy(v) ==> IsProvided(v)
    ensures v.Str? ==> (Truthy(v) <==> IsProvided(v))
  {
  }

  /** A string is truthy when it is not empty. */
  predicate NonEmpty(s: string) {
    s != ""
  }

  /** `a || b` on strings. */
  function OrElse(a: string, b: string): (r: string)
    ensures a != "" ==> r == a
    ensures a == "" ==> r == b
  {
    if a != "" then a else b
  }

  /** JavaScript's WhiteSpace and LineTerminator code points, the set that
      `String.prototype.trim` removes. */
  predicate IsWhitespace(c: char) {
    c == ' ' || c == '\t' || c == '\n' || c == '\r' || c == '\U{B}' || c == '\U{C}'
    || c == '\U{A0}' || c == '\U{1680}' || ('\U{2000}' <= c <= '\U{200A}')
    || c == '\U{2028}' || c == '\U{2029}' || c == '\U{202F}' || c == '\U{205F}'
    || c == '\U{3000}' || c == '\U{FEFF}'
  }

  function TrimStart(s: string): (r: string)
    ensures |r| <= |s| && r == s[|s| - |r|..]
    ensures r == "" || !IsWhitespace(r[0])
    ensures forall i :: 0 <= i < |s| - |r| ==> IsWhitespace(s[i])
  {
    if s != "" && IsWhitespace(s[0]) then TrimStart(s[1..]) else s
  }

  function TrimEnd(s: string): (r: string)
    ensures |r| <= |s| && r == s[..|r|]
    ensures r == "" || !IsWhitespace(r[|r| - 1])
    ensures forall i :: |r| <= i < |s| ==> IsWhitespace(s[i])
  {
    if s != "" && IsWhitespace(s[|s| - 1]) then TrimEnd(s[..|s| - 1]) else s
  }

  /** `s.trim()` */
  function Trim(s: string): (r: string)
    ensures Trimmed(r)
  {
    var t := TrimStart(s);
    var r := TrimEnd(t);
    assert r != "" ==> r[0] == t[0];
    r
  }

  /** What `trim` keeps: a contiguous piece of the input with no whitespace
      at either end, and every character it drops, before or after that
      piece, is whitespace. */
  lemma {:induction false} TrimFacts(s: string)
    ensures exists k: nat ::
              && OccursAt(s, Trim(s), k)
              && (forall i :: 0 <= i < k ==> IsWhitespace(s[i]))
              && (forall i :: k + |Trim(s)| <= i < |s| ==> IsWhitespace(s[i]))
    ensures Trimmed(Trim(s))
    ensures Trim(s) == "" <==> forall i :: 0 <= i < |s| ==> IsWhitespace(s[i])
  {
    var t := TrimStart(s);
    var k := |s| - |t|;
    assert t == s[k..];
    var r := TrimEnd(t);
    assert r == t[..|r|] == s[k..k + |r|];
    assert Trim(s) == r && OccursAt(s, r, k);
    forall i | k + |r| <= i < |s|
      ensures IsWhitespace(s[i])
    {
      assert s[i] == t[i - k];
    }
    if r == "" {
      assert t == "";
    } else {
      assert r[0] == t[0];
      assert !IsWhitespace(s[k]);
    }
  }

  /** Whether `s` has no whitespace at either end. */
  predicate Trimmed(s: string) {
    s == "" || (!IsWhitespace(s[0]) && !IsWhitespace(s[|s| - 1]))
  }

  /** A string with no whitespace at either end is its own trim. */
  lemma TrimOfTrimmed(s: string)
    requires Trimmed(s)
    ensures Trim(s) == s
  {
    assert TrimStart(s) == s;
    assert TrimEnd(s) == s;
  }

  /** Trimming twice is trimming once. */
  lemma TrimIdempotent(s: string)
    ensures Trim(Trim(s)) == Trim(s)
  {
    TrimFacts(s);
    TrimOfTrimmed(Trim(s));
  }

  /** Upper-case ASCII letters to lower case; everything else unchanged. */
  function LowerChar(c: char): char {
    if 'A' <= c <= 'Z' then (c as int + 32) as char else c
  }

  /** Lower-case ASCII letters to upper case; everything else unchanged. */
  function UpperChar(c: char): char {
    if 'a' <= c <= 'z' then (c as int - 32) as char else c
  }

  /** `s.toLowerCase()`, modelled as an ASCII fold. */
  function ToLower(s: string): (r: string)
    ensures |r| == |s| && forall i :: 0 <= i < |s| ==> r[i] == LowerChar(s[i])
  {
    seq(|s|, i requires 0 <= i < |s| => LowerChar(s[i]))
  }

  /** `s.toUpperCase()`, modelled as an ASCII fold. */
  function ToUpper(s: string): (r: string)
    ensures |r| == |s| && forall i :: 0 <= i < |s| ==> r[i] == UpperChar(s[i])
  {
    seq(|s|, i requires 0 <= i < |s| => UpperChar(s[i]))
  }

  lemma ToLowerAppend(a: string, b: string)
    ensures ToLower(a + b) == ToLower(a) + ToLower(b)
  {
  }

  /** Lower-casing commutes with taking a slice. */
  lemma ToLowerSlice(s: string, i: nat, j: nat)
    requires i <= j <= |s|
    ensures ToLower(s[i..j]) == ToLower(s)[i..j]
  {
  }

  /** `s.startsWith(prefix)` */
  predicate StartsWith(s: string, prefix: string) {
    prefix <= s
  }

  /** `s.includes(sub)`: `sub` occurs somewhere in `s` as a contiguous piece. */
  predicate Contains(s: string, sub: string)
    decreases |s|
  {
    sub <= s || (s != "" && Contains(s[1..], sub))
  }

  /** `sub` occurs in `s` starting at position `k`. */
  predicate OccursAt(s: string, sub: string, k: nat) {
    k + |sub| <= |s| && s[k..k + |sub|] == sub
  }

  /** `Contains` means what it says: there is a position where `sub` starts. */
  lemma {:induction false} ContainsIff(s: string, sub: string)
    ensures Contains(s, sub) <==> exists k: nat :: OccursAt(s, sub, k)
    decreases |s|
  {
    if sub <= s {
      assert OccursAt(s, sub, 0);
    } else if s == "" {
    } else {
      ContainsIff(s[1..], sub);
      if exists k: nat :: OccursAt(s[1..], sub, k) {
        var k: nat :| OccursAt(s[1..], sub, k);
        assert s[k + 1..k + 1 + |sub|] == s[1..][k..k + |sub|];
        assert OccursAt(s, sub, k + 1);
      }
      if exists k: nat :: 1 <= k && OccursAt(s, sub, k) {
        var k: nat :| 1 <= k && OccursAt(s, sub, k);
        assert s[1..][k - 1..k - 1 + |sub|] == s[k..k + |sub|];
        assert OccursAt(s[1..], sub, k - 1);
      }
    }
  }

  /** `s.split(sep)` for a one-character separator: the pieces between
      separators, empty pieces included; `"".split(sep)` is `[""]`. */
  function Split(s: string, sep: char): (parts: seq<string>)
    ensures |parts| >= 1
    ensures forall i :: 0 <= i < |parts| ==> sep !in parts[i]
  {
    if s == "" then [""]
    else
      var rest := Split(s[1..], sep);
      if s[0] == sep then [""] + rest
      else [[s[0]] + rest[0]] + rest[1..]
  }

  /** Joining the pieces of a split with the separator gives back the input. */
  function JoinWith(parts: seq<string>, sep: char): string
    requires |parts| >= 1
  {
    if |parts| == 1 then parts[0] else parts[0] + [sep] + JoinWith(parts[1..], sep)
  }

  lemma {:induction false} SplitJoin(s: string, sep: char)
    ensures JoinWith(Split(s, sep), sep) == s
  {
    if s != "" {
      var rest := Split(s[1..], sep);
      SplitJoin(s[1..], sep);
      if s[0] == sep {
        assert Split(s, sep)[1..] == rest;
      } else {
        var parts := Split(s, sep);
        assert parts[1..] == rest[1..];
      }
    }
  }

  /** The first piece of a split is everything before the first separator;
      it is empty exactly when the string starts with the separator. */
  lemma {:induction false} SplitFirst(s: string, sep: char)
    ensures Split(s, sep)[0] <= s
    ensures s != "" && s[0] != sep ==> Split(s, sep)[0] != "" && Split(s, sep)[0][0] == s[0]
  {
    if s != "" {
      SplitFirst(s[1..], sep);
    }
  }

  /** The last piece of a split is everything after the last separator; it
      is empty exactly when the string ends with the separator (or is
      empty), and otherwise starts just after the last separator. */
  lemma {:induction false} SplitLast(s: string, sep: char)
    ensures var parts := Split(s, sep);
      var last := parts[|parts| - 1];
      |last| <= |s| && last == s[|s| - |last|..]
      && (|parts| > 1 ==> |last| < |s|)
      && (|last| < |s| ==> s[|s| - |last| - 1] == sep)
  {
    if s != "" {
      SplitLast(s[1..], sep);
      var rest := Split(s[1..], sep);
      var parts := Split(s, sep);
      var t := s[1..];
      var last := rest[|rest| - 1];
      assert t[|t| - |last|..] == s[|s| - |last|..];
      if s[0] == sep {
        assert parts[|parts| - 1] == last;
        if |last| == |t| {
          assert s[|s| - |last| - 1] == s[0];
        } else {
          assert s[|s| - |last| - 1] == t[|t| - |last| - 1];
        }
      } else if |rest| > 1 {
        assert parts[|parts| - 1] == last;
        assert s[|s| - |last| - 1] == t[|t| - |last| - 1];
      } else {
        SplitCount(t, sep);
        assert sep !in t;
        assert last == t;
        assert parts == [[s[0]] + t];
        assert [s[0]] + t == s;
      }
    }
  }

  /** A split produces at least two pieces exactly when the separator
      occurs in the string. */
  lemma {:induction false} SplitCount(s: string, sep: char)
    ensures |Split(s, sep)| >= 2 <==> sep in s
  {
    if s != "" {
      SplitCount(s[1..], sep);
      assert s == [s[0]] + s[1..];
    }
  }

  function DigitChar(d: nat): char
    requires d < 10
  {
    ('0' as int + d) as char
  }

  /** The decimal rendering of a natural number, as `${n}` gives it. */
  function NatToString(n: nat): (r: string)
    ensures r != "" && forall i :: 0 <= i < |r| ==> '0' <= r[i] <= '9'
    ensures r[0] == '0' ==> n == 0
  {
    if n < 10 then [DigitChar(n)] else NatToString(n / 10) + [DigitChar(n % 10)]
  }

  /** The decimal rendering of an integer, with a leading '-' when negative. */
  function IntToString(n: int): (r: string)
    ensures n >= 0 ==> r == NatToString(n)
    ensures n < 0 ==> r == "-" + NatToString(-n)
  {
    if n >= 0 then NatToString(n) else "-" + NatToString(-n)
  }

  function DigitValue(c: char): int {
    c as int - '0' as int
  }

  /** Reading a string of decimal digits back as a number. */
  function ParseDigits(s: string): int {
    if s == "" then 0 else ParseDigits(s[..|s| - 1]) * 10 + DigitValue(s[|s| - 1])
  }

  /** Reading the rendering back gives the number. */
  lemma {:induction false} ParseNatToString(n: nat)
    ensures ParseDigits(NatToString(n)) == n
  {
    if n < 10 {
      assert NatToString(n)[..0] == "";
    } else {
      var s := NatToString(n);
      assert s[..|s| - 1] == NatToString(n / 10);
      ParseNatToString(n / 10);
    }
  }

  /** Different numbers render differently, so textual ids built from
      counters are unique. */
  lemma NatToStringInjective(a: nat, b: nat)
    requires NatToString(a) == NatToString(b)
    ensures a == b
  {
    ParseNatToString(a);
    ParseNatToString(b);
  }

  /** `seq.join("")` */
  function Concat(parts: seq<string>): string {
    if parts == [] then "" else parts[0] + Concat(parts[1..])
  }

  lemma {:induction false} ConcatAppend(a: seq<string>, b: seq<string>)
    ensures Concat(a + b) == Concat(a) + Concat(b)
  {
    if a != [] {
      assert (a + b)[1..] == a[1..] + b;
      ConcatAppend(a[1..], b);
    } else {
      assert a + b == b;
    }
  }
}
