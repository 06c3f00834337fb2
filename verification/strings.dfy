/** Option, in the usual shape. */
module Wrappers {
  datatype Option<+T> = None | Some(value: T) {
    function GetOr(default: T): T {
      match this
      case Some(v) => v
      case None => default
    }
  }
}

/**
  Text operations with the meaning Python gives them: `str.strip`,
  `str.split` on one character, `str.join`, `str.replace`, `str(int)`
  and `int(str)`. Strings are sequences of Unicode scalar values.
 */
module Strings {
  import opened Wrappers

  /** Python's `str.isspace()` for one character. `str.strip()` and the
      regular-expression class `\s` use exactly this set. */
  predicate IsSpace(c: char) {
    c == ' ' || '\t' <= c <= '\r' || '\U{1C}' <= c <= '\U{1F}'
    || c == '\U{85}' || c == '\U{A0}' || c == '\U{1680}'
    || '\U{2000}' <= c <= '\U{200A}' || c == '\U{2028}' || c == '\U{2029}'
    || c == '\U{202F}' || c == '\U{205F}' || c == '\U{3000}'
  }

  /** The regular-expression class `\d`, restricted to ASCII digits. */
  predicate IsDigit(c: char) {
    '0' <= c <= '9'
  }

  /** Removes leading white space. */
  function TrimStart(s: string): (r: string)
    ensures |r| <= |s|
  {
    if s != [] && IsSpace(s[0]) then TrimStart(s[1..]) else s
  }

  lemma {:induction false} TrimStartFacts(s: string)
    ensures var r := TrimStart(s);
      && r == s[|s| - |r|..]
      && (r == [] || !IsSpace(r[0]))
      && forall i :: 0 <= i < |s| - |r| ==> IsSpace(s[i])
  {
    if s != [] && IsSpace(s[0]) {
      TrimStartFacts(s[1..]);
    }
  }

  /** Removes trailing white space. */
  function TrimEnd(s: string): (r: string)
    ensures |r| <= |s|
  {
    if s != [] && IsSpace(s[|s| - 1]) then TrimEnd(s[..|s| - 1]) else s
  }

  lemma {:induction false} TrimEndFacts(s: string)
    ensures var r := TrimEnd(s);
      && r == s[..|r|]
      && (r == [] || !IsSpace(r[|r| - 1]))
      && forall i :: |r| <= i < |s| ==> IsSpace(s[i])
  {
    if s != [] && IsSpace(s[|s| - 1]) {
      TrimEndFacts(s[..|s| - 1]);
    }
  }

  /** Python's `s.strip()`: the result has no white space at either end. */
  function Strip(s: string): (r: string)
    ensures |r| <= |s|
  {
    TrimEnd(TrimStart(s))
  }

  /** What `Strip` leaves: no white space at either end, and nothing exactly
      when the text is white space only. */
  lemma StripFacts(s: string)
    ensures var r := Strip(s);
      && (r == [] || (!IsSpace(r[0]) && !IsSpace(r[|r| - 1])))
      && (r == [] <==> forall i :: 0 <= i < |s| ==> IsSpace(s[i]))
  {
    var t := TrimStart(s);
    var r := TrimEnd(t);
    TrimStartFacts(s);
    TrimEndFacts(t);
    assert r != [] ==> r[0] == t[0];
    if r == [] {
      assert t == [];
    } else {
      assert !IsSpace(s[|s| - |t|]);
    }
  }

  /** A string that has no white space at either end is its own strip. */
  lemma StripOfStripped(s: string)
    requires s == [] || (!IsSpace(s[0]) && !IsSpace(s[|s| - 1]))
    ensures Strip(s) == s
  {
  }

  /** Python's `s.split(sep)` for a one-character separator. */
  function SplitChar(s: string, sep: char): (parts: seq<string>)
    ensures |parts| >= 1
    ensures forall k :: 0 <= k < |parts| ==> sep !in parts[k]
  {
    if s == [] then [[]]
    else
      var rest := SplitChar(s[1..], sep);
      if s[0] == sep then [[]] + rest else [[s[0]] + rest[0]] + rest[1..]
  }

  /** Python's `sep.join(parts)`. */
  function Join(parts: seq<string>, sep: string): string {
    if |parts| == 0 then []
    else if |parts| == 1 then parts[0]
    else parts[0] + sep + Join(parts[1..], sep)
  }

  lemma JoinCons(p: string, parts: seq<string>, sep: string)
    requires |parts| >= 1
    ensures Join([p] + parts, sep) == p + sep + Join(parts, sep)
  {
    assert ([p] + parts)[1..] == parts;
  }

  /** Splitting a joined list on a separator that no part contains gives
      the list back. */
  lemma {:induction false} SplitJoin(parts: seq<string>, sep: char)
    requires |parts| >= 1
    requires forall k :: 0 <= k < |parts| ==> sep !in parts[k]
    ensures SplitChar(Join(parts, [sep]), sep) == parts
  {
    if |parts| == 1 {
      SplitNoSep(parts[0], sep);
    } else {
      SplitJoin(parts[1..], sep);
      SplitPrefix(parts[0], Join(parts[1..], [sep]), sep);
      assert [parts[0]] + parts[1..] == parts;
    }
  }

  lemma {:induction false} SplitNoSep(s: string, sep: char)
    requires sep !in s
    ensures SplitChar(s, sep) == [s]
  {
    if s != [] {
      SplitNoSep(s[1..], sep);
      assert [s[0]] + s[1..] == s;
    }
  }

  /** Splitting `p + sep + t`, where `p` holds no separator, puts `p` first. */
  lemma {:induction false} SplitPrefix(p: string, t: string, sep: char)
    requires sep !in p
    ensures SplitChar(p + [sep] + t, sep) == [p] + SplitChar(t, sep)
  {
    if p == [] {
      assert p + [sep] + t == [sep] + t;
      assert ([sep] + t)[1..] == t;
    } else {
      var s := p + [sep] + t;
      assert s[0] == p[0] && s[1..] == p[1..] + [sep] + t;
      SplitPrefix(p[1..], t, sep);
      assert [p[0]] + p[1..] == p;
    }
  }

  /** Whether `o` occurs in `s` at position `i`. */
  predicate OccursAt(s: string, o: string, i: int) {
    0 <= i && i + |o| <= |s| && s[i..i + |o|] == o
  }

  /** Python's `o in s`. */
  predicate Occurs(s: string, o: string) {
    exists i | 0 <= i <= |s| - |o| :: OccursAt(s, o, i)
  }

  /** Python's `s.split(o)` for a non-empty `o`: cut at every occurrence,
      scanning left to right without overlap. */
  function SplitOn(s: string, o: string): (parts: seq<string>)
    requires o != []
    ensures |parts| >= 1
    decreases |s|
  {
    if |s| < |o| then [s]
    else if s[..|o|] == o then [[]] + SplitOn(s[|o|..], o)
    else
      var rest := SplitOn(s[1..], o);
      [[s[0]] + rest[0]] + rest[1..]
  }

  /** Python's `s.replace(o, n)`. An empty `o` inserts `n` before every
      character and at the end, as Python does. */
  function Replace(s: string, o: string, n: string): string {
    if o == [] then Interleave(s, n) else Join(SplitOn(s, o), n)
  }

  function Interleave(s: string, n: string): string {
    if s == [] then n else n + [s[0]] + Interleave(s[1..], n)
  }

  /** Joining the pieces of a split with the pattern restores the text. */
  lemma {:induction false} SplitOnJoin(s: string, o: string)
    requires o != []
    ensures Join(SplitOn(s, o), o) == s
    decreases |s|
  {
    if |s| < |o| {
      assert SplitOn(s, o) == [s];
    } else if s[..|o|] == o {
      var rest := SplitOn(s[|o|..], o);
      assert SplitOn(s, o) == [[]] + rest;
      SplitOnJoin(s[|o|..], o);
      JoinCons([], rest, o);
      assert s == s[..|o|] + s[|o|..];
    } else {
      var rest := SplitOn(s[1..], o);
      assert SplitOn(s, o) == [[s[0]] + rest[0]] + rest[1..];
      SplitOnJoin(s[1..], o);
      JoinHeadChar(s[0], rest, o);
      assert [s[0]] + s[1..] == s;
    }
  }

  lemma JoinHeadChar(c: char, rest: seq<string>, sep: string)
    requires |rest| >= 1
    ensures Join([[c] + rest[0]] + rest[1..], sep) == [c] + Join(rest, sep)
  {
    var parts := [[c] + rest[0]] + rest[1..];
    if |rest| > 1 {
      assert parts[1..] == rest[1..];
    }
  }

  lemma {:induction false} InterleaveEmpty(s: string)
    ensures Interleave(s, []) == s
  {
    if s != [] {
      InterleaveEmpty(s[1..]);
      assert [s[0]] + s[1..] == s;
    }
  }

  /** Replacing a term by itself leaves every text unchanged. */
  lemma ReplaceBySelf(s: string, o: string)
    ensures Replace(s, o, o) == s
  {
    if o == [] { InterleaveEmpty(s); } else { SplitOnJoin(s, o); }
  }

  /** A non-empty term that does not occur in the text leaves it unchanged. */
  lemma {:induction false} ReplaceAbsent(s: string, o: string, n: string)
    requires o != [] && !Occurs(s, o)
    ensures Replace(s, o, n) == s
  {
    SplitOnAbsent(s, o);
  }

  lemma {:induction false} SplitOnAbsent(s: string, o: string)
    requires o != [] && !Occurs(s, o)
    ensures SplitOn(s, o) == [s]
    decreases |s|
  {
    if |s| >= |o| {
      assert !OccursAt(s, o, 0);
      assert !Occurs(s[1..], o) by {
        forall i | OccursAt(s[1..], o, i) ensures false {
          assert s[1..][i..i + |o|] == s[i + 1..i + 1 + |o|];
          assert OccursAt(s, o, i + 1);
        }
      }
      SplitOnAbsent(s[1..], o);
      assert [s[0]] + s[1..] == s;
    }
  }

  // ---- integers as text ----

  function DigitChar(d: nat): char
    requires d < 10
  {
    ['0', '1', '2', '3', '4', '5', '6', '7', '8', '9'][d]
  }

  function DigitValue(c: char): nat
    requires IsDigit(c)
  {
    (c as int) - ('0' as int)
  }

  /** Python's `str(n)` for a natural number: the shortest decimal form. */
  function NatToString(n: nat): (r: string)
    ensures r != []
    ensures forall i :: 0 <= i < |r| ==> IsDigit(r[i])
  {
    if n < 10 then [DigitChar(n)] else NatToString(n / 10) + [DigitChar(n % 10)]
  }

  /** Python's `str(i)` for any integer. */
  function IntToString(i: int): (r: string)
    ensures r != [] && r[|r| - 1] != '-' && !IsSpace(r[0])
    ensures forall k :: 0 <= k < |r| ==> r[k] == '-' || IsDigit(r[k])
  {
    if i < 0 then "-" + NatToString(-i) else NatToString(i)
  }

  /** The value of a non-empty string of decimal digits. */
  function DigitsValue(s: string): nat
    requires forall i :: 0 <= i < |s| ==> IsDigit(s[i])
  {
    if s == [] then 0 else DigitsValue(s[..|s| - 1]) * 10 + DigitValue(s[|s| - 1])
  }

  predicate AllDigits(s: string) {
    s != [] && forall i :: 0 <= i < |s| ==> IsDigit(s[i])
  }

  /** Python's `int(s)` on ASCII input: white space around an optional sign
      and at least one digit; anything else raises `ValueError` (`None`). */
  function ParseInt(s: string): Option<int> {
    ParseSigned(Strip(s))
  }

  /** An optional sign followed by at least one digit, nothing else. */
  function ParseSigned(t: string): Option<int> {
    if t != [] && (t[0] == '-' || t[0] == '+') && AllDigits(t[1..]) then
      var v: int := DigitsValue(t[1..]);
      Some(if t[0] == '-' then -v else v)
    else if AllDigits(t) then Some(DigitsValue(t))
    else None
  }

  lemma {:induction false} DigitsOfNat(n: nat)
    ensures DigitsValue(NatToString(n)) == n
  {
    if n >= 10 {
      DigitsOfNat(n / 10);
      var s := NatToString(n);
      assert s[..|s| - 1] == NatToString(n / 10);
    }
  }

  lemma ParseNatString(n: nat)
    ensures ParseInt(IntToString(n)) == Some(n)
  {
    var s := NatToString(n);
    assert IntToString(n) == s;
    StripOfStripped(s);
    DigitsOfNat(n);
    assert IsDigit(s[0]);
    assert AllDigits(s);
  }

  lemma SignedNegativeDigits(d: string)
    requires d != [] && forall i :: 0 <= i < |d| ==> IsDigit(d[i])
    ensures ParseSigned("-" + d) == Some(-(DigitsValue(d) as int))
  {
    var s := "-" + d;
    assert s[1..] == d;
  }

  lemma StripSignedDigits(d: string)
    requires d != [] && forall i :: 0 <= i < |d| ==> IsDigit(d[i])
    ensures Strip("-" + d) == "-" + d
  {
    var s := "-" + d;
    assert s[|s| - 1] == d[|d| - 1];
    StripOfStripped(s);
  }

  lemma ParseStripped(s: string)
    requires Strip(s) == s
    ensures ParseInt(s) == ParseSigned(s)
  {
  }

  lemma ParseNegativeString(n: nat)
    requires n > 0
    ensures ParseInt(IntToString(-(n as int))) == Some(-(n as int))
  {
    var d := NatToString(n);
    assert IntToString(-(n as int)) == "-" + d;
    assert ParseSigned("-" + d) == Some(-(n as int)) by {
      DigitsOfNat(n);
      SignedNegativeDigits(d);
    }
    assert ParseInt("-" + d) == ParseSigned("-" + d) by {
      StripSignedDigits(d);
      ParseStripped("-" + d);
    }
  }

  /** `int(str(i)) == i`. */
  lemma ParseIntToString(i: int)
    ensures ParseInt(IntToString(i)) == Some(i)
  {
    if i < 0 {
      ParseNegativeString(-i);
    } else {
      ParseNatString(i);
    }
  }

  /** Different integers print differently. */
  lemma IntToStringInjective(i: int, j: int)
    requires IntToString(i) == IntToString(j)
    ensures i == j
  {
    ParseIntToString(i);
    ParseIntToString(j);
  }

  function Min(a: int, b: int): int { if a < b then a else b }

  // ---- case ----

  function LowerAscii(c: char): char {
    if 'A' <= c <= 'Z' then ((c as int) + 32) as char else c
  }

  /** Python's `s.lower() == target` for an all-lower-case ASCII target.
      Outside ASCII only the Kelvin sign (to "k") and the dotted capital I (to
      "i" and a combining dot) lower to something holding an ASCII letter, so
      ASCII folding decides this comparison exactly when `target` holds
      neither 'i' nor 'k'. */
  predicate LowerEquals(s: string, target: string) {
    |s| == |target| && forall i :: 0 <= i < |s| ==> LowerAscii(s[i]) == target[i]
  }
}
