/** String helpers the handler relies on: ECMAScript's `trim`, `Array.prototype.join`
    and the decimal rendering of a number inside a template string. */
module Text {

  /** The characters `String.prototype.trim` removes: ECMAScript's WhiteSpace
      (tab, vertical tab, form feed, the byte order mark and every space separator)
      and LineTerminator (line feed, carriage return, line and paragraph separator). */
  predicate IsSpace(c: char) {
    || c == '\t' || c == '\U{000B}' || c == '\U{000C}' || c == ' ' || c == '\U{00A0}'
    || c == '\U{FEFF}' || c == '\U{1680}' || ('\U{2000}' <= c <= '\U{200A}')
    || c == '\U{202F}' || c == '\U{205F}' || c == '\U{3000}'
    || c == '\n' || c == '\r' || c == '\U{2028}' || c == '\U{2029}'
  }

  predicate AllSpace(s: string) {
    forall i :: 0 <= i < |s| ==> IsSpace(s[i])
  }

  /** Neither end of `s` is a space: `s` is its own trim. */
  predicate IsTrimmed(s: string) {
    s == [] || (!IsSpace(s[0]) && !IsSpace(s[|s| - 1]))
  }

  /** How many spaces `s` starts with. */
  function LeadingSpaces(s: string): (k: nat)
    ensures k <= |s|
    ensures forall i :: 0 <= i < k ==> IsSpace(s[i])
    ensures k < |s| ==> !IsSpace(s[k])
  {
    if s != [] && IsSpace(s[0]) then 1 + LeadingSpaces(s[1..]) else 0
  }

  /** How many spaces `s` ends with. */
  function TrailingSpaces(s: string): (k: nat)
    ensures k <= |s|
    ensures forall i :: |s| - k <= i < |s| ==> IsSpace(s[i])
    ensures k < |s| ==> !IsSpace(s[|s| - 1 - k])
  {
    if s != [] && IsSpace(s[|s| - 1]) then 1 + TrailingSpaces(s[..|s| - 1]) else 0
  }

  /** `String.prototype.trim`: the leading and the trailing spaces are dropped. The
      result has no space at either end, and it is empty exactly when `s` is nothing
      but spaces. */
  function Trim(s: string): (r: string)
    ensures IsTrimmed(r)
    ensures |r| <= |s|
    ensures r == [] <==> AllSpace(s)
  {
    var a := LeadingSpaces(s);
    if a == |s| then [] else s[a..|s| - TrailingSpaces(s)]
  }

  /** `Trim` takes away exactly the surrounding spaces: `s` is spaces, then `Trim(s)`,
      then spaces. */
  lemma TrimSplits(s: string)
    ensures var a := LeadingSpaces(s);
      && a + |Trim(s)| <= |s|
      && s == s[..a] + Trim(s) + s[a + |Trim(s)|..]
      && AllSpace(s[..a]) && AllSpace(s[a + |Trim(s)|..])
  {
    var a := LeadingSpaces(s);
    var b := TrimmedEnd(s);
    LeadingPrefix(s, a);
    TrailingSuffix(s, b);
    SplitThree(s, a, b);
  }

  lemma SplitThree(s: string, a: nat, b: nat)
    requires a <= b <= |s|
    ensures s == s[..a] + s[a..b] + s[b..]
  {
  }

  /** Where `Trim(s)` ends inside `s`. */
  lemma TrimmedEnd(s: string) returns (b: nat)
    ensures LeadingSpaces(s) <= b <= |s| && Trim(s) == s[LeadingSpaces(s)..b]
    ensures b == LeadingSpaces(s) + |Trim(s)|
    ensures forall i :: b <= i < |s| ==> IsSpace(s[i])
  {
    var a := LeadingSpaces(s);
    b := if a == |s| then a else |s| - TrailingSpaces(s);
  }

  lemma LeadingPrefix(s: string, a: nat)
    requires a <= |s| && forall i :: 0 <= i < a ==> IsSpace(s[i])
    ensures AllSpace(s[..a])
  {
    forall i | 0 <= i < a ensures IsSpace(s[..a][i]) {
      assert s[..a][i] == s[i];
    }
  }

  lemma TrailingSuffix(s: string, b: nat)
    requires b <= |s| && forall i :: b <= i < |s| ==> IsSpace(s[i])
    ensures AllSpace(s[b..])
  {
    forall i | 0 <= i < |s| - b ensures IsSpace(s[b..][i]) {
      assert s[b..][i] == s[b + i];
    }
  }

  /** The converse of `TrimSplits`: whatever trimmed text is padded with spaces on
      either side, `Trim` gives it back. */
  lemma TrimOfPadded(p: string, r: string, q: string)
    requires AllSpace(p) && AllSpace(q) && IsTrimmed(r)
    ensures Trim(p + r + q) == r
  {
    var s := p + r + q;
    ConcatThree(p, r, q);
    if r == [] {
      forall i | 0 <= i < |s| ensures IsSpace(s[i]) {
        if i >= |p| { assert s[i] == q[i - |p|]; }
      }
    } else {
      assert s[|p|] == r[0];
      assert LeadingSpaces(s) == |p|;
      forall i | |s| - |q| <= i < |s| ensures IsSpace(s[i]) {
        assert s[i] == q[i - |p| - |r|];
      }
      assert s[|s| - 1 - |q|] == r[|r| - 1];
      assert TrailingSpaces(s) == |q|;
    }
  }

  /** Where the parts of `p + r + q` sit. */
  lemma ConcatThree(p: string, r: string, q: string)
    ensures |p + r + q| == |p| + |r| + |q|
    ensures forall i :: 0 <= i < |p| ==> (p + r + q)[i] == p[i]
    ensures forall i :: 0 <= i < |r| ==> (p + r + q)[|p| + i] == r[i]
    ensures forall i :: 0 <= i < |q| ==> (p + r + q)[|p| + |r| + i] == q[i]
    ensures (p + r + q)[|p|..|p| + |r|] == r
  {
  }

  /** Trimming twice is trimming once. */
  lemma TrimIdempotent(s: string)
    ensures Trim(Trim(s)) == Trim(s)
  {
    var r := Trim(s);
    assert [] + r + [] == r;
    TrimOfPadded([], r, []);
  }

  /** A text is its own trim exactly when neither end is a space. */
  lemma TrimFixedPoint(s: string)
    ensures Trim(s) == s <==> IsTrimmed(s)
  {
    if IsTrimmed(s) {
      assert [] + s + [] == s;
      TrimOfPadded([], s, []);
    }
  }

  /** `Array.prototype.join(sep)` over strings. */
  function Join(parts: seq<string>, sep: string): (r: string)
    ensures parts == [] ==> r == ""
    ensures |parts| == 1 ==> r == parts[0]
    ensures parts != [] ==> |r| >= |parts[0]| && r[..|parts[0]|] == parts[0]
  {
    if parts == [] then ""
    else if |parts| == 1 then parts[0]
    else parts[0] + sep + Join(parts[1..], sep)
  }

  /** Joining one more part puts the separator between the parts joined so far and it. */
  lemma {:induction false} JoinSnoc(parts: seq<string>, p: string, sep: string)
    requires parts != []
    ensures Join(parts + [p], sep) == Join(parts, sep) + sep + p
    decreases |parts|
  {
    var longer := parts + [p];
    assert longer[0] == parts[0] && longer[1..] == parts[1..] + [p];
    if |parts| > 1 {
      JoinSnoc(parts[1..], p, sep);
    }
  }

  /** Joining strings none of which is empty gives the empty string exactly when
      there is nothing to join. */
  lemma JoinEmptyIff(parts: seq<string>, sep: string)
    requires forall i :: 0 <= i < |parts| ==> parts[i] != ""
    ensures Join(parts, sep) == "" <==> parts == []
  {
    if parts != [] {
      assert |Join(parts, sep)| >= |parts[0]| > 0;
    }
  }

  function Digit(d: nat): (c: char)
    requires d < 10
    ensures '0' <= c <= '9' && (c as int) - ('0' as int) == d
  {
    "0123456789"[d]
  }

  predicate IsDigits(s: string) {
    forall i :: 0 <= i < |s| ==> '0' <= s[i] <= '9'
  }

  /** The decimal text a JavaScript template string gives for a non-negative integer:
      digits only, and a leading zero only for zero itself. */
  function Decimal(n: nat): (r: string)
    ensures r != [] && IsDigits(r)
    ensures r[0] == '0' <==> n == 0
  {
    if n < 10 then [Digit(n)] else Decimal(n / 10) + [Digit(n % 10)]
  }

  /** The number a string of decimal digits denotes. */
  function DecimalValue(s: string): nat
    requires IsDigits(s)
  {
    if s == [] then 0
    else DecimalValue(s[..|s| - 1]) * 10 + ((s[|s| - 1] as int) - ('0' as int))
  }

  /** Reading back the decimal text of `n` gives `n`. */
  lemma {:induction false} DecimalRoundTrip(n: nat)
    ensures DecimalValue(Decimal(n)) == n
  {
    var r := Decimal(n);
    if n >= 10 {
      DecimalRoundTrip(n / 10);
      assert r[..|r| - 1] == Decimal(n / 10);
    }
  }

  /** Distinct numbers have distinct decimal texts. */
  lemma DecimalInjective(m: nat, n: nat)
    requires Decimal(m) == Decimal(n)
    ensures m == n
  {
    DecimalRoundTrip(m);
    DecimalRoundTrip(n);
  }
}
