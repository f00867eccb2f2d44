/** The input sanitisation of the `/api/track` handler: the `numbers` field of the request
    body becomes the list of tracking numbers to look up (server.js:102-109). */
module Sanitization {
  import opened Text

  /** The request body's `numbers` field: absent, present but not an array, or an array
      of values already coerced to strings. */
  datatype NumbersField = Absent | NotAnArray | Array(items: seq<string>)

  /** `Array.isArray(numbers) ? numbers : []`. */
  function Raw(f: NumbersField): (r: seq<string>)
    ensures f.Array? ==> r == f.items
    ensures !f.Array? ==> r == []
  {
    if f.Array? then f.items else []
  }

  /** `.map((x) => String(x).trim())`. */
  function TrimAll(xs: seq<string>): (r: seq<string>)
    ensures |r| == |xs|
    ensures forall i :: 0 <= i < |xs| ==> r[i] == Trim(xs[i])
  {
    seq(|xs|, i requires 0 <= i < |xs| => Trim(xs[i]))
  }

  /** `.filter(Boolean)` on strings: keeps the non-empty ones, in order. */
  function DropEmpty(xs: seq<string>): (r: seq<string>)
    ensures |r| <= |xs|
    ensures forall x :: x in r <==> x in xs && x != ""
  {
    if xs == [] then []
    else if xs[0] == "" then DropEmpty(xs[1..])
    else [xs[0]] + DropEmpty(xs[1..])
  }

  /** The trimmed, non-empty inputs in input order, before duplicates are removed. */
  function Candidates(raw: seq<string>): (r: seq<string>)
    ensures forall x :: x in r ==> x != "" && IsTrimmed(x)
  {
    var xs := TrimAll(raw);
    assert forall x :: x in xs ==> IsTrimmed(x) by {
      forall x | x in xs ensures IsTrimmed(x) {
        var k :| 0 <= k < |xs| && xs[k] == x;
      }
    }
    DropEmpty(xs)
  }

  /** `.map(...)` works element by element: it maps a concatenation part by part. */
  lemma TrimAllConcat(a: seq<string>, b: seq<string>)
    ensures TrimAll(a + b) == TrimAll(a) + TrimAll(b)
  {
    var l, r := TrimAll(a + b), TrimAll(a) + TrimAll(b);
    forall i | 0 <= i < |l| ensures l[i] == r[i] {
      if i < |a| {
        assert (a + b)[i] == a[i] && r[i] == TrimAll(a)[i];
      } else {
        assert (a + b)[i] == b[i - |a|] && r[i] == TrimAll(b)[i - |a|];
      }
    }
    assert |l| == |r|;
  }

  /** `.filter(Boolean)` keeps the order and the repetitions of what it keeps: it filters
      a concatenation part by part. */
  lemma {:induction false} DropEmptyConcat(a: seq<string>, b: seq<string>)
    ensures DropEmpty(a + b) == DropEmpty(a) + DropEmpty(b)
    decreases |a|
  {
    if a == [] {
      assert a + b == b;
    } else {
      assert (a + b)[0] == a[0] && (a + b)[1..] == a[1..] + b;
      DropEmptyConcat(a[1..], b);
    }
  }

  /** The candidates of a concatenation are those of its two parts, in order. */
  lemma CandidatesConcat(a: seq<string>, b: seq<string>)
    ensures Candidates(a + b) == Candidates(a) + Candidates(b)
  {
    TrimAllConcat(a, b);
    DropEmptyConcat(TrimAll(a), TrimAll(b));
  }

  function Elements<T>(s: seq<T>): set<T> {
    set x | x in s
  }

  predicate NoDuplicates<T(==)>(s: seq<T>) {
    forall i, j :: 0 <= i < j < |s| ==> s[i] != s[j]
  }

  /** The position of the first occurrence of `x` in `s`. */
  function FirstIndex<T(==)>(s: seq<T>, x: T): (k: nat)
    requires x in s
    ensures k < |s| && s[k] == x && x !in s[..k]
  {
    if s[0] == x then 0 else 1 + FirstIndex(s[1..], x)
  }

  /** Every element of `r` occurs in `s`, and `r` lists them in the order in which
      they first occur in `s`. */
  predicate FirstOccurrenceOrder<T(==)>(r: seq<T>, s: seq<T>) {
    && (forall i :: 0 <= i < |r| ==> r[i] in s)
    && (forall i, j :: 0 <= i < j < |r| ==> FirstIndex(s, r[i]) < FirstIndex(s, r[j]))
  }

  lemma {:induction false} FirstIndexAppend<T>(s: seq<T>, x: T, y: T)
    requires y in s
    ensures y in s + [x] && FirstIndex(s + [x], y) == FirstIndex(s, y)
  {
    if s[0] != y {
      assert (s + [x])[1..] == s[1..] + [x];
      FirstIndexAppend(s[1..], x, y);
    }
  }

  /** `[...new Set(xs)]`: a `Set` adds each value it has not seen yet at its end, and
      spreading it gives its values back in that order. */
  function Dedup<T(==)>(s: seq<T>): seq<T> {
    if s == [] then []
    else
      var d := Dedup(s[..|s| - 1]);
      if s[|s| - 1] in d then d else d + [s[|s| - 1]]
  }

  /** What `Dedup` promises: no value twice, exactly the values of `s`, as many as `s` has
      distinct values, and in the order of their first occurrence in `s`. */
  lemma {:induction false} DedupSpec<T>(s: seq<T>)
    ensures NoDuplicates(Dedup(s))
    ensures forall x :: x in Dedup(s) <==> x in s
    ensures |Dedup(s)| == |Elements(s)|
    ensures FirstOccurrenceOrder(Dedup(s), s)
  {
    if s != [] {
      var init, x := s[..|s| - 1], s[|s| - 1];
      DedupSpec(init);
      DedupStep(init, x, Dedup(init), Dedup(s));
      assert s == init + [x];
    }
  }

  /** Adding `x` to a `Set` already holding `init`'s values keeps the promises of `Dedup`. */
  lemma DedupStep<T>(init: seq<T>, x: T, d: seq<T>, r: seq<T>)
    requires NoDuplicates(d) && (forall y :: y in d <==> y in init)
    requires |d| == |Elements(init)| && FirstOccurrenceOrder(d, init)
    requires r == if x in d then d else d + [x]
    ensures NoDuplicates(r) && (forall y :: y in r <==> y in init + [x])
    ensures |r| == |Elements(init + [x])| && FirstOccurrenceOrder(r, init + [x])
  {
    assert Elements(init + [x]) == Elements(init) + {x};
    OrderAppendKnown(init, x, d);
    if x !in d {
      OrderAppendNew(init, x, d);
      assert x !in Elements(init);
    }
  }

  /** Appending to `s` does not move the first occurrence of anything already in it. */
  lemma OrderAppendKnown<T>(init: seq<T>, x: T, d: seq<T>)
    requires FirstOccurrenceOrder(d, init)
    ensures FirstOccurrenceOrder(d, init + [x])
  {
    forall i | 0 <= i < |d| ensures d[i] in init + [x] && FirstIndex(init + [x], d[i]) == FirstIndex(init, d[i]) {
      FirstIndexAppend(init, x, d[i]);
    }
  }

  /** A value new to `init` first occurs after everything already listed. */
  lemma OrderAppendNew<T>(init: seq<T>, x: T, d: seq<T>)
    requires FirstOccurrenceOrder(d, init) && x !in init
    ensures FirstOccurrenceOrder(d + [x], init + [x])
  {
    var s, r := init + [x], d + [x];
    OrderAppendKnown(init, x, d);
    assert FirstIndex(s, x) == |init|;
    forall i, j | 0 <= i < j < |r| ensures FirstIndex(s, r[i]) < FirstIndex(s, r[j]) {
      if j == |d| {
        assert r[i] == d[i] && r[j] == x;
      } else {
        assert r[i] == d[i] && r[j] == d[j];
      }
    }
  }

  /** The handler's `numbers`: each trimmed, none empty, none twice, in the order of
      first occurrence among the trimmed non-empty inputs, and as many as there are
      distinct such inputs. Anything that is not an array gives the empty list. */
  function Sanitize(f: NumbersField): (r: seq<string>)
    ensures forall i :: 0 <= i < |r| ==> r[i] != "" && IsTrimmed(r[i])
    ensures NoDuplicates(r)
    ensures forall x :: x in r <==> x in Candidates(Raw(f))
    ensures |r| == |Elements(Candidates(Raw(f)))|
    ensures FirstOccurrenceOrder(r, Candidates(Raw(f)))
    ensures !f.Array? ==> r == []
  {
    var r := Dedup(Candidates(Raw(f)));
    DedupSpec(Candidates(Raw(f)));
    assert forall i :: 0 <= i < |r| ==> r[i] in Candidates(Raw(f));
    r
  }

  /** Something occurs among the sanitised numbers exactly when it is the trim of some
      input and not empty. */
  lemma SanitizeElements(f: NumbersField, x: string)
    ensures x in Sanitize(f) <==> x != "" && exists i :: 0 <= i < |Raw(f)| && Trim(Raw(f)[i]) == x
  {
    var xs := TrimAll(Raw(f));
    if x in Sanitize(f) {
      assert x in xs;
      var k :| 0 <= k < |xs| && xs[k] == x;
      assert Trim(Raw(f)[k]) == x;
    }
    if x != "" && exists i :: 0 <= i < |Raw(f)| && Trim(Raw(f)[i]) == x {
      var i :| 0 <= i < |Raw(f)| && Trim(Raw(f)[i]) == x;
      assert xs[i] == x;
    }
  }

  /** Removing duplicates from a list that has none changes nothing. */
  lemma {:induction false} DedupOfDistinct<T>(s: seq<T>)
    requires NoDuplicates(s)
    ensures Dedup(s) == s
  {
    if s != [] {
      var init, x := s[..|s| - 1], s[|s| - 1];
      DropLast(s);
      DedupOfDistinct(init);
      assert x !in Dedup(init);
      assert s == init + [x];
    }
  }

  /** Dropping the last element of a list without duplicates removes exactly that
      value and keeps the other promises. */
  lemma DropLast<T>(a: seq<T>)
    requires a != [] && NoDuplicates(a)
    ensures NoDuplicates(a[..|a| - 1])
    ensures forall z :: z in a[..|a| - 1] <==> z in a && z != a[|a| - 1]
  {
    var a' := a[..|a| - 1];
    assert a == a' + [a[|a| - 1]];
    forall z | z in a' ensures z != a[|a| - 1] {
      var k :| 0 <= k < |a'| && a'[k] == z;
      assert a[k] == z;
    }
  }

  lemma OrderPrefix<T>(a: seq<T>, s: seq<T>, n: nat)
    requires FirstOccurrenceOrder(a, s) && n <= |a|
    ensures FirstOccurrenceOrder(a[..n], s)
  {
    assert forall i :: 0 <= i < n ==> a[..n][i] == a[i];
  }

  /** Two lists without duplicates that hold the same elements in first-occurrence
      order of the same `s` are the same list: the three properties `Dedup` promises
      determine its result. */
  lemma {:induction false} FirstOccurrenceOrderUnique<T>(s: seq<T>, a: seq<T>, b: seq<T>)
    requires NoDuplicates(a) && NoDuplicates(b)
    requires forall x :: x in a <==> x in b
    requires FirstOccurrenceOrder(a, s) && FirstOccurrenceOrder(b, s)
    ensures a == b
    decreases |a| + |b|
  {
    assert a == [] <==> b == [] by {
      if a != [] { assert a[0] in b; }
      if b != [] { assert b[0] in a; }
    }
    if a != [] {
      var x, y := a[|a| - 1], b[|b| - 1];
      var a', b' := a[..|a| - 1], b[..|b| - 1];
      // Each list ends with the value whose first occurrence in `s` is the latest.
      if x != y {
        LastIsLatest(a, s, y);
        LastIsLatest(b, s, x);
      }
      DropLast(a);
      DropLast(b);
      OrderPrefix(a, s, |a| - 1);
      OrderPrefix(b, s, |b| - 1);
      forall z ensures z in a' <==> z in b' {
        assert z in a <==> z in b;
      }
      FirstOccurrenceOrderUnique(s, a', b');
      assert a == a' + [x] && b == b' + [y];
    }
  }

  lemma LastIsLatest<T>(a: seq<T>, s: seq<T>, z: T)
    requires a != [] && FirstOccurrenceOrder(a, s) && z in a && z != a[|a| - 1]
    ensures z in s && FirstIndex(s, z) < FirstIndex(s, a[|a| - 1])
  {
    var k :| 0 <= k < |a| && a[k] == z;
  }

  /** When the trimmed non-empty inputs hold no duplicate, sanitising keeps them all,
      in input order. */
  lemma SanitizeWithoutDuplicates(items: seq<string>)
    requires NoDuplicates(Candidates(items))
    ensures Sanitize(Array(items)) == Candidates(items)
  {
    DedupOfDistinct(Candidates(items));
  }

  /** Sanitising an already sanitised list gives it back unchanged. */
  lemma SanitizeIdempotent(f: NumbersField)
    ensures Sanitize(Array(Sanitize(f))) == Sanitize(f)
  {
    var r := Sanitize(f);
    forall i | 0 <= i < |r| ensures Trim(r[i]) == r[i] {
      TrimFixedPoint(r[i]);
    }
    assert TrimAll(r) == r;
    DropEmptyOfNonEmpty(r);
    DedupOfDistinct(r);
    assert Sanitize(Array(r)) == Dedup(Candidates(r));
  }

  /** A number repeated with surrounding spaces is the same number: `[a, " " + a + " ", b]`
      gives `[a, b]`. */
  lemma DuplicateAfterTrim(a: string, b: string)
    requires a != "" && b != "" && a != b && IsTrimmed(a) && IsTrimmed(b)
    ensures Sanitize(Array([a, " " + a + " ", b])) == [a, b]
  {
    var raw := [a, " " + a + " ", b];
    CandidatesOfRepeat(a, b);
    DedupOfRepeat(a, b);
    assert Sanitize(Array(raw)) == Dedup(Candidates(raw));
  }

  lemma CandidatesOfRepeat(a: string, b: string)
    requires a != "" && b != "" && IsTrimmed(a) && IsTrimmed(b)
    ensures Candidates([a, " " + a + " ", b]) == [a, a, b]
  {
    TrimAllOfRepeat(a, b);
    DropEmptyOfNonEmpty([a, a, b]);
  }

  lemma TrimAllOfRepeat(a: string, b: string)
    requires IsTrimmed(a) && IsTrimmed(b)
    ensures TrimAll([a, " " + a + " ", b]) == [a, a, b]
  {
    TrimFixedPoint(a);
    TrimFixedPoint(b);
    PaddedOnce(a);
  }

  lemma PaddedOnce(a: string)
    requires IsTrimmed(a)
    ensures Trim(" " + a + " ") == a
  {
    assert AllSpace(" ");
    TrimOfPadded(" ", a, " ");
  }

  /** `.filter(Boolean)` keeps a list with no empty string as it is. */
  lemma {:induction false} DropEmptyOfNonEmpty(xs: seq<string>)
    requires forall i :: 0 <= i < |xs| ==> xs[i] != ""
    ensures DropEmpty(xs) == xs
  {
    if xs != [] {
      DropEmptyOfNonEmpty(xs[1..]);
      assert xs == [xs[0]] + xs[1..];
    }
  }

  lemma DedupOfRepeat(a: string, b: string)
    requires a != b
    ensures Dedup([a, a, b]) == [a, b]
  {
    var c := [a, a, b];
    assert c[..1] == [a];
    assert Dedup(c[..1]) == [a];
    assert c[..2][..1] == [a];
    assert Dedup(c[..2]) == [a];
  }

  /** `["123", " 123 ", "456"]` gives `["123", "456"]`. */
  lemma DuplicateAfterTrimExample()
    ensures Sanitize(Array(["123", " 123 ", "456"])) == ["123", "456"]
  {
    assert " " + "123" + " " == " 123 ";
    DuplicateAfterTrim("123", "456");
  }

  /** Blank entries vanish: `["", s, a]` with `s` all spaces gives `[a]`. */
  lemma BlankEntries(s: string, a: string)
    requires AllSpace(s) && a != "" && IsTrimmed(a)
    ensures Sanitize(Array(["", s, a])) == [a]
  {
    var raw := ["", s, a];
    TrimFixedPoint(a);
    var c := TrimAll(raw);
    assert c == ["", "", a];
    assert DropEmpty(c[2..]) == [a];
    assert DropEmpty(c[1..]) == [a];
    assert DropEmpty(c) == [a];
    assert Dedup([a]) == [a];
  }

  /** `["", "  ", "789"]` gives `["789"]`. */
  lemma BlankEntriesExample()
    ensures Sanitize(Array(["", "  ", "789"])) == ["789"]
  {
    BlankEntries("  ", "789");
  }
}
