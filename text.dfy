/** The string normalisation `safe_encode` applies before looking a value up
    (app.py:78): `str(raw).strip().lower()`, restricted to ASCII. Stripping
    removes every leading and trailing character for which Python's
    `str.isspace()` holds in the ASCII range; lower-casing maps 'A'..'Z' to
    'a'..'z' and leaves every other character alone. */
module Text {

  /** The ASCII characters Python's `str.isspace()` accepts: space, the five
      controls \t \n \v \f \r, and the four separators 0x1C-0x1F. */
  predicate IsSpace(c: char) {
    c == ' ' || 9 <= c as int <= 13 || 28 <= c as int <= 31
  }

  predicate IsUpper(c: char) {
    'A' <= c <= 'Z'
  }

  predicate AllSpace(s: string) {
    forall k :: 0 <= k < |s| ==> IsSpace(s[k])
  }

  function LowerChar(c: char): (l: char)
    ensures !IsUpper(l)
    ensures IsUpper(c) ==> l as int == c as int + 32
    ensures !IsUpper(c) ==> l == c
    ensures IsSpace(l) == IsSpace(c)
  {
    if IsUpper(c) then (c as int + 32) as char else c
  }

  /** Python's `str.lower()` on ASCII. */
  function Lower(s: string): (r: string)
    ensures |r| == |s|
    ensures forall k :: 0 <= k < |s| ==> r[k] == LowerChar(s[k])
  {
    seq(|s|, k requires 0 <= k < |s| => LowerChar(s[k]))
  }

  /** Python's `str.lstrip()`: the longest suffix of `s` that does not start
      with whitespace; everything it drops is whitespace. */
  function TrimLeft(s: string): (r: string)
    ensures |r| <= |s| && r == s[|s| - |r|..]
    ensures AllSpace(s[..|s| - |r|])
    ensures r != [] ==> !IsSpace(r[0])
    ensures r == [] <==> AllSpace(s)
  {
    if |s| > 0 && IsSpace(s[0]) then TrimLeft(s[1..]) else s
  }

  /** Python's `str.rstrip()`: the longest prefix of `s` that does not end
      with whitespace; everything it drops is whitespace. */
  function TrimRight(s: string): (r: string)
    ensures |r| <= |s| && r == s[..|r|]
    ensures AllSpace(s[|r|..])
    ensures r != [] ==> !IsSpace(r[|r| - 1])
    ensures r == [] <==> AllSpace(s)
  {
    if |s| > 0 && IsSpace(s[|s| - 1]) then TrimRight(s[..|s| - 1]) else s
  }

  /** Python's `str.strip()`: nothing it keeps starts or ends with
      whitespace, and it keeps nothing exactly when the value is all
      whitespace. */
  function Strip(s: string): (r: string)
    ensures |r| <= |s|
    ensures r != [] ==> !IsSpace(r[0]) && !IsSpace(r[|r| - 1])
    ensures r == [] <==> AllSpace(s)
  {
    TrimRight(TrimLeft(s))
  }

  /** The normal form `safe_encode` looks up: stripped, then lower-cased. */
  function Normalize(raw: string): (v: string)
    ensures |v| <= |raw|
    ensures v != [] ==> !IsSpace(v[0]) && !IsSpace(v[|v| - 1])
    ensures forall k :: 0 <= k < |v| ==> !IsUpper(v[k])
  {
    var stripped := Strip(raw);
    assert stripped != [] ==> Lower(stripped)[0] == LowerChar(stripped[0])
                              && Lower(stripped)[|stripped| - 1] == LowerChar(stripped[|stripped| - 1]);
    Lower(stripped)
  }

  /** Stripping keeps exactly a contiguous middle part of the input: it
      drops only whitespace around it, and the part it keeps neither starts
      nor ends with whitespace. */
  lemma {:induction false} StripIsMiddle(s: string)
    ensures exists i, j :: 0 <= i <= j <= |s| && Strip(s) == s[i..j]
              && AllSpace(s[..i]) && AllSpace(s[j..])
              && (i < j ==> !IsSpace(s[i]) && !IsSpace(s[j - 1]))
  {
    var i, j := StripBounds(s);
  }

  /** Where the part `strip` keeps begins and ends. */
  lemma {:induction false} StripBounds(s: string) returns (i: nat, j: nat)
    ensures i <= j <= |s| && Strip(s) == s[i..j]
    ensures AllSpace(s[..i]) && AllSpace(s[j..])
    ensures i < j ==> !IsSpace(s[i]) && !IsSpace(s[j - 1])
  {
    var l := TrimLeft(s);
    var m := TrimRight(l);
    i, j := Middle(s, l, m);
  }

  /** A prefix `m` of a suffix `l` of `s` is a slice of `s`; what lies around
      it in `s` is what lies around it in `l` and around `l` in `s`. */
  lemma Middle(s: string, l: string, m: string) returns (i: nat, j: nat)
    requires |l| <= |s| && l == s[|s| - |l|..] && AllSpace(s[..|s| - |l|])
    requires |m| <= |l| && m == l[..|m|] && AllSpace(l[|m|..])
    requires m != [] ==> !IsSpace(m[0]) && !IsSpace(m[|m| - 1])
    ensures i == |s| - |l| && j == i + |m| && j <= |s| && m == s[i..j]
    ensures AllSpace(s[..i]) && AllSpace(s[j..])
    ensures i < j ==> !IsSpace(s[i]) && !IsSpace(s[j - 1])
  {
    i := |s| - |l|;
    j := i + |m|;
    assert s[j..] == l[|m|..];
    if i < j {
      assert s[i] == m[0] && s[j - 1] == m[|m| - 1];
    }
  }

  /** Leading whitespace has no effect on `lstrip`. */
  lemma {:induction false} TrimLeftPadded(w: string, s: string)
    requires AllSpace(w)
    ensures TrimLeft(w + s) == TrimLeft(s)
  {
    if w != [] {
      assert (w + s)[0] == w[0] && IsSpace(w[0]);
      assert (w + s)[1..] == w[1..] + s;
      TrimLeftPadded(w[1..], s);
    } else {
      assert w + s == s;
    }
  }

  /** Trailing whitespace has no effect on `rstrip`. */
  lemma {:induction false} TrimRightPadded(s: string, w: string)
    requires AllSpace(w)
    ensures TrimRight(s + w) == TrimRight(s)
  {
    if w != [] {
      assert (s + w)[|s + w| - 1] == w[|w| - 1] && IsSpace(w[|w| - 1]);
      assert (s + w)[..|s + w| - 1] == s + w[..|w| - 1];
      TrimRightPadded(s, w[..|w| - 1]);
    } else {
      assert s + w == s;
    }
  }

  /** `rstrip` of a string with one more character in front. */
  lemma {:induction false} TrimRightCons(c: char, s: string)
    ensures TrimRight([c] + s)
            == if IsSpace(c) && TrimRight(s) == [] then [] else [c] + TrimRight(s)
  {
    if s != [] && IsSpace(s[|s| - 1]) {
      assert ([c] + s)[..|s|] == [c] + s[..|s| - 1];
      TrimRightCons(c, s[..|s| - 1]);
    }
  }

  /** Stripping the left and the right side commute. */
  lemma {:induction false} TrimsCommute(s: string)
    ensures TrimRight(TrimLeft(s)) == TrimLeft(TrimRight(s))
    decreases |s|
  {
    if s != [] {
      TrimRightCons(s[0], s[1..]);
      assert [s[0]] + s[1..] == s;
      if IsSpace(s[0]) {
        TrimsCommute(s[1..]);
        if TrimRight(s[1..]) != [] {
          assert ([s[0]] + TrimRight(s[1..]))[1..] == TrimRight(s[1..]);
        }
      }
    }
  }

  /** Surrounding whitespace has no effect on `strip`. */
  lemma {:induction false} StripPadded(w1: string, s: string, w2: string)
    requires AllSpace(w1) && AllSpace(w2)
    ensures Strip(w1 + s + w2) == Strip(s)
  {
    assert w1 + s + w2 == w1 + (s + w2);
    TrimLeftPadded(w1, s + w2);
    assert TrimLeft(w1 + s + w2) == TrimLeft(s + w2);
    TrimsCommute(s + w2);
    assert TrimRight(TrimLeft(s + w2)) == TrimLeft(TrimRight(s + w2));
    TrimRightPadded(s, w2);
    assert TrimRight(s + w2) == TrimRight(s);
    TrimsCommute(s);
    assert TrimLeft(TrimRight(s)) == TrimRight(TrimLeft(s));
    assert Strip(w1 + s + w2) == TrimRight(TrimLeft(w1 + s + w2));
    assert Strip(s) == TrimRight(TrimLeft(s));
  }

  /** Lower-casing does not change what `lstrip` removes. */
  lemma {:induction false} LowerTrimLeft(s: string)
    ensures Lower(TrimLeft(s)) == TrimLeft(Lower(s))
  {
    if |s| > 0 && IsSpace(s[0]) {
      assert Lower(s)[1..] == Lower(s[1..]);
      LowerTrimLeft(s[1..]);
    }
  }

  /** Lower-casing does not change what `rstrip` removes. */
  lemma {:induction false} LowerTrimRight(s: string)
    ensures Lower(TrimRight(s)) == TrimRight(Lower(s))
  {
    if |s| > 0 && IsSpace(s[|s| - 1]) {
      assert Lower(s)[..|s| - 1] == Lower(s[..|s| - 1]);
      LowerTrimRight(s[..|s| - 1]);
    }
  }

  /** Normalising is the same as lower-casing first and stripping after. */
  lemma NormalizeLowerFirst(s: string)
    ensures Normalize(s) == Strip(Lower(s))
  {
    LowerTrimLeft(s);
    LowerTrimRight(TrimLeft(s));
  }

  /** Values that differ only in upper/lower case normalise to the same
      string. */
  lemma NormalizeIgnoresCase(s: string, t: string)
    requires Lower(s) == Lower(t)
    ensures Normalize(s) == Normalize(t)
  {
    NormalizeLowerFirst(s);
    NormalizeLowerFirst(t);
  }

  /** Values that differ only in surrounding whitespace normalise to the same
      string. */
  lemma NormalizeIgnoresPadding(w1: string, s: string, w2: string)
    requires AllSpace(w1) && AllSpace(w2)
    ensures Normalize(w1 + s + w2) == Normalize(s)
  {
    StripPadded(w1, s, w2);
  }

  /** Normalising twice is normalising once. */
  lemma NormalizeIdempotent(s: string)
    ensures Normalize(Normalize(s)) == Normalize(s)
  {
    var v := Normalize(s);
    assert TrimLeft(v) == v;
    assert TrimRight(v) == v;
    assert Lower(v) == v;
  }
}
