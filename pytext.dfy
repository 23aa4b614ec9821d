/**
  The Python `str` built-ins that both scripts rely on: whitespace, `in`,
  `startswith`, `find` of a character, `strip()`, `split(sep)`, `split()`,
  `sep.join(parts)` and `str(n)` of a non-negative integer.
  Whitespace is Python's ASCII whitespace only (see README, "Left out").
*/
module PyText {

  /** ASCII whitespace as `str.isspace` sees it: space, \t, \n, \r, \v and \f. */
  predicate IsSpace(c: char) {
    c == ' ' || c == '\t' || c == '\n' || c == '\r' || c == '\U{000B}' || c == '\U{000C}'
  }

  predicate AllSpace(s: string) {
    forall i :: 0 <= i < |s| ==> IsSpace(s[i])
  }

  predicate NoSpace(s: string) {
    forall i :: 0 <= i < |s| ==> !IsSpace(s[i])
  }

  // ---------------------------------------------------------------------------
  // `s.startswith(p)` and `p in s`

  predicate StartsWith(s: string, p: string) {
    |p| <= |s| && s[..|p|] == p
  }

  /** `p in s`, computed as Python does: try every start position from the left. */
  predicate Contains(s: string, p: string)
    decreases |s|
  {
    StartsWith(s, p) || (s != [] && Contains(s[1..], p))
  }

  /** `p` occurs in `s` at position `i`. */
  ghost predicate OccursAt(s: string, p: string, i: int) {
    0 <= i && i + |p| <= |s| && s[i..i + |p|] == p
  }

  /** An occurrence at a known position makes `p in s` true. */
  lemma {:induction false} ContainsAt(s: string, p: string, i: int)
    requires OccursAt(s, p, i)
    ensures Contains(s, p)
    decreases i
  {
    if i > 0 {
      assert s[1..][i - 1..i - 1 + |p|] == s[i..i + |p|];
      ContainsAt(s[1..], p, i - 1);
    }
  }

  /** `p in s` only when `p` occurs at some position of `s`. */
  lemma {:induction false} ContainsWitness(s: string, p: string) returns (i: int)
    requires Contains(s, p)
    ensures OccursAt(s, p, i)
    decreases |s|
  {
    if StartsWith(s, p) {
      i := 0;
    } else {
      var j := ContainsWitness(s[1..], p);
      assert s[j + 1..j + 1 + |p|] == s[1..][j..j + |p|];
      i := j + 1;
    }
  }

  /** `p in s` holds exactly when `p` occurs somewhere in `s`. */
  lemma {:induction false} ContainsIff(s: string, p: string)
    ensures Contains(s, p) <==> exists i :: OccursAt(s, p, i)
  {
    if Contains(s, p) {
      var i := ContainsWitness(s, p);
    }
    if i :| OccursAt(s, p, i) {
      ContainsAt(s, p, i);
    }
  }

  /** `p in a` implies `p in a + b`. */
  lemma {:induction false} ContainsLeft(a: string, b: string, p: string)
    requires Contains(a, p)
    ensures Contains(a + b, p)
  {
    var i := ContainsWitness(a, p);
    assert (a + b)[i..i + |p|] == a[i..i + |p|];
    ContainsAt(a + b, p, i);
  }

  /** `p in b` implies `p in a + b`. */
  lemma {:induction false} ContainsRight(a: string, b: string, p: string)
    requires Contains(b, p)
    ensures Contains(a + b, p)
  {
    var i := ContainsWitness(b, p);
    assert (a + b)[|a| + i..|a| + i + |p|] == b[i..i + |p|];
    ContainsAt(a + b, p, |a| + i);
  }

  /** `p in a + p + b`. */
  lemma {:induction false} ContainsInfix(a: string, p: string, b: string)
    ensures Contains(a + p + b, p)
  {
    assert (a + p + b)[|a|..|a| + |p|] == p;
    ContainsAt(a + p + b, p, |a|);
  }

  /** A string that begins with `p` contains `p`; the converse fails (see the audio check). */
  lemma {:induction false} StartsWithContains(s: string, p: string)
    requires StartsWith(s, p)
    ensures Contains(s, p)
  {
  }

  // ---------------------------------------------------------------------------
  // The first occurrence of a character, and `s.split(c, 1)[1]`

  /** The position of the first `c` in `s`. */
  function IndexOf(s: string, c: char): (i: nat)
    requires c in s
    ensures i < |s| && s[i] == c && c !in s[..i]
  {
    if s[0] == c then 0 else 1 + IndexOf(s[1..], c)
  }

  /** No `c` comes before `IndexOf(s, c)`. */
  lemma {:induction false} IndexOfFirst(s: string, c: char, k: int)
    requires 0 <= k < |s| && s[k] == c
    ensures IndexOf(s, c) <= k
    decreases |s|
  {
    if s[0] != c {
      IndexOfFirst(s[1..], c, k - 1);
    }
  }

  /** The first `c` of `a + b` is that of `a` when `a` holds one, else it is `|a|` plus that of `b`. */
  lemma {:induction false} IndexOfConcat(a: string, b: string, c: char)
    requires c in a + b
    ensures c in a ==> IndexOf(a + b, c) == IndexOf(a, c)
    ensures c !in a ==> c in b && IndexOf(a + b, c) == |a| + IndexOf(b, c)
  {
    var s := a + b;
    var i := IndexOf(s, c);
    if c in a {
      var j := IndexOf(a, c);
      assert s[j] == c;
      IndexOfFirst(s, c, j);
      assert a[i] == s[i];
      IndexOfFirst(a, c, i);
    } else {
      assert forall j :: 0 <= j < |a| ==> s[j] == a[j];
      assert b[i - |a|] == s[i];
      IndexOfFirst(b, c, i - |a|);
      var j := IndexOf(b, c);
      assert s[|a| + j] == b[j];
      IndexOfFirst(s, c, |a| + j);
    }
  }

  /** Python's `s.split(c, 1)[1]`: everything after the first `c`. */
  function AfterFirst(s: string, c: char): (r: string)
    requires c in s
    ensures |r| < |s| && s == s[..|s| - |r| - 1] + [c] + r
    ensures c !in s[..|s| - |r| - 1]
  {
    var i := IndexOf(s, c);
    assert s == s[..i] + [c] + s[i + 1..];
    s[i + 1..]
  }

  // ---------------------------------------------------------------------------
  // `s.strip()`

  /** The number of whitespace characters that start `s`. */
  function LeadingSpace(s: string): (k: nat)
    ensures k <= |s| && AllSpace(s[..k]) && (k == |s| || !IsSpace(s[k]))
  {
    if s == [] || !IsSpace(s[0]) then 0
    else
      var k := 1 + LeadingSpace(s[1..]);
      assert s[..k] == [s[0]] + s[1..][..k - 1];
      k
  }

  /** The number of whitespace characters that end `s`. */
  function TrailingSpace(s: string): (k: nat)
    ensures k <= |s| && AllSpace(s[|s| - k..]) && (k == |s| || !IsSpace(s[|s| - k - 1]))
  {
    if s == [] || !IsSpace(s[|s| - 1]) then 0
    else
      var k := 1 + TrailingSpace(s[..|s| - 1]);
      assert s[|s| - k..] == s[..|s| - 1][|s| - k..] + [s[|s| - 1]];
      k
  }

  /** Python's `s.strip()`. */
  function Strip(s: string): (r: string)
    ensures |r| <= |s|
    ensures r == [] || (!IsSpace(r[0]) && !IsSpace(r[|r| - 1]))
  {
    var t := s[LeadingSpace(s)..];
    t[..|t| - TrailingSpace(t)]
  }

  /** `strip()` removes a whitespace prefix and a whitespace suffix and nothing else. */
  lemma {:induction false} StripParts(s: string) returns (p: string, q: string)
    ensures s == p + Strip(s) + q && AllSpace(p) && AllSpace(q)
  {
    var k := LeadingSpace(s);
    var t := s[k..];
    var n := |t| - TrailingSpace(t);
    p, q := s[..k], t[n..];
    SplitAt(s, k);
    SplitAt(t, n);
    assert Strip(s) == t[..n];
    AppendAssoc(p, t[..n], q);
  }

  lemma {:induction false} SplitAt(s: string, k: int)
    requires 0 <= k <= |s|
    ensures s == s[..k] + s[k..]
  {
  }

  lemma {:induction false} AppendAssoc(a: string, b: string, c: string)
    ensures a + (b + c) == a + b + c
  {
  }

  lemma {:induction false} LeadingSpaceConcat(p: string, m: string)
    requires AllSpace(p) && (m == [] || !IsSpace(m[0]))
    ensures LeadingSpace(p + m) == |p|
    decreases |p|
  {
    if p != [] {
      assert (p + m)[1..] == p[1..] + m;
      LeadingSpaceConcat(p[1..], m);
    } else {
      assert p + m == m;
    }
  }

  lemma {:induction false} TrailingSpaceConcat(m: string, q: string)
    requires AllSpace(q) && (m == [] || !IsSpace(m[|m| - 1]))
    ensures TrailingSpace(m + q) == |q|
    decreases |q|
  {
    if q != [] {
      assert (m + q)[..|m + q| - 1] == m + q[..|q| - 1];
      TrailingSpaceConcat(m, q[..|q| - 1]);
    } else {
      assert m + q == m;
    }
  }

  /** `strip()` is the unique split into whitespace, a core with no whitespace at either end, and whitespace. */
  lemma {:induction false} StripExact(p: string, m: string, q: string)
    requires AllSpace(p) && AllSpace(q)
    requires m == [] || (!IsSpace(m[0]) && !IsSpace(m[|m| - 1]))
    ensures Strip(p + m + q) == m
  {
    var s := p + m + q;
    if m == [] {
      assert s == (p + q) + [];
      LeadingSpaceConcat(p + q, []);
    } else {
      assert s == p + (m + q);
      LeadingSpaceConcat(p, m + q);
      assert s[|p|..] == m + q;
      TrailingSpaceConcat(m, q);
      assert (m + q)[..|m|] == m;
    }
  }

  /** A string with no whitespace at either end is its own `strip()`. */
  lemma {:induction false} StripNoOuterSpace(s: string)
    requires s == [] || (!IsSpace(s[0]) && !IsSpace(s[|s| - 1]))
    ensures Strip(s) == s
  {
    assert [] + s + [] == s;
    StripExact([], s, []);
  }

  /** `s.strip().strip() == s.strip()`. */
  lemma {:induction false} StripIdempotent(s: string)
    ensures Strip(Strip(s)) == Strip(s)
  {
    var m := Strip(s);
    assert [] + m + [] == m;
    StripExact([], m, []);
  }

  /** `s.strip()` is empty exactly when `s` is all whitespace, so `s.strip() or d` picks `d` exactly then. */
  lemma {:induction false} StripEmptyIff(s: string)
    ensures Strip(s) == [] <==> AllSpace(s)
  {
    var p, q := StripParts(s);
    if Strip(s) == [] {
      assert s == p + q;
      forall i | 0 <= i < |s|
        ensures IsSpace(s[i])
      {
        if i < |p| {
          assert s[i] == p[i];
        } else {
          assert s[i] == q[i - |p|];
        }
      }
    } else {
      assert s[|p|] == Strip(s)[0];
    }
  }

  // ---------------------------------------------------------------------------
  // `s.split(c)` for a one-character separator, and `sep.join(parts)`

  /** Python's `s.split(c)`: the pieces between the occurrences of `c`; `"".split(c)` is `[""]`. */
  function SplitOn(s: string, c: char): (parts: seq<string>)
    ensures |parts| >= 1
  {
    if s == [] then [""]
    else
      var rest := SplitOn(s[1..], c);
      if s[0] == c then [""] + rest
      else [[s[0]] + rest[0]] + rest[1..]
  }

  /** Python's `sep.join(parts)`. */
  function Join(parts: seq<string>, sep: string): string {
    if |parts| == 0 then ""
    else if |parts| == 1 then parts[0]
    else parts[0] + sep + Join(parts[1..], sep)
  }

  /** Prepending a character to the first part prepends it to the join. */
  lemma {:induction false} JoinPrepend(x: char, parts: seq<string>, sep: string)
    requires |parts| >= 1
    ensures Join([[x] + parts[0]] + parts[1..], sep) == [x] + Join(parts, sep)
  {
    var ps := [[x] + parts[0]] + parts[1..];
    assert ps[1..] == parts[1..];
    if |parts| > 1 {
      assert [x] + parts[0] + sep + Join(parts[1..], sep) == [x] + (parts[0] + sep + Join(parts[1..], sep));
    }
  }

  /** A string without `c` is its own only piece. */
  lemma {:induction false} SplitOnNoSep(s: string, c: char)
    requires c !in s
    ensures SplitOn(s, c) == [s]
    decreases |s|
  {
    if s != [] {
      assert c !in s[1..];
      SplitOnNoSep(s[1..], c);
      assert [s[0]] + s[1..] == s;
    }
  }

  /** Joining the pieces of `s.split(c)` with `c` gives `s` back. */
  lemma {:induction false} JoinSplitOn(s: string, c: char)
    ensures Join(SplitOn(s, c), [c]) == s
    decreases |s|
  {
    if s != [] {
      var rest := SplitOn(s[1..], c);
      JoinSplitOn(s[1..], c);
      if s[0] == c {
        assert ([""] + rest)[1..] == rest;
        assert Join([""] + rest, [c]) == "" + [c] + Join(rest, [c]);
      } else {
        JoinPrepend(s[0], rest, [c]);
      }
      assert [s[0]] + s[1..] == s;
    }
  }

  /** Splitting at a separator that is known to be there splits both sides independently. */
  lemma {:induction false} SplitOnConcat(a: string, b: string, c: char)
    ensures SplitOn(a + [c] + b, c) == SplitOn(a, c) + SplitOn(b, c)
    decreases |a|
  {
    var s := a + [c] + b;
    if a == [] {
      assert s == [c] + b;
      assert s[1..] == b;
    } else {
      assert s[0] == a[0];
      assert s[1..] == a[1..] + [c] + b;
      SplitOnConcat(a[1..], b, c);
      var ra, rb := SplitOn(a[1..], c), SplitOn(b, c);
      if a[0] == c {
        assert SplitOn(s, c) == [""] + (ra + rb);
      } else {
        GlueFirst(a[0], ra, rb);
      }
    }
  }

  /** Gluing a character onto the first part commutes with appending more parts. */
  lemma {:induction false} GlueFirst(x: char, ra: seq<string>, rb: seq<string>)
    requires |ra| >= 1
    ensures [[x] + (ra + rb)[0]] + (ra + rb)[1..] == ([[x] + ra[0]] + ra[1..]) + rb
  {
    assert (ra + rb)[0] == ra[0];
    assert (ra + rb)[1..] == ra[1..] + rb;
  }

  /** Splitting the join of separator-free parts gives the parts back. */
  lemma {:induction false} SplitOnJoin(parts: seq<string>, c: char)
    requires |parts| >= 1
    requires forall k :: 0 <= k < |parts| ==> c !in parts[k]
    ensures SplitOn(Join(parts, [c]), c) == parts
    decreases |parts|
  {
    if |parts| > 1 {
      var tail := parts[1..];
      SplitOnJoin(tail, c);
      assert Join(parts, [c]) == parts[0] + [c] + Join(tail, [c]);
      SplitOnConcat(parts[0], Join(tail, [c]), c);
      SplitOnNoSep(parts[0], c);
      assert parts == [parts[0]] + tail;
    } else {
      SplitOnNoSep(parts[0], c);
    }
  }

  /** A prefix without `c` is glued to the first piece. */
  lemma {:induction false} SplitOnPrefix(p: string, m: string, c: char)
    requires c !in p
    ensures SplitOn(p + m, c) == [p + SplitOn(m, c)[0]] + SplitOn(m, c)[1..]
    decreases |p|
  {
    var ps := SplitOn(m, c);
    if p == [] {
      assert p + m == m;
      assert p + ps[0] == ps[0];
      assert ps == [ps[0]] + ps[1..];
    } else {
      assert (p + m)[0] == p[0] && p[0] != c;
      assert (p + m)[1..] == p[1..] + m;
      assert c !in p[1..];
      SplitOnPrefix(p[1..], m, c);
      var rest := SplitOn(p[1..] + m, c);
      assert SplitOn(p + m, c) == [[p[0]] + rest[0]] + rest[1..];
      assert rest[0] == p[1..] + ps[0];
      assert rest[1..] == ps[1..];
      assert [p[0]] + (p[1..] + ps[0]) == p + ps[0];
    }
  }

  /** `SplitOn(m, c)` with `q` glued to its last piece. */
  function GlueLast(ps: seq<string>, q: string): seq<string>
    requires |ps| >= 1
  {
    ps[..|ps| - 1] + [ps[|ps| - 1] + q]
  }

  /** A suffix without `c` is glued to the last piece. */
  lemma {:induction false} SplitOnSuffix(m: string, q: string, c: char)
    requires c !in q
    ensures SplitOn(m + q, c) == GlueLast(SplitOn(m, c), q)
    decreases |m|
  {
    if m == [] {
      assert m + q == q;
      SplitOnNoSep(q, c);
    } else {
      assert (m + q)[0] == m[0];
      assert (m + q)[1..] == m[1..] + q;
      SplitOnSuffix(m[1..], q, c);
      if m[0] == c {
        SplitOnSuffixSep(SplitOn(m[1..], c), q);
      } else {
        SplitOnSuffixChar(m[0], SplitOn(m[1..], c), q);
      }
    }
  }

  lemma {:induction false} SplitOnSuffixSep(rs: seq<string>, q: string)
    requires |rs| >= 1
    ensures [""] + GlueLast(rs, q) == GlueLast([""] + rs, q)
  {
    var ps := [""] + rs;
    assert ps[..|ps| - 1] == [""] + rs[..|rs| - 1];
  }

  lemma {:induction false} SplitOnSuffixChar(x: char, rs: seq<string>, q: string)
    requires |rs| >= 1
    ensures var rq := GlueLast(rs, q);
      [[x] + rq[0]] + rq[1..] == GlueLast([[x] + rs[0]] + rs[1..], q)
  {
    var n := |rs|;
    var rq := GlueLast(rs, q);
    var ps := [[x] + rs[0]] + rs[1..];
    if n == 1 {
      assert rq == [rs[0] + q];
      assert [x] + (rs[0] + q) == [x] + rs[0] + q;
    } else {
      assert ps[..|ps| - 1] == [[x] + rs[0]] + rs[1..n - 1];
      assert ps[|ps| - 1] == rs[n - 1];
      assert rq[0] == rs[0];
      assert rq[1..] == rs[1..n - 1] + [rs[n - 1] + q];
    }
  }

  // ---------------------------------------------------------------------------
  // `s.split()` with no argument

  /** The length of the run of non-whitespace characters that starts `s`. */
  function WordLen(s: string): (k: nat)
    ensures k <= |s| && NoSpace(s[..k]) && (k == |s| || IsSpace(s[k]))
  {
    if s == [] || IsSpace(s[0]) then 0
    else
      var k := 1 + WordLen(s[1..]);
      assert s[..k] == [s[0]] + s[1..][..k - 1];
      k
  }

  /** Python's `s.split()`: the maximal runs of non-whitespace characters, in order. */
  function Words(s: string): (ws: seq<string>)
    ensures forall k :: 0 <= k < |ws| ==> ws[k] != [] && NoSpace(ws[k])
    decreases |s|
  {
    if s == [] then []
    else if IsSpace(s[0]) then Words(s[1..])
    else
      var k := WordLen(s);
      [s[..k]] + Words(s[k..])
  }

  /** `s.split()` is empty exactly when `s` is whitespace only. */
  lemma {:induction false} WordsEmptyIff(s: string)
    ensures Words(s) == [] <==> AllSpace(s)
    decreases |s|
  {
    if s != [] && IsSpace(s[0]) {
      WordsEmptyIff(s[1..]);
      assert AllSpace(s) <==> AllSpace(s[1..]) by {
        if AllSpace(s[1..]) {
          forall i | 0 <= i < |s| ensures IsSpace(s[i]) {
            if i > 0 { assert s[i] == s[1..][i - 1]; }
          }
        }
      }
    }
  }

  /** A run with no whitespace is one whole word. */
  lemma {:induction false} WordLenNoSpace(w: string)
    requires NoSpace(w)
    ensures WordLen(w) == |w|
    decreases |w|
  {
    if w != [] {
      WordLenNoSpace(w[1..]);
    }
  }

  /** `(w + rest).split()` starts with the word `w` when `rest` is empty or starts with whitespace. */
  lemma {:induction false} WordsOfWord(w: string, rest: string)
    requires w != [] && NoSpace(w)
    requires rest == [] || IsSpace(rest[0])
    ensures Words(w + rest) == [w] + Words(rest)
  {
    var s := w + rest;
    WordLenNoSpace(w);
    WordLenConcat(w, rest);
    assert s[0] == w[0];
    assert s[..|w|] == w;
    assert s[|w|..] == rest;
  }

  /** Leading whitespace does not change `split()`. */
  lemma {:induction false} WordsSpacePrefix(p: string, s: string)
    requires AllSpace(p)
    ensures Words(p + s) == Words(s)
    decreases |p|
  {
    if p != [] {
      assert (p + s)[1..] == p[1..] + s;
      WordsSpacePrefix(p[1..], s);
    } else {
      assert p + s == s;
    }
  }

  /** A word run is not extended by appending text that starts with whitespace. */
  lemma {:induction false} WordLenConcat(s: string, t: string)
    requires WordLen(s) < |s| || t == [] || IsSpace(t[0])
    ensures WordLen(s + t) == WordLen(s)
    decreases |s|
  {
    if s != [] && !IsSpace(s[0]) {
      assert (s + t)[1..] == s[1..] + t;
      WordLenConcat(s[1..], t);
    } else if s == [] {
      assert s + t == t;
    }
  }

  /** Trailing whitespace does not change `split()`. */
  lemma {:induction false} WordsSpaceSuffix(s: string, q: string)
    requires AllSpace(q)
    ensures Words(s + q) == Words(s)
    decreases |s|
  {
    if s == [] {
      assert s + q == q;
      WordsEmptyIff(q);
    } else if IsSpace(s[0]) {
      assert (s + q)[1..] == s[1..] + q;
      WordsSpaceSuffix(s[1..], q);
    } else {
      var k := WordLen(s);
      WordLenConcat(s, q);
      assert (s + q)[..k] == s[..k];
      assert (s + q)[k..] == s[k..] + q;
      WordsSpaceSuffix(s[k..], q);
    }
  }

  /** `s.strip().split() == s.split()`. */
  lemma {:induction false} WordsStrip(s: string)
    ensures Words(Strip(s)) == Words(s)
  {
    var p, q := StripParts(s);
    assert s == p + (Strip(s) + q);
    WordsSpacePrefix(p, Strip(s) + q);
    WordsSpaceSuffix(Strip(s), q);
  }

  // ---------------------------------------------------------------------------
  // `str(n)` for a non-negative integer, and reading it back

  predicate IsDigit(c: char) {
    '0' <= c <= '9'
  }

  predicate AllDigits(s: string) {
    forall i :: 0 <= i < |s| ==> IsDigit(s[i])
  }

  /** Python's `str(n)` (decimal, no leading zeros) for `n >= 0`. */
  function NatToString(n: nat): (s: string)
    ensures s != [] && AllDigits(s)
    ensures s[0] == '0' ==> n == 0
  {
    var d := "0123456789"[n % 10];
    if n < 10 then [d]
    else NatToString(n / 10) + [d]
  }

  /** The value of a string of decimal digits. */
  function ParseNat(s: string): nat
    requires AllDigits(s)
  {
    if s == [] then 0
    else 10 * ParseNat(s[..|s| - 1]) + (s[|s| - 1] as int - '0' as int)
  }

  /** Reading the decimal text of `n` gives `n` back. */
  lemma {:induction false} ParseNatToString(n: nat)
    ensures ParseNat(NatToString(n)) == n
  {
    var s := NatToString(n);
    if n >= 10 {
      ParseNatToString(n / 10);
      assert s[..|s| - 1] == NatToString(n / 10);
    }
  }
}
