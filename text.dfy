/** Python string operations the service relies on: `str.isspace`, `str.strip`,
    `str.lower`, `str.endswith`, `sep.join` and `str.split`. */
module Text {

  /** Python's `str.isspace()` for a single character. */
  predicate IsSpace(c: char) {
    || '\t' <= c <= '\r'
    || '\U{1C}' <= c <= ' '
    || c == '\U{85}' || c == '\U{A0}' || c == '\U{1680}'
    || '\U{2000}' <= c <= '\U{200A}'
    || c == '\U{2028}' || c == '\U{2029}' || c == '\U{202F}' || c == '\U{205F}' || c == '\U{3000}'
  }

  /** A string that `if s.strip():` treats as false. */
  predicate IsBlank(s: string) {
    forall i :: 0 <= i < |s| ==> IsSpace(s[i])
  }

  /** No whitespace at either end: what `str.strip()` produces. */
  predicate Stripped(s: string) {
    s == [] || (!IsSpace(s[0]) && !IsSpace(s[|s| - 1]))
  }

  /** `s.lstrip()`: the suffix of `s` left after dropping leading whitespace. */
  function TrimLeft(s: string): (r: string)
    ensures |r| <= |s| && r == s[|s| - |r|..]
    ensures IsBlank(s[..|s| - |r|])
    ensures r == [] || !IsSpace(r[0])
  {
    if s != [] && IsSpace(s[0]) then
      var r := TrimLeft(s[1..]);
      TrimLeftStep(s, r);
      r
    else s
  }

  /** Dropping one leading space before trimming the rest. */
  lemma TrimLeftStep(s: string, r: string)
    requires s != [] && IsSpace(s[0])
    requires |r| <= |s| - 1 && r == s[1..][|s| - 1 - |r|..] && IsBlank(s[1..][..|s| - 1 - |r|])
    ensures r == s[|s| - |r|..] && IsBlank(s[..|s| - |r|])
  {
    assert s[1..][|s| - 1 - |r|..] == s[|s| - |r|..];
    var blank := s[..|s| - |r|];
    forall i | 0 <= i < |blank| ensures IsSpace(blank[i]) {
      if i > 0 {
        assert blank[i] == s[1..][..|s| - 1 - |r|][i - 1];
      }
    }
  }

  /** `s.rstrip()`: the prefix of `s` left after dropping trailing whitespace. */
  function TrimRight(s: string): (r: string)
    ensures |r| <= |s| && r == s[..|r|]
    ensures IsBlank(s[|r|..])
    ensures r == [] || !IsSpace(r[|r| - 1])
  {
    if s != [] && IsSpace(s[|s| - 1]) then
      var r := TrimRight(s[..|s| - 1]);
      TrimRightStep(s, r);
      r
    else s
  }

  /** Dropping one trailing space before trimming the rest. */
  lemma TrimRightStep(s: string, r: string)
    requires s != [] && IsSpace(s[|s| - 1])
    requires |r| <= |s| - 1 && r == s[..|s| - 1][..|r|] && IsBlank(s[..|s| - 1][|r|..])
    ensures r == s[..|r|] && IsBlank(s[|r|..])
  {
    assert s[..|s| - 1][..|r|] == s[..|r|];
    forall i | 0 <= i < |s[|r|..]| ensures IsSpace(s[|r|..][i]) {
      if i < |s| - 1 - |r| {
        assert s[|r|..][i] == s[..|s| - 1][|r|..][i];
      }
    }
  }

  /** `s.strip()`: `s` with its whitespace edges removed, and nothing else changed. */
  function Strip(s: string): (r: string)
    ensures Stripped(r)
    ensures r == [] <==> IsBlank(s)
  {
    StripWitness(s);
    TrimRight(TrimLeft(s))
  }

  /** `r` occurs in `s` at offset `i`, with only whitespace before and after it. */
  predicate BlankAround(s: string, r: string, i: int) {
    && 0 <= i <= |s| - |r|
    && r == s[i..i + |r|]
    && IsBlank(s[..i])
    && IsBlank(s[i + |r|..])
  }

  /** `s.strip()` removes only whitespace, and only at the two ends: `s` is a blank
      prefix, then the strip, then a blank suffix. */
  lemma StripIsInfix(s: string)
    ensures exists i :: BlankAround(s, Strip(s), i)
  {
    StripWitness(s);
    assert Strip(s) == TrimRight(TrimLeft(s));
    assert BlankAround(s, Strip(s), |s| - |TrimLeft(s)|);
  }

  /** The strip of `s` sits at offset `|s| - |s.lstrip()|` between two blank edges,
      and is empty exactly when `s` is blank. */
  lemma StripWitness(s: string)
    ensures BlankAround(s, TrimRight(TrimLeft(s)), |s| - |TrimLeft(s)|)
    ensures TrimRight(TrimLeft(s)) == [] <==> IsBlank(s)
  {
    StripAround(s);
    StripEmptyIffBlank(s);
  }

  lemma StripAround(s: string)
    ensures BlankAround(s, TrimRight(TrimLeft(s)), |s| - |TrimLeft(s)|)
  {
    var t := TrimLeft(s);
    var r := TrimRight(t);
    BlankAroundIntro(s, t, r, |s| - |t|);
  }

  /** A blank prefix, then `r`, then a blank tail of the rest `t`. */
  lemma BlankAroundIntro(s: string, t: string, r: string, i: nat)
    requires i <= |s| && t == s[i..] && IsBlank(s[..i])
    requires |r| <= |t| && r == t[..|r|] && IsBlank(t[|r|..])
    ensures BlankAround(s, r, i)
  {
    SuffixSlices(s, i, |r|);
  }

  lemma StripEmptyIffBlank(s: string)
    ensures TrimRight(TrimLeft(s)) == [] <==> IsBlank(s)
  {
    var t := TrimLeft(s);
    var r := TrimRight(t);
    if r == [] {
      assert t[|r|..] == t;
      BlankJoin(s, |s| - |t|);
    }
    if IsBlank(s) {
      BlankTrimLeft(s);
    }
  }

  /** A blank string strips to nothing from the left. */
  lemma {:induction false} BlankTrimLeft(s: string)
    requires IsBlank(s)
    ensures TrimLeft(s) == []
  {
    if s != [] {
      assert IsSpace(s[0]);
      assert IsBlank(s[1..]) by {
        forall k | 0 <= k < |s[1..]| ensures IsSpace(s[1..][k]) {
          assert s[1..][k] == s[k + 1];
        }
      }
      BlankTrimLeft(s[1..]);
    }
  }

  /** A concatenation splits back into its two parts. */
  lemma PrefixAndRest<T>(a: seq<T>, b: seq<T>)
    ensures (a + b)[..|a|] == a && (a + b)[|a|..] == b
  {
  }

  /** Regrouping a chain of concatenations to the right of its first part. */
  lemma ConcatAssoc5<T>(a: seq<T>, b: seq<T>, c: seq<T>, d: seq<T>, e: seq<T>, f: seq<T>)
    ensures a + b + c + d + e + f == a + (b + c + d + e + f)
  {
  }

  /** Cutting a suffix of `s` at `k` is cutting `s` at `i + k`. */
  lemma SuffixSlices(s: string, i: nat, k: nat)
    requires i + k <= |s|
    ensures s[i..][..k] == s[i..i + k]
    ensures s[i..][k..] == s[i + k..]
  {
  }

  /** Two blank halves make a blank string. */
  lemma BlankJoin(s: string, i: nat)
    requires i <= |s| && IsBlank(s[..i]) && IsBlank(s[i..])
    ensures IsBlank(s)
  {
    forall k | 0 <= k < |s| ensures IsSpace(s[k]) {
      if k >= i { assert s[k] == s[i..][k - i]; } else { assert s[k] == s[..i][k]; }
    }
  }

  /** Stripping is idempotent: a stripped string is its own strip. */
  lemma StripStripped(s: string)
    requires Stripped(s)
    ensures Strip(s) == s
  {
  }

  /** ASCII case folding of one character (see README: exact for the suffix tests). */
  function LowerChar(c: char): char {
    if 'A' <= c <= 'Z' then (c as int + 32) as char else c
  }

  /** `s.lower()` restricted to ASCII letters. */
  function Lower(s: string): (r: string)
    ensures |r| == |s|
  {
    seq(|s|, i requires 0 <= i < |s| => LowerChar(s[i]))
  }

  /** `s.endswith(t)`. */
  predicate EndsWith(s: string, t: string) {
    |t| <= |s| && s[|s| - |t|..] == t
  }

  /** `t in s` for strings: `t` occurs somewhere in `s`. */
  predicate Contains(s: string, t: string) {
    exists i :: 0 <= i <= |s| && OccursAt(s, t, i)
  }

  /** `t` occurs in `s` starting at index `i`. */
  predicate OccursAt(s: string, t: string, i: int) {
    0 <= i <= |s| - |t| && s[i..i + |t|] == t
  }

  /** A string contains what it is built around. */
  lemma ContainsMiddle(a: string, t: string, b: string)
    ensures Contains(a + t + b, t)
  {
    var s := a + t + b;
    assert s[|a|..|a| + |t|] == t;
    assert OccursAt(s, t, |a|);
  }

  /** A concatenation contains its left part. */
  lemma ContainsLeft(a: string, b: string)
    ensures Contains(a + b, a)
  {
    assert (a + b)[0..|a|] == a;
    assert OccursAt(a + b, a, 0);
  }

  /** A concatenation contains its right part. */
  lemma ContainsRight(a: string, b: string)
    ensures Contains(a + b, b)
  {
    assert (a + b)[|a|..|a| + |b|] == b;
    assert OccursAt(a + b, b, |a|);
  }

  /** Containment is transitive. */
  lemma ContainsTrans(s: string, m: string, t: string)
    requires Contains(s, m) && Contains(m, t)
    ensures Contains(s, t)
  {
    var i :| 0 <= i <= |s| && OccursAt(s, m, i);
    var j :| 0 <= j <= |m| && OccursAt(m, t, j);
    assert s[i..i + |m|] == m && m[j..j + |t|] == t;
    forall k | 0 <= k < |t| ensures s[i + j + k] == t[k] {
      assert t[k] == m[j + k] == s[i..i + |m|][j + k];
    }
    assert s[i + j..i + j + |t|] == t;
    assert OccursAt(s, t, i + j);
  }

  /** `sep.join(xs)`. */
  function Join(sep: string, xs: seq<string>): string {
    if xs == [] then ""
    else if |xs| == 1 then xs[0]
    else xs[0] + sep + Join(sep, xs[1..])
  }

  /** Each part occurs in the join. */
  lemma {:induction false} JoinContainsPart(sep: string, xs: seq<string>, k: nat)
    requires k < |xs|
    ensures Contains(Join(sep, xs), xs[k])
  {
    if |xs| == 1 {
      ContainsMiddle([], xs[0], []);
      assert [] + xs[0] + [] == xs[0];
    } else {
      var rest := Join(sep, xs[1..]);
      if k == 0 {
        ContainsMiddle([], xs[0], sep + rest);
        assert [] + xs[0] + (sep + rest) == xs[0] + sep + rest;
      } else {
        JoinContainsPart(sep, xs[1..], k - 1);
        ContainsMiddle(xs[0] + sep, rest, []);
        assert xs[0] + sep + rest + [] == xs[0] + sep + rest;
        ContainsTrans(Join(sep, xs), rest, xs[k]);
      }
    }
  }

  /** A join splits at any part boundary: the parts before, the separator, the
      parts from there on. */
  lemma {:induction false} JoinSplitAt(sep: string, xs: seq<string>, j: nat)
    requires 0 < j < |xs|
    ensures Join(sep, xs) == Join(sep, xs[..j]) + sep + Join(sep, xs[j..])
  {
    if j == 1 {
      assert xs[..1] == [xs[0]];
      assert xs[1..] == xs[j..];
    } else {
      JoinSplitAt(sep, xs[1..], j - 1);
      assert xs[1..][..j - 1] == xs[..j][1..];
      assert xs[1..][j - 1..] == xs[j..];
      assert xs[..j][0] == xs[0];
    }
  }

  /** Joining with a whitespace separator is blank exactly when every part is. */
  lemma {:induction false} JoinBlank(sep: string, xs: seq<string>)
    requires IsBlank(sep)
    ensures IsBlank(Join(sep, xs)) <==> forall i :: 0 <= i < |xs| ==> IsBlank(xs[i])
  {
    if |xs| > 1 {
      JoinBlank(sep, xs[1..]);
      var rest := Join(sep, xs[1..]);
      var j := xs[0] + sep + rest;
      assert forall k :: 0 <= k < |xs[0]| ==> j[k] == xs[0][k];
      assert forall k :: 0 <= k < |rest| ==> j[|xs[0]| + |sep| + k] == rest[k];
      assert forall k :: 0 <= k < |sep| ==> j[|xs[0]| + k] == sep[k];
      assert forall i :: 1 <= i < |xs| ==> xs[i] == xs[1..][i - 1];
    }
  }

  /** Joining stripped, non-blank parts with a single separator gives a stripped
      string that is blank only when there are no parts at all. */
  lemma {:induction false} JoinOfStrippedParts(sep: string, xs: seq<string>)
    requires forall i :: 0 <= i < |xs| ==> Stripped(xs[i]) && !IsBlank(xs[i])
    ensures Stripped(Join(sep, xs))
    ensures IsBlank(Join(sep, xs)) <==> xs == []
  {
    if |xs| > 1 {
      JoinOfStrippedParts(sep, xs[1..]);
      var rest := Join(sep, xs[1..]);
      var j := xs[0] + sep + rest;
      assert xs[0] != [] && rest != [];
      assert j[0] == xs[0][0];
      assert j[|j| - 1] == rest[|rest| - 1];
    } else if |xs| == 1 {
      assert xs[0] != [];
    }
  }

  /** `s.split(c)` for a one-character separator. */
  function Split(s: string, c: char): (r: seq<string>)
    ensures |r| == multiset(s)[c] + 1
    ensures forall i :: 0 <= i < |r| ==> c !in r[i]
    ensures Join([c], r) == s
  {
    if s == [] then [""]
    else
      var rest := Split(s[1..], c);
      SplitStep(s, c, rest);
      if s[0] == c then [""] + rest else [[s[0]] + rest[0]] + rest[1..]
  }

  /** One step of `Split`: how the first character extends the split of the rest. */
  lemma SplitStep(s: string, c: char, rest: seq<string>)
    requires s != [] && rest != []
    requires |rest| == multiset(s[1..])[c] + 1
    requires forall i :: 0 <= i < |rest| ==> c !in rest[i]
    requires Join([c], rest) == s[1..]
    ensures var r := if s[0] == c then [""] + rest else [[s[0]] + rest[0]] + rest[1..];
      && |r| == multiset(s)[c] + 1
      && (forall i :: 0 <= i < |r| ==> c !in r[i])
      && Join([c], r) == s
  {
    assert s == [s[0]] + s[1..];
    assert multiset(s) == multiset([s[0]]) + multiset(s[1..]);
    if s[0] != c {
      SplitStepPart(s[0], c, rest);
    } else {
      var r := [""] + rest;
      assert r[1..] == rest;
    }
  }





  /** A character other than the separator joins the first part. */
  lemma SplitStepPart(d: char, c: char, rest: seq<string>)
    requires d != c && rest != []
    requires forall i :: 0 <= i < |rest| ==> c !in rest[i]
    ensures var r := [[d] + rest[0]] + rest[1..];
      && (forall i :: 0 <= i < |r| ==> c !in r[i])
      && Join([c], r) == [d] + Join([c], rest)
  {
    JoinConsHead([c], [d], rest);
    var r := [[d] + rest[0]] + rest[1..];
    forall i | 0 <= i < |r| ensures c !in r[i] {
      if i > 0 { assert r[i] == rest[i]; }
    }
  }

  /** Prepending to the first part of a join prepends to the joined string. */
  lemma JoinConsHead(sep: string, p: string, xs: seq<string>)
    requires xs != []
    ensures Join(sep, [p + xs[0]] + xs[1..]) == p + Join(sep, xs)
  {
    var ys := [p + xs[0]] + xs[1..];
    assert ys[1..] == xs[1..];
  }

  /** Decimal digits of a natural number, as `str(n)` prints it. */
  function NatToString(n: nat): (r: string)
    ensures r != []
    ensures forall i :: 0 <= i < |r| ==> '0' <= r[i] <= '9'
  {
    var d := ['0' + (n % 10) as char];
    if n < 10 then d else NatToString(n / 10) + d
  }

  /** `str(i)` for a Python int. */
  function IntToString(i: int): (r: string)
    ensures r != []
  {
    if i < 0 then "-" + NatToString(-i) else NatToString(i)
  }
}
