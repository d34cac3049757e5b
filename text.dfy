/**
 * The handful of Python `str` operations the chatbot relies on, over ASCII:
 * `lower()`, `capitalize()`, `strip()`, `in` (substring test), `endswith`,
 * `replace` (every non-overlapping occurrence, scanning left to right),
 * `sep.join(xs)`, `any(k in s for k in keys)`, `str(n)` for naturals, and
 * which of a list of keys occur in a text.
 */
module Text {
  import opened Wrappers

  // ---------------------------------------------------------------- characters

  function LowerChar(c: char): char {
    if 'A' <= c <= 'Z' then (c as int + 32) as char else c
  }

  function UpperChar(c: char): char {
    if 'a' <= c <= 'z' then (c as int - 32) as char else c
  }

  /** The ASCII characters Python's `str.isspace` accepts. */
  predicate IsSpace(c: char) {
    c == ' ' || 9 <= c as int <= 13 || 28 <= c as int <= 31
  }

  // ---------------------------------------------------------------- case

  /** `s.lower()` restricted to ASCII letters. */
  function Lower(s: string): (r: string)
    ensures |r| == |s|
    ensures forall i :: 0 <= i < |s| ==> r[i] == LowerChar(s[i])
    decreases |s|
  {
    if s == [] then [] else [LowerChar(s[0])] + Lower(s[1..])
  }

  /** `s.capitalize()`: first character upper-cased, the rest lower-cased. */
  function Capitalize(s: string): (r: string)
    ensures |r| == |s|
    ensures |s| > 0 ==> r[0] == UpperChar(s[0]) && r[1..] == Lower(s[1..])
  {
    if s == [] then [] else [UpperChar(s[0])] + Lower(s[1..])
  }

  // ---------------------------------------------------------------- tests

  predicate StartsWith(s: string, p: string) {
    |p| <= |s| && s[..|p|] == p
  }

  predicate EndsWith(s: string, p: string) {
    |p| <= |s| && s[|s| - |p|..] == p
  }

  /** Python's `sub in s`. */
  predicate Contains(s: string, sub: string)
    decreases |s|
  {
    StartsWith(s, sub) || (|s| > 0 && Contains(s[1..], sub))
  }

  /** `sub` occurs in `s` at position `i`. */
  ghost predicate OccursAt(s: string, sub: string, i: int) {
    0 <= i && i + |sub| <= |s| && s[i..i + |sub|] == sub
  }

  /** `Contains` is the positional definition of a substring. */
  lemma {:induction false} ContainsIffOccurs(s: string, sub: string)
    ensures Contains(s, sub) <==> exists i :: OccursAt(s, sub, i)
    decreases |s|
  {
    if Contains(s, sub) {
      if StartsWith(s, sub) {
        assert OccursAt(s, sub, 0);
      } else {
        ContainsIffOccurs(s[1..], sub);
        var i :| OccursAt(s[1..], sub, i);
        assert s[1..][i..i + |sub|] == s[i + 1..i + 1 + |sub|];
        assert OccursAt(s, sub, i + 1);
      }
    }
    if exists i :: OccursAt(s, sub, i) {
      var i :| OccursAt(s, sub, i);
      if i == 0 {
        assert StartsWith(s, sub);
      } else {
        assert s[1..][i - 1..i - 1 + |sub|] == s[i..i + |sub|];
        assert OccursAt(s[1..], sub, i - 1);
        ContainsIffOccurs(s[1..], sub);
      }
    }
  }

  /** A character is contained (as a one-letter string) iff it is an element. */
  lemma {:induction false} ContainsChar(s: string, c: char)
    ensures Contains(s, [c]) <==> c in s
    decreases |s|
  {
    if |s| > 0 {
      ContainsChar(s[1..], c);
      assert s == [s[0]] + s[1..];
    }
  }

  /** `any(k in s for k in keys)`. */
  predicate ContainsAny(s: string, keys: seq<string>)
    ensures ContainsAny(s, keys) <==> exists k :: 0 <= k < |keys| && Contains(s, keys[k])
    decreases |keys|
  {
    |keys| > 0 && (Contains(s, keys[0]) || ContainsAny(s, keys[1..]))
  }

  /** `any(k in s for k in keys)` holds iff some key occurs at some position of `s`. */
  lemma ContainsAnyIffOccurs(s: string, keys: seq<string>)
    ensures ContainsAny(s, keys) ==> exists k, i :: 0 <= k < |keys| && OccursAt(s, keys[k], i)
    ensures (exists k, i :: 0 <= k < |keys| && OccursAt(s, keys[k], i)) ==> ContainsAny(s, keys)
  {
    if ContainsAny(s, keys) {
      var k :| 0 <= k < |keys| && Contains(s, keys[k]);
      ContainsIffOccurs(s, keys[k]);
      var i :| OccursAt(s, keys[k], i);
      assert 0 <= k < |keys| && OccursAt(s, keys[k], i);
    }
    if exists k, i :: 0 <= k < |keys| && OccursAt(s, keys[k], i) {
      var k, i :| 0 <= k < |keys| && OccursAt(s, keys[k], i);
      ContainsIffOccurs(s, keys[k]);
      assert Contains(s, keys[k]);
    }
  }

  // ---------------------------------------------------------------- strip

  function StripLeft(s: string): (r: string)
    decreases |s|
  {
    if |s| > 0 && IsSpace(s[0]) then StripLeft(s[1..]) else s
  }

  function StripRight(s: string): (r: string)
    decreases |s|
  {
    if |s| > 0 && IsSpace(s[|s| - 1]) then StripRight(s[..|s| - 1]) else s
  }

  /** `s.strip()`. */
  function Strip(s: string): string {
    StripRight(StripLeft(s))
  }

  /** StripLeft removes exactly a leading run of whitespace. */
  lemma {:induction false} StripLeftSpec(s: string)
    ensures var r := StripLeft(s);
      |r| <= |s| && r == s[|s| - |r|..] &&
      (forall i :: 0 <= i < |s| - |r| ==> IsSpace(s[i])) &&
      (r != [] ==> !IsSpace(r[0]))
    decreases |s|
  {
    if |s| > 0 && IsSpace(s[0]) {
      StripLeftSpec(s[1..]);
    }
  }

  /** StripRight removes exactly a trailing run of whitespace. */
  lemma {:induction false} StripRightSpec(s: string)
    ensures var r := StripRight(s);
      |r| <= |s| && r == s[..|r|] &&
      (forall i :: |r| <= i < |s| ==> IsSpace(s[i])) &&
      (r != [] ==> !IsSpace(r[|r| - 1]))
    decreases |s|
  {
    if |s| > 0 && IsSpace(s[|s| - 1]) {
      StripRightSpec(s[..|s| - 1]);
    }
  }

  /** StripRight keeps a string that starts with a non-space character starting with it. */
  lemma {:induction false} StripRightKeepsHead(s: string)
    requires s != [] && !IsSpace(s[0])
    ensures StripRight(s) != [] && StripRight(s)[0] == s[0]
    decreases |s|
  {
    if IsSpace(s[|s| - 1]) {
      StripRightKeepsHead(s[..|s| - 1]);
    }
  }

  /**
   * `r` is the piece of `s` that starts at `lo`, and everything of `s`
   * before and after it is whitespace.
   */
  ghost predicate StrippedAt(s: string, r: string, lo: int) {
    0 <= lo && lo + |r| <= |s| && r == s[lo..lo + |r|] &&
    (forall i :: 0 <= i < lo ==> IsSpace(s[i])) &&
    (forall i :: lo + |r| <= i < |s| ==> IsSpace(s[i]))
  }

  /**
   * `s.strip()` is the piece of `s` between a leading and a trailing run of
   * whitespace, and neither of its ends is whitespace.
   */
  lemma StripSpec(s: string)
    ensures exists lo :: StrippedAt(s, Strip(s), lo)
    ensures Strip(s) != [] ==> !IsSpace(Strip(s)[0]) && !IsSpace(Strip(s)[|Strip(s)| - 1])
  {
    var l := StripLeft(s);
    StripLeftSpec(s);
    StripRightSpec(l);
    var r := StripRight(l);
    assert r == Strip(s);
    var lo := |s| - |l|;
    assert r == l[..|r|];
    assert r == s[lo..lo + |r|];
    forall i | lo + |r| <= i < |s| ensures IsSpace(s[i]) {
      assert s[i] == l[i - lo];
    }
    assert StrippedAt(s, r, lo);
    if r != [] {
      StripRightKeepsHead(l);
    }
  }

  /** `not s.strip()` holds exactly for strings made of whitespace only. */
  lemma StripEmptyIffAllSpace(s: string)
    ensures Strip(s) == [] <==> forall i :: 0 <= i < |s| ==> IsSpace(s[i])
  {
    var l := StripLeft(s);
    StripLeftSpec(s);
    if l != [] {
      assert l[0] == s[|s| - |l|];
      StripRightKeepsHead(l);
    }
  }

  /** Stripping twice is stripping once. */
  lemma StripIdempotent(s: string)
    ensures Strip(Strip(s)) == Strip(s)
  {
    var r := Strip(s);
    StripSpec(s);
    if r != [] {
      assert StripLeft(r) == r;
      assert StripRight(r) == r;
    }
  }

  // ---------------------------------------------------------------- replace

  /** `s.replace(pat, rep)`: every non-overlapping occurrence, left to right. */
  function ReplaceAll(s: string, pat: string, rep: string): (r: string)
    requires |pat| > 0
    decreases |s|
  {
    if |s| < |pat| then s
    else if s[..|pat|] == pat then rep + ReplaceAll(s[|pat|..], pat, rep)
    else [s[0]] + ReplaceAll(s[1..], pat, rep)
  }

  /** Replacing a pattern that does not occur changes nothing. */
  lemma {:induction false} ReplaceAbsent(s: string, pat: string, rep: string)
    requires |pat| > 0
    requires !Contains(s, pat)
    ensures ReplaceAll(s, pat, rep) == s
    decreases |s|
  {
    if |s| >= |pat| {
      assert !StartsWith(s, pat);
      ReplaceAbsent(s[1..], pat, rep);
    }
  }

  /** Every character of a replacement result comes from the input or from the replacement text. */
  lemma {:induction false} ReplaceChars(s: string, pat: string, rep: string)
    requires |pat| > 0
    ensures forall c :: c in ReplaceAll(s, pat, rep) ==> c in s || c in rep
    decreases |s|
  {
    if |s| < |pat| {
    } else if s[..|pat|] == pat {
      ReplaceChars(s[|pat|..], pat, rep);
      forall c | c in ReplaceAll(s, pat, rep) ensures c in s || c in rep {
        if c !in rep {
          assert c in ReplaceAll(s[|pat|..], pat, rep);
          assert c in s[|pat|..];
        }
      }
    } else {
      ReplaceChars(s[1..], pat, rep);
      forall c | c in ReplaceAll(s, pat, rep) ensures c in s || c in rep {
        if c != s[0] {
          assert c in ReplaceAll(s[1..], pat, rep);
        }
      }
    }
  }

  /** Replacing a single character by text that lacks it leaves no occurrence of it. */
  lemma {:induction false} ReplaceCharGone(s: string, c: char, rep: string)
    requires c !in rep
    ensures c !in ReplaceAll(s, [c], rep)
    decreases |s|
  {
    if |s| >= 1 {
      ReplaceCharGone(s[1..], c, rep);
      if s[..1] != [c] {
        assert s[0] != c;
      }
    }
  }

  /** `s` with every `c` turned into `d`. */
  function MapChar(s: string, c: char, d: char): string {
    seq(|s|, i requires 0 <= i < |s| => if s[i] == c then d else s[i])
  }

  /** Rewriting a character distributes over concatenation. */
  lemma MapCharAppend(a: string, b: string, c: char, d: char)
    ensures MapChar(a + b, c, d) == MapChar(a, c, d) + MapChar(b, c, d)
  {
  }

  /** Rewriting a character that does not occur changes nothing. */
  lemma MapCharAbsent(s: string, c: char, d: char)
    requires c !in s
    ensures MapChar(s, c, d) == s
  {
  }

  /** Replacing a one-character pattern by a one-character text rewrites that character everywhere. */
  lemma {:induction false} ReplaceOneChar(s: string, c: char, d: char)
    ensures ReplaceAll(s, [c], [d]) == MapChar(s, c, d)
    decreases |s|
  {
    if |s| >= 1 {
      ReplaceOneChar(s[1..], c, d);
      var m := MapChar(s, c, d);
      assert m == [m[0]] + MapChar(s[1..], c, d);
      if s[..1] == [c] {
        assert s[0] == c;
      } else {
        assert s[0] != c;
      }
    }
  }

  /** A prefix in which no occurrence of `pat` starts is copied unchanged. */
  lemma {:induction false} ReplaceSkipsPrefix(p: string, u: string, pat: string, rep: string)
    requires |pat| > 0
    requires forall k :: 0 <= k < |p| ==> !StartsWith((p + u)[k..], pat)
    ensures ReplaceAll(p + u, pat, rep) == p + ReplaceAll(u, pat, rep)
    decreases |p|
  {
    if p != [] {
      var s := p + u;
      assert s[1..] == p[1..] + u;
      forall k | 0 <= k < |p[1..]| ensures !StartsWith((p[1..] + u)[k..], pat) {
        assert (p[1..] + u)[k..] == s[k + 1..];
      }
      ReplaceSkipsPrefix(p[1..], u, pat, rep);
      assert !StartsWith(s[0..], pat);
      assert s[0..] == s;
      if |s| < |pat| {
        assert ReplaceAll(u, pat, rep) == u;
      } else {
        assert s[..|pat|] != pat;
        assert [p[0]] + (p[1..] + ReplaceAll(u, pat, rep)) == p + ReplaceAll(u, pat, rep);
      }
    } else {
      assert p + u == u && p + ReplaceAll(u, pat, rep) == ReplaceAll(u, pat, rep);
    }
  }

  // ---------------------------------------------------------------- join

  /** `sep.join(xs)`. */
  function Join(sep: string, xs: seq<string>): string
    decreases |xs|
  {
    if |xs| == 0 then "" else if |xs| == 1 then xs[0] else xs[0] + sep + Join(sep, xs[1..])
  }

  /** A join starts with its first piece. */
  lemma {:induction false} JoinStartsWithFirst(sep: string, xs: seq<string>)
    requires |xs| > 0
    ensures StartsWith(Join(sep, xs), xs[0])
  {
    if |xs| > 1 {
      assert Join(sep, xs)[..|xs[0]|] == xs[0];
    }
  }

  /**
   * With a non-empty separator, a join is empty exactly when there is nothing
   * to join or the only piece is empty.
   */
  lemma {:induction false} JoinEmptyIff(sep: string, xs: seq<string>)
    requires |sep| > 0
    ensures Join(sep, xs) == "" <==> xs == [] || xs == [""]
  {
    if |xs| > 1 {
      assert |Join(sep, xs)| >= |sep|;
    }
    if xs == [""] {
      assert Join(sep, xs) == "";
    }
  }

  /** Every piece of a join is a substring of it. */
  lemma {:induction false} JoinContainsPiece(sep: string, xs: seq<string>, k: nat)
    requires k < |xs|
    ensures Contains(Join(sep, xs), xs[k])
    decreases |xs|
  {
    var j := Join(sep, xs);
    if k == 0 {
      JoinStartsWithFirst(sep, xs);
    } else {
      JoinContainsPiece(sep, xs[1..], k - 1);
      var tail := Join(sep, xs[1..]);
      assert xs[1..][k - 1] == xs[k];
      ContainsIffOccurs(tail, xs[k]);
      var i :| OccursAt(tail, xs[k], i);
      var off := |xs[0]| + |sep|;
      assert j == xs[0] + sep + tail;
      assert j[off + i..off + i + |xs[k]|] == tail[i..i + |xs[k]|];
      assert OccursAt(j, xs[k], off + i);
      ContainsIffOccurs(j, xs[k]);
    }
  }

  // ---------------------------------------------------------------- sequences

  predicate NoDup<T(==)>(s: seq<T>) {
    forall i, j :: 0 <= i < j < |s| ==> s[i] != s[j]
  }

  /** The first `n` elements, as Python's `xs[:n]` for `n >= 0`. */
  function Take<T>(xs: seq<T>, n: nat): (r: seq<T>)
    ensures |r| == if |xs| < n then |xs| else n
    ensures r == xs[..|r|]
    ensures forall x :: x in r ==> x in xs
    ensures |xs| <= n ==> r == xs
  {
    if |xs| <= n then xs else xs[..n]
  }

  /** The position of the first `c` in `s`, `|s|` when there is none. */
  function IndexOf(s: string, c: char): (r: nat)
    ensures r <= |s|
    ensures r < |s| ==> s[r] == c
    ensures forall j :: 0 <= j < r ==> s[j] != c
  {
    if s == [] then 0 else if s[0] == c then 0 else 1 + IndexOf(s[1..], c)
  }

  lemma {:induction false} IndexOfAfter(a: string, c: char, b: string)
    requires c !in a
    ensures IndexOf(a + [c] + b, c) == |a|
    decreases |a|
  {
    if a != [] {
      assert (a + [c] + b)[1..] == a[1..] + [c] + b;
      IndexOfAfter(a[1..], c, b);
    }
  }

  /** Two strings split at their first `c` agree on both sides of it. */
  lemma SplitAtFirst(a: string, b: string, a': string, b': string, c: char)
    requires c !in a && c !in a'
    requires a + [c] + b == a' + [c] + b'
    ensures a == a' && b == b'
  {
    var s := a + [c] + b;
    IndexOfAfter(a, c, b);
    IndexOfAfter(a', c, b');
    assert a == s[..|a|] == a';
    assert b == s[|a| + 1..] == b';
  }

  // ---------------------------------------------------------------- numbers

  predicate IsDigit(c: char) {
    '0' <= c <= '9'
  }

  function DigitChar(d: nat): (c: char)
    requires d < 10
    ensures IsDigit(c)
  {
    ('0' as int + d) as char
  }

  /** `str(n)` for a natural number: decimal digits without leading zeros. */
  function NatToString(n: nat): (r: string)
    decreases n
  {
    if n < 10 then [DigitChar(n)] else NatToString(n / 10) + [DigitChar(n % 10)]
  }

  /** The value of a string of decimal digits. */
  function ParseNat(s: string): nat
    requires forall i :: 0 <= i < |s| ==> IsDigit(s[i])
    decreases |s|
  {
    if s == [] then 0
    else
      assert IsDigit(s[|s| - 1]);
      ParseNat(s[..|s| - 1]) * 10 + (s[|s| - 1] as int - '0' as int)
  }

  /** `str(n)` is made of digits that read back as `n`. */
  lemma {:induction false} NatToStringRoundTrip(n: nat)
    ensures var s := NatToString(n);
      s != [] && (forall i :: 0 <= i < |s| ==> IsDigit(s[i])) && ParseNat(s) == n
    decreases n
  {
    if n >= 10 {
      NatToStringRoundTrip(n / 10);
      var s := NatToString(n);
      assert s[..|s| - 1] == NatToString(n / 10);
    }
  }

  /** Distinct numbers print differently. */
  lemma NatToStringInjective(a: nat, b: nat)
    requires NatToString(a) == NatToString(b)
    ensures a == b
  {
    NatToStringRoundTrip(a);
    NatToStringRoundTrip(b);
  }

  // ---------------------------------------------------------------- keys found in a text

  /** The index of the first key that occurs in `s`. */
  function FirstContained(keys: seq<string>, s: string): (r: Option<nat>)
    ensures r.Some? ==> r.value < |keys| && Contains(s, keys[r.value]) &&
                        forall j :: 0 <= j < r.value ==> !Contains(s, keys[j])
    ensures r.None? <==> forall j :: 0 <= j < |keys| ==> !Contains(s, keys[j])
    decreases |keys|
  {
    if keys == [] then None
    else if Contains(s, keys[0]) then Some(0)
    else match FirstContained(keys[1..], s)
      case None => None
      case Some(i) => Some(i + 1)
  }

  /** `[cdp for cdp in names if cdp in s]`. */
  function Mentions(names: seq<string>, s: string): seq<string>
    decreases |names|
  {
    if names == [] then []
    else (if Contains(s, names[0]) then [names[0]] else []) + Mentions(names[1..], s)
  }

  /** At least one name is mentioned iff some name occurs. */
  lemma {:induction false} MentionsSome(names: seq<string>, s: string)
    ensures |Mentions(names, s)| > 0 <==> exists i :: 0 <= i < |names| && Contains(s, names[i])
    decreases |names|
  {
    if names != [] {
      MentionsSome(names[1..], s);
      if exists i :: 0 <= i < |names| && Contains(s, names[i]) {
        var i :| 0 <= i < |names| && Contains(s, names[i]);
        if i > 0 {
          assert Contains(s, names[1..][i - 1]);
        }
      }
    }
  }

  /** More than one name is mentioned iff names at two different positions occur. */
  lemma MentionsTwo(names: seq<string>, s: string)
    ensures |Mentions(names, s)| > 1 <==>
      exists i, j :: 0 <= i < j < |names| && Contains(s, names[i]) && Contains(s, names[j])
  {
    if |Mentions(names, s)| > 1 {
      MentionsTwoOnlyIf(names, s);
    }
    if exists i, j :: 0 <= i < j < |names| && Contains(s, names[i]) && Contains(s, names[j]) {
      var i, j :| 0 <= i < j < |names| && Contains(s, names[i]) && Contains(s, names[j]);
      MentionsTwoIf(names, s, i, j);
    }
  }

  /** Two mentions come from two occurring names. */
  lemma {:induction false} MentionsTwoOnlyIf(names: seq<string>, s: string)
    requires |Mentions(names, s)| > 1
    ensures exists i, j :: 0 <= i < j < |names| && Contains(s, names[i]) && Contains(s, names[j])
    decreases |names|
  {
    var rest := names[1..];
    if Contains(s, names[0]) {
      MentionsSome(rest, s);
      var j :| 0 <= j < |rest| && Contains(s, rest[j]);
      assert Contains(s, names[0]) && Contains(s, names[j + 1]);
    } else {
      MentionsTwoOnlyIf(rest, s);
      var i, j :| 0 <= i < j < |rest| && Contains(s, rest[i]) && Contains(s, rest[j]);
      assert Contains(s, names[i + 1]) && Contains(s, names[j + 1]);
    }
  }

  /** Two occurring names give two mentions. */
  lemma {:induction false} MentionsTwoIf(names: seq<string>, s: string, i: nat, j: nat)
    requires i < j < |names| && Contains(s, names[i]) && Contains(s, names[j])
    ensures |Mentions(names, s)| > 1
    decreases |names|
  {
    var rest := names[1..];
    assert Contains(s, rest[j - 1]);
    if i == 0 {
      MentionsSome(rest, s);
    } else {
      assert Contains(s, rest[i - 1]);
      MentionsTwoIf(rest, s, i - 1, j - 1);
    }
  }
}
