/**
 * The Python `str` and `os.path` (POSIX) operations the scripts rely on,
 * over `string` (a sequence of Unicode scalar values).
 */
module Text {
  import opened Wrappers

  /** Python's `str.isspace()` on one character: exactly what `str.strip()` removes. */
  predicate IsSpace(c: char) {
    c == ' ' || ('\t' <= c <= '\r') || ('\U{1C}' <= c <= '\U{1F}')
    || c == '\U{85}' || c == '\U{A0}' || c == '\U{1680}'
    || ('\U{2000}' <= c <= '\U{200A}') || c == '\U{2028}' || c == '\U{2029}'
    || c == '\U{202F}' || c == '\U{205F}' || c == '\U{3000}'
  }

  /** `not s or not s.strip()`: the string is empty or whitespace only. */
  predicate IsBlank(s: string) {
    forall i :: 0 <= i < |s| ==> IsSpace(s[i])
  }

  predicate StartsWith(s: string, prefix: string) {
    |prefix| <= |s| && s[..|prefix|] == prefix
  }

  predicate EndsWith(s: string, suffix: string) {
    |suffix| <= |s| && s[|s| - |suffix|..] == suffix
  }

  /** `pat` occurs in `s` starting at index `i`. */
  predicate OccursAt(s: string, pat: string, i: int) {
    0 <= i && i + |pat| <= |s| && s[i..i + |pat|] == pat
  }

  /** Python's `pat in s` for strings. */
  predicate HasSubstring(s: string, pat: string) {
    exists i :: 0 <= i <= |s| - |pat| && OccursAt(s, pat, i)
  }

  /** No two adjacent characters of `s` are both `c` (for `c = ':'`: `"::" not in s`). */
  predicate NoDoubled(s: string, c: char) {
    forall i, j :: 0 <= i < |s| && j == i + 1 && j < |s| ==> !(s[i] == c && s[j] == c)
  }

  lemma NoDoubledMeansNoPair(s: string, c: char)
    requires NoDoubled(s, c)
    ensures !HasSubstring(s, [c, c])
  {
    forall i | 0 <= i <= |s| - 2 ensures !OccursAt(s, [c, c], i) {
      assert !(s[i] == c && s[i + 1] == c);
      assert s[i..i + 2][0] == s[i];
    }
  }

  // ---------------------------------------------------------------------------
  // strip / lstrip / rstrip

  /** `s.lstrip(chars)` where `drop` says which characters are in `chars`. */
  function TrimStart(s: string, drop: char -> bool): (r: string)
    ensures |r| <= |s| && r == s[|s| - |r|..]
    ensures forall i :: 0 <= i < |s| - |r| ==> drop(s[i])
    ensures r != [] ==> !drop(r[0])
  {
    if s != [] && drop(s[0]) then TrimStart(s[1..], drop) else s
  }

  /** `s.rstrip(chars)`. */
  function TrimEnd(s: string, drop: char -> bool): (r: string)
    ensures |r| <= |s| && r == s[..|r|]
    ensures forall i :: |r| <= i < |s| ==> drop(s[i])
    ensures r != [] ==> !drop(r[|r| - 1])
  {
    if s != [] && drop(s[|s| - 1]) then TrimEnd(s[..|s| - 1], drop) else s
  }

  /** `s.strip(chars)`: both ends trimmed; what is left is a slice of `s`. */
  function Trim(s: string, drop: char -> bool): (r: string)
    ensures r != [] ==> !drop(r[0]) && !drop(r[|r| - 1])
    ensures exists k :: OccursAt(s, r, k)
    ensures forall c :: c in r ==> c in s
    ensures r == [] <==> forall i :: 0 <= i < |s| ==> drop(s[i])
  {
    var left := TrimStart(s, drop);
    var r := TrimEnd(left, drop);
    var k := |s| - |left|;
    assert r == s[k..k + |r|];
    assert OccursAt(s, r, k);
    r
  }

  /** Stripping keeps a prefix whose first and last characters are not stripped. */
  lemma TrimKeepsPrefix(p: string, t: string, drop: char -> bool)
    requires p != [] && !drop(p[0]) && !drop(p[|p| - 1])
    ensures StartsWith(Trim(p + t, drop), p)
  {
    var s := p + t;
    assert s[0] == p[0];
    var left := TrimStart(s, drop);
    assert left == s;
    var r := TrimEnd(left, drop);
    assert s[|p| - 1] == p[|p| - 1];
    assert |r| >= |p|;
    assert r[..|p|] == s[..|p|];
  }

  lemma SliceKeepsNoDoubled(s: string, lo: nat, hi: nat, c: char)
    requires lo <= hi <= |s| && NoDoubled(s, c)
    ensures NoDoubled(s[lo..hi], c)
  {
    var t := s[lo..hi];
    forall i, j | 0 <= i < |t| && j == i + 1 && j < |t| ensures !(t[i] == c && t[j] == c) {
      assert t[i] == s[lo + i] && t[j] == s[lo + j];
    }
  }

  /** Stripping never creates two adjacent `c`. */
  lemma TrimKeepsNoDoubled(s: string, drop: char -> bool, c: char)
    requires NoDoubled(s, c)
    ensures NoDoubled(Trim(s, drop), c)
  {
    var r := Trim(s, drop);
    var k :| OccursAt(s, r, k);
    SliceKeepsNoDoubled(s, k, k + |r|, c);
  }

  /** Stripping a string whose two ends are kept leaves it unchanged. */
  lemma TrimUnchanged(s: string, drop: char -> bool)
    requires s != [] && !drop(s[0]) && !drop(s[|s| - 1])
    ensures Trim(s, drop) == s
  {
    assert TrimStart(s, drop) == s;
  }

  /** Python's `s.strip()`. */
  function Strip(s: string): (r: string)
    ensures r != [] ==> !IsSpace(r[0]) && !IsSpace(r[|r| - 1])
    ensures forall c :: c in r ==> c in s
    ensures r == [] <==> IsBlank(s)
  {
    Trim(s, IsSpace)
  }

  // ---------------------------------------------------------------------------
  // replace

  /** Python's `s.replace(pat, rep)`: every non-overlapping occurrence, left to right. */
  function Replace(s: string, pat: string, rep: string): string
    requires pat != []
    decreases |s|
  {
    if |s| < |pat| then s
    else if s[..|pat|] == pat then rep + Replace(s[|pat|..], pat, rep)
    else [s[0]] + Replace(s[1..], pat, rep)
  }

  /** Replacing a single character by a single character is a character-wise map. */
  lemma {:induction false} ReplaceCharIsMap(s: string, c: char, d: char)
    ensures |Replace(s, [c], [d])| == |s|
    ensures forall i :: 0 <= i < |s| ==> Replace(s, [c], [d])[i] == (if s[i] == c then d else s[i])
    decreases |s|
  {
    if |s| >= 1 {
      ReplaceCharIsMap(s[1..], c, d);
    }
  }

  /** After replacing `c` by a string without `c`, no `c` is left. */
  lemma {:induction false} ReplaceRemovesChar(s: string, c: char, rep: string)
    requires c !in rep
    ensures c !in Replace(s, [c], rep)
    decreases |s|
  {
    if |s| >= 1 {
      ReplaceRemovesChar(s[1..], c, rep);
    }
  }

  /** Characters that are neither in the pattern nor in the replacement keep their count. */
  lemma {:induction false} ReplaceKeepsCount(s: string, pat: string, rep: string, x: char)
    requires pat != [] && x !in pat && x !in rep
    ensures multiset(Replace(s, pat, rep))[x] == multiset(s)[x]
    decreases |s|
  {
    if |s| < |pat| {
    } else if s[..|pat|] == pat {
      ReplaceKeepsCount(s[|pat|..], pat, rep, x);
      assert s == s[..|pat|] + s[|pat|..];
      assert multiset(s)[x] == multiset(s[..|pat|])[x] + multiset(s[|pat|..])[x];
    } else {
      ReplaceKeepsCount(s[1..], pat, rep, x);
      assert s == [s[0]] + s[1..];
    }
  }

  /** Replacing `cc` by a string without `c` leaves no two adjacent `c`. */
  lemma {:induction false} ReplaceRemovesDoubled(s: string, c: char, rep: string)
    requires c !in rep
    ensures NoDoubled(Replace(s, [c, c], rep), c)
    decreases |s|
  {
    var r := Replace(s, [c, c], rep);
    if |s| < 2 {
    } else if s[..2] == [c, c] {
      ReplaceRemovesDoubled(s[2..], c, rep);
      var rest := Replace(s[2..], [c, c], rep);
      assert r == rep + rest;
      forall i, j | 0 <= i < |r| && j == i + 1 && j < |r| ensures !(r[i] == c && r[j] == c) {
        if i < |rep| {
          assert r[i] == rep[i];
        } else {
          assert r[i] == rest[i - |rep|] && r[j] == rest[j - |rep|];
        }
      }
    } else {
      ReplaceRemovesDoubled(s[1..], c, rep);
      var t := s[1..];
      var rest := Replace(t, [c, c], rep);
      assert r == [s[0]] + rest;
      if s[0] == c && |rest| > 0 {
        assert t[0] != c;
        if |t| < 2 {
          assert rest == t;
        } else {
          assert t[..2] != [c, c];
          assert rest == [t[0]] + Replace(t[1..], [c, c], rep);
        }
        assert rest[0] != c;
      }
      forall i, j | 0 <= i < |r| && j == i + 1 && j < |r| ensures !(r[i] == c && r[j] == c) {
        if i > 0 {
          assert r[i] == rest[i - 1] && r[j] == rest[i];
        }
      }
    }
  }

  /** A single-character replacement by another character keeps "no doubled `x`". */
  lemma ReplaceCharKeepsNoDoubled(s: string, c: char, d: char, x: char)
    requires x != c && x != d && NoDoubled(s, x)
    ensures NoDoubled(Replace(s, [c], [d]), x)
  {
    ReplaceCharIsMap(s, c, d);
  }

  /** A prefix that cannot start a match passes through `replace` unchanged. */
  lemma {:induction false} ReplaceAfterPrefix(p: string, s: string, pat: string, rep: string)
    requires pat != [] && pat[0] !in p
    ensures Replace(p + s, pat, rep) == p + Replace(s, pat, rep)
    decreases |p|
  {
    if p != [] {
      var ps := p + s;
      if |ps| >= |pat| {
        assert ps[0] == p[0];
        assert ps[..|pat|] != pat;
        assert ps[1..] == p[1..] + s;
        ReplaceAfterPrefix(p[1..], s, pat, rep);
      } else {
        assert |s| < |pat|;
      }
    } else {
      assert p + s == s;
    }
  }

  /** `replace` changes nothing in a string where the pattern does not occur. */
  lemma {:induction false} ReplaceAbsent(s: string, pat: string, rep: string)
    requires pat != [] && !HasSubstring(s, pat)
    ensures Replace(s, pat, rep) == s
    decreases |s|
  {
    if |s| >= |pat| {
      assert !OccursAt(s, pat, 0);
      forall i | 0 <= i <= |s[1..]| - |pat| ensures !OccursAt(s[1..], pat, i) {
        ShiftOccurs(s, pat, i + 1);
      }
      ReplaceAbsent(s[1..], pat, rep);
    }
  }

  // ---------------------------------------------------------------------------
  // split / join

  /** `sep.join(parts)`. */
  function Join(parts: seq<string>, sep: string): string {
    if |parts| == 0 then ""
    else if |parts| == 1 then parts[0]
    else parts[0] + sep + Join(parts[1..], sep)
  }

  lemma {:induction false} JoinAppend(a: seq<string>, b: seq<string>, sep: string)
    requires a != [] && b != []
    ensures Join(a + b, sep) == Join(a, sep) + sep + Join(b, sep)
    decreases |a|
  {
    if |a| == 1 {
      assert (a + b)[1..] == b;
    } else {
      assert (a + b)[1..] == a[1..] + b;
      JoinAppend(a[1..], b, sep);
    }
  }

  /** A substring of `s` is a substring of anything that has `s` inside it. */
  lemma HasSubstringWiden(pre: string, s: string, post: string, pat: string)
    requires HasSubstring(s, pat)
    ensures HasSubstring(pre + s + post, pat)
  {
    var i :| 0 <= i <= |s| - |pat| && OccursAt(s, pat, i);
    var t := pre + s + post;
    assert t[|pre| + i..|pre| + i + |pat|] == s[i..i + |pat|];
    assert OccursAt(t, pat, |pre| + i);
  }

  /** A substring of a substring is a substring. */
  lemma HasSubstringTrans(a: string, b: string, c: string)
    requires HasSubstring(a, b) && HasSubstring(b, c)
    ensures HasSubstring(a, c)
  {
    var k :| 0 <= k <= |a| - |b| && OccursAt(a, b, k);
    assert a == a[..k] + b + a[k + |b|..];
    HasSubstringWiden(a[..k], b, a[k + |b|..], c);
  }

  lemma HasItself(s: string)
    ensures HasSubstring(s, s)
  {
    assert OccursAt(s, s, 0);
  }

  /** Every part occurs inside `sep.join(parts)`. */
  lemma {:induction false} JoinHasPart(parts: seq<string>, sep: string, i: nat)
    requires i < |parts|
    ensures HasSubstring(Join(parts, sep), parts[i])
  {
    HasItself(parts[i]);
    if |parts| == 1 {
    } else if i == 0 {
      HasSubstringWiden([], parts[0], sep + Join(parts[1..], sep), parts[0]);
      assert [] + parts[0] + (sep + Join(parts[1..], sep)) == Join(parts, sep);
    } else {
      JoinHasPart(parts[1..], sep, i - 1);
      HasSubstringWiden(parts[0] + sep, Join(parts[1..], sep), [], parts[i]);
      assert parts[0] + sep + Join(parts[1..], sep) + [] == Join(parts, sep);
    }
  }

  /** The first index of `c` in `s`. */
  function IndexOf(s: string, c: char): (i: nat)
    requires c in s
    ensures i < |s| && s[i] == c && c !in s[..i]
  {
    if s[0] == c then 0 else 1 + IndexOf(s[1..], c)
  }

  /** Python's `s.split(c)` for a one-character separator. */
  function Split(s: string, c: char): (parts: seq<string>)
    ensures |parts| >= 1
    ensures forall i :: 0 <= i < |parts| ==> c !in parts[i]
    ensures Join(parts, [c]) == s
    decreases |s|
  {
    if c !in s then [s]
    else
      var i := IndexOf(s, c);
      var rest := Split(s[i + 1..], c);
      assert ([s[..i]] + rest)[1..] == rest;
      assert s == s[..i] + [c] + s[i + 1..];
      [s[..i]] + rest
  }

  /** Splitting a join on a separator none of the parts contains gives the parts back. */
  lemma {:induction false} SplitJoin(parts: seq<string>, c: char)
    requires |parts| >= 1 && forall i :: 0 <= i < |parts| ==> c !in parts[i]
    ensures Split(Join(parts, [c]), c) == parts
    decreases |parts|
  {
    var s := Join(parts, [c]);
    if |parts| > 1 {
      var p0 := parts[0];
      var rest := Join(parts[1..], [c]);
      assert s == p0 + [c] + rest;
      assert s[|p0|] == c;
      var i := IndexOf(s, c);
      assert s[..i] == p0;
      assert s[i + 1..] == rest;
      SplitJoin(parts[1..], c);
      assert [p0] + parts[1..] == parts;
    }
  }

  /** An occurrence at `i > 0` is one at `i - 1` of the text without its first character. */
  lemma ShiftOccurs(s: string, pat: string, i: nat)
    requires 0 < i <= |s|
    ensures OccursAt(s, pat, i) <==> OccursAt(s[1..], pat, i - 1)
  {
    if i + |pat| <= |s| {
      var a := s[i..i + |pat|];
      var b := s[1..][i - 1..i - 1 + |pat|];
      forall k | 0 <= k < |pat| ensures a[k] == b[k] {
        assert a[k] == s[i + k] && b[k] == s[1..][i - 1 + k];
      }
      assert a == b;
    }
  }

  /** `s.split(pat)[0]`: everything before the first occurrence of `pat`. */
  function BeforeFirst(s: string, pat: string): (r: string)
    requires pat != []
    ensures StartsWith(s, r)
    ensures r == s || OccursAt(s, pat, |r|)
    ensures forall i :: 0 <= i < |r| ==> !OccursAt(s, pat, i)
    decreases |s|
  {
    if |s| < |pat| then s
    else if s[..|pat|] == pat then []
    else
      var r' := BeforeFirst(s[1..], pat);
      var r := [s[0]] + r';
      assert s[1..][..|r'|] == r';
      forall i | 0 <= i < |r| ensures !OccursAt(s, pat, i) {
        if i > 0 {
          assert !OccursAt(s[1..], pat, i - 1);
          ShiftOccurs(s, pat, i);
        } else {
          assert s[i..i + |pat|] == s[..|pat|];
        }
      }
      ShiftOccurs(s, pat, |r|);
      r
  }

  /** The part before the first `::` of a name none of whose characters is `:`, followed by `::` and more, is that name. */
  lemma BeforeFirstColons(d: string, rest: string)
    requires ':' !in d
    ensures BeforeFirst(d, "::") == d
    ensures BeforeFirst(d + "::" + rest, "::") == d
  {
    var s := d + "::" + rest;
    var r2 := BeforeFirst(s, "::");
    assert OccursAt(s, "::", |d|) by {
      assert s[|d|..|d| + 2] == "::";
    }
    assert s[..|r2|] == r2;
    assert |r2| <= |d|;
    forall k | 0 <= k < |d| ensures !OccursAt(s, "::", k) {
      assert s[k] == d[k];
    }
    assert |r2| == |d|;
    assert r2 == s[..|d|] == d;
  }

  // ---------------------------------------------------------------------------
  // lower, numbers

  /** `str.lower()` on ASCII letters (other characters unchanged). */
  function LowerChar(c: char): char {
    if 'A' <= c <= 'Z' then (c as int + 32) as char else c
  }

  function Lower(s: string): string {
    seq(|s|, i requires 0 <= i < |s| => LowerChar(s[i]))
  }

  function DigitChar(d: nat): char
    requires d < 10
  {
    ('0' as int + d) as char
  }

  /** `str(n)` for a natural number. */
  function NatToString(n: nat): (r: string)
    ensures r != []
  {
    if n < 10 then [DigitChar(n)] else NatToString(n / 10) + [DigitChar(n % 10)]
  }

  /** `str(n)` for an integer. */
  function IntToString(n: int): string {
    if n < 0 then "-" + NatToString(-n) else NatToString(n)
  }

  /** `str(x)` for an optional integer, `None` printing as "None". */
  function OptIntToString(x: Option<int>): string {
    match x
    case Some(n) => IntToString(n)
    case None => "None"
  }

  /** `f"{x}"` for an optional string: a missing one prints as `None`. */
  function OptStringToString(x: Option<string>): string {
    match x
    case Some(s) => s
    case None => "None"
  }

  // ---------------------------------------------------------------------------
  // os.path (POSIX)

  /** `os.path.basename(p)`: what follows the last `/`. */
  function Basename(p: string): (r: string)
    ensures '/' !in r
    ensures EndsWith(p, r)
    ensures |r| < |p| ==> p[|p| - |r| - 1] == '/'
  {
    if p == [] || p[|p| - 1] == '/' then []
    else
      var init := p[..|p| - 1];
      var r' := Basename(init);
      assert init[|init| - |r'|..] == r';
      assert p[|p| - |r'| - 1..] == init[|init| - |r'|..] + [p[|p| - 1]];
      assert |r'| < |init| ==> p[|p| - |r'| - 2] == init[|init| - |r'| - 1];
      r' + [p[|p| - 1]]
  }

  /** `os.path.dirname(p)`: the head before the basename, trailing slashes removed unless all slashes. */
  function Dirname(p: string): string {
    var head := p[..|p| - |Basename(p)|];
    if head != [] && exists i :: 0 <= i < |head| && head[i] != '/' then TrimEnd(head, c => c == '/')
    else head
  }

  /** `os.path.join(a, b)` for two components. */
  function PathJoin(a: string, b: string): string {
    if StartsWith(b, "/") then b
    else if a == [] || EndsWith(a, "/") then a + b
    else a + "/" + b
  }
}
