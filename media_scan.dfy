/**
 * The three media-reference regular expressions of the scripts, each as a
 * left-to-right scanner with Python `re.findall` semantics: at each position
 * try the pattern; on a match emit the group and continue after the match,
 * otherwise move on by one character.
 */
module MediaScan {
  import opened Text

  /** Length of the longest prefix of `s` whose characters all satisfy `ok`. */
  function RunLength(s: string, ok: char -> bool): (n: nat)
    ensures n <= |s|
    ensures forall i :: 0 <= i < n ==> ok(s[i])
    ensures n < |s| ==> !ok(s[n])
  {
    if s != [] && ok(s[0]) then 1 + RunLength(s[1..], ok) else 0
  }

  predicate NotQuote(c: char) { c != '"' }

  predicate NotBracket(c: char) { c != ']' }

  /** `[^"\'\]]` */
  predicate RefChar(c: char) { c != '"' && c != '\'' && c != ']' }

  // ---------------------------------------------------------------------------
  // src="([^"]+)"

  const SrcOpen: string := "src=\""

  /** `re.findall(r'src="([^"]+)"', s)`. */
  function SrcValues(s: string): (r: seq<string>)
    ensures forall k :: 0 <= k < |r| ==> r[k] != [] && '"' !in r[k]
    decreases |s|
  {
    if |s| < |SrcOpen| then []
    else if s[..|SrcOpen|] == SrcOpen then
      var rest := s[|SrcOpen|..];
      var n := RunLength(rest, NotQuote);
      if 0 < n < |rest| then [rest[..n]] + SrcValues(rest[n + 1..])
      else SrcValues(s[1..])
    else SrcValues(s[1..])
  }

  /** Text without an `s` cannot hold a match, so the scan passes over it. */
  lemma {:induction false} SrcValuesSkip(p: string, s: string)
    requires 's' !in p
    ensures SrcValues(p + s) == SrcValues(s)
    decreases |p|
  {
    if p != [] {
      var ps := p + s;
      assert ps[0] == p[0];
      assert ps[1..] == p[1..] + s;
      SrcValuesSkip(p[1..], s);
    } else {
      assert p + s == s;
    }
  }

  /** `<img src="v">` for each value, concatenated. */
  function ImgTags(vs: seq<string>): string {
    if vs == [] then "" else "<img " + SrcOpen + vs[0] + "\">" + ImgTags(vs[1..])
  }

  lemma SrcValuesOneTag(v: string, tail: string)
    requires v != [] && '"' !in v
    ensures SrcValues(SrcOpen + v + "\">" + tail) == [v] + SrcValues(tail)
  {
    var s := SrcOpen + v + "\">" + tail;
    var rest := s[|SrcOpen|..];
    assert s[..|SrcOpen|] == SrcOpen;
    assert rest == v + ("\">" + tail);
    RunOfQuoteFree(v, "\">" + tail);
    assert rest[..|v|] == v;
    assert rest[|v| + 1..] == ">" + tail;
    SrcValuesSkip(">", tail);
  }

  /** Scanning a page of `<img src="...">` tags gives back exactly their values, in order. */
  lemma {:induction false} SrcValuesOfImgTags(vs: seq<string>)
    requires forall k :: 0 <= k < |vs| ==> vs[k] != [] && '"' !in vs[k]
    ensures SrcValues(ImgTags(vs)) == vs
  {
    if vs != [] {
      var tail := ImgTags(vs[1..]);
      var s := SrcOpen + vs[0] + "\">" + tail;
      assert ImgTags(vs) == "<img " + s;
      SrcValuesSkip("<img ", s);
      SrcValuesOneTag(vs[0], tail);
      SrcValuesOfImgTags(vs[1..]);
      assert vs == [vs[0]] + vs[1..];
    }
  }

  lemma {:induction false} RunOfQuoteFree(v: string, t: string)
    requires '"' !in v && t != [] && t[0] == '"'
    ensures RunLength(v + t, NotQuote) == |v|
  {
    if v != [] {
      assert (v + t)[1..] == v[1..] + t;
      RunOfQuoteFree(v[1..], t);
    } else {
      assert v + t == t;
    }
  }

  // ---------------------------------------------------------------------------
  // \[sound:([^\]]+)\]

  const SoundOpen: string := "[sound:"

  /** `re.findall(r'\[sound:([^\]]+)\]', s)`. */
  function SoundRefs(s: string): (r: seq<string>)
    ensures forall k :: 0 <= k < |r| ==> r[k] != [] && ']' !in r[k]
    decreases |s|
  {
    if |s| < |SoundOpen| then []
    else if s[..|SoundOpen|] == SoundOpen then
      var rest := s[|SoundOpen|..];
      var n := RunLength(rest, NotBracket);
      if 0 < n < |rest| then [rest[..n]] + SoundRefs(rest[n + 1..])
      else SoundRefs(s[1..])
    else SoundRefs(s[1..])
  }

  lemma {:induction false} SoundRefsSkip(p: string, s: string)
    requires '[' !in p
    ensures SoundRefs(p + s) == SoundRefs(s)
    decreases |p|
  {
    if p != [] {
      var ps := p + s;
      assert ps[0] == p[0];
      assert ps[1..] == p[1..] + s;
      SoundRefsSkip(p[1..], s);
    } else {
      assert p + s == s;
    }
  }

  lemma {:induction false} RunOfBracketFree(v: string, t: string)
    requires ']' !in v && t != [] && t[0] == ']'
    ensures RunLength(v + t, NotBracket) == |v|
  {
    if v != [] {
      assert (v + t)[1..] == v[1..] + t;
      RunOfBracketFree(v[1..], t);
    } else {
      assert v + t == t;
    }
  }

  /** `[sound:x]` for each name, concatenated. */
  function SoundTags(xs: seq<string>): string {
    if xs == [] then "" else SoundOpen + xs[0] + "]" + SoundTags(xs[1..])
  }

  lemma SoundRefsOneTag(x: string, tail: string)
    requires x != [] && ']' !in x
    ensures SoundRefs(SoundOpen + x + "]" + tail) == [x] + SoundRefs(tail)
  {
    var s := SoundOpen + x + "]" + tail;
    var rest := s[|SoundOpen|..];
    assert s[..|SoundOpen|] == SoundOpen;
    assert rest == x + ("]" + tail);
    RunOfBracketFree(x, "]" + tail);
    assert rest[..|x|] == x;
    assert rest[|x| + 1..] == tail;
  }

  /** Scanning a run of `[sound:...]` tags gives back exactly their names, in order. */
  lemma {:induction false} SoundRefsOfSoundTags(xs: seq<string>)
    requires forall k :: 0 <= k < |xs| ==> xs[k] != [] && ']' !in xs[k]
    ensures SoundRefs(SoundTags(xs)) == xs
  {
    if xs != [] {
      SoundRefsOneTag(xs[0], SoundTags(xs[1..]));
      SoundRefsOfSoundTags(xs[1..]);
      assert xs == [xs[0]] + xs[1..];
    }
  }

  // ---------------------------------------------------------------------------
  // (?:src=["\']|\[sound:)([^"\'\]]+) with re.IGNORECASE

  /**
   * Case-insensitive match of one pattern character (ASCII lower case letter or
   * punctuation). Under Python's Unicode case folding `s` also matches U+017F.
   */
  predicate FoldEq(c: char, p: char) {
    c == p || ('a' <= p <= 'z' && c as int == p as int - 32) || (p == 's' && c == '\U{017F}')
  }

  predicate FoldPrefix(s: string, pat: string) {
    |pat| <= |s| && forall i :: 0 <= i < |pat| ==> FoldEq(s[i], pat[i])
  }

  /** Length of the opening `src="`, `src='` or `[sound:` at the start of `s`, if any. */
  function RefOpening(s: string): (n: nat)
    ensures n <= |s|
  {
    if FoldPrefix(s, "src=") && |s| > 4 && (s[4] == '"' || s[4] == '\'') then 5
    else if FoldPrefix(s, "[sound:") then 7
    else 0
  }

  /** `re.findall(r'(?:src=["\']|\[sound:)([^"\'\]]+)', s, re.IGNORECASE)`. */
  function ImporterRefs(s: string): (r: seq<string>)
    ensures forall k :: 0 <= k < |r| ==> r[k] != [] && forall c :: c in r[k] ==> RefChar(c)
    decreases |s|
  {
    if s == [] then []
    else
      var open := RefOpening(s);
      var rest := s[open..];
      var n := RunLength(rest, RefChar);
      if open > 0 && n > 0 then [rest[..n]] + ImporterRefs(rest[n..])
      else ImporterRefs(s[1..])
  }

  /** Text without `s`, `S`, U+017F or `[` holds no opening, so the scan passes over it. */
  lemma {:induction false} ImporterRefsSkip(p: string, s: string)
    requires forall c :: c in p ==> c != 's' && c != 'S' && c != '\U{017F}' && c != '['
    ensures ImporterRefs(p + s) == ImporterRefs(s)
    decreases |p|
  {
    if p != [] {
      var ps := p + s;
      assert ps[0] == p[0] && p[0] in p;
      assert !FoldEq(ps[0], 's') && !FoldEq(ps[0], '[');
      assert RefOpening(ps) == 0;
      assert ps[1..] == p[1..] + s;
      assert forall c :: c in p[1..] ==> c in p;
      ImporterRefsSkip(p[1..], s);
    } else {
      assert p + s == s;
    }
  }

  lemma {:induction false} RunOfRefChars(v: string, t: string)
    requires forall c :: c in v ==> RefChar(c)
    requires t != [] && !RefChar(t[0])
    ensures RunLength(v + t, RefChar) == |v|
  {
    if v != [] {
      assert (v + t)[1..] == v[1..] + t;
      RunOfRefChars(v[1..], t);
    } else {
      assert v + t == t;
    }
  }

  lemma ImporterRefsOneSoundTag(x: string, tail: string)
    requires x != [] && forall c :: c in x ==> RefChar(c)
    ensures ImporterRefs(SoundOpen + x + "]" + tail) == [x] + ImporterRefs(tail)
  {
    var s := SoundOpen + x + "]" + tail;
    assert s[0] == '[' && !FoldEq(s[0], 's');
    assert FoldPrefix(s, "[sound:");
    assert RefOpening(s) == 7;
    var rest := s[7..];
    assert rest == x + ("]" + tail);
    RunOfRefChars(x, "]" + tail);
    assert rest[..|x|] == x;
    assert rest[|x|..] == "]" + tail;
    ImporterRefsSkip("]", tail);
  }

  /** The importer's scan also finds every `[sound:x]` name. */
  lemma {:induction false} ImporterRefsOfSoundTags(xs: seq<string>)
    requires forall k :: 0 <= k < |xs| ==> xs[k] != [] && forall c :: c in xs[k] ==> RefChar(c)
    ensures ImporterRefs(SoundTags(xs)) == xs
  {
    if xs != [] {
      ImporterRefsOneSoundTag(xs[0], SoundTags(xs[1..]));
      ImporterRefsOfSoundTags(xs[1..]);
      assert xs == [xs[0]] + xs[1..];
    }
  }
}
