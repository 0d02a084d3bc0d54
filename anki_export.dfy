/**
 * `anki_export.py`: the helpers of the HTML export of a deck or a tag: the
 * card query, the tags shown, the image sources, the folder name, the
 * media downloads and the rewrite of the answer, and which extra fields
 * get a button.
 *
 * AnkiConnect's answers (`findCards`, `retrieveMediaFile`) are parameters,
 * and so is the outcome of decoding, recognising and saving a media file.
 */
module AnkiExport {
  import opened Wrappers
  import opened Text
  import opened MediaScan
  import opened Queries

  // ---------------------------------------------------------------------------
  // get_cards

  /** `get_cards(deck_name, tag)`: the card ids (none when `findCards` answers nothing), or the `ValueError`. */
  function GetCards(findCards: string -> Option<seq<int>>, deck: Option<string>, tag: Option<string>): (r: Result<seq<int>, string>)
    ensures r.Err? <==> !Truthy(tag) && !Truthy(deck)
    ensures r.Err? ==> r.error == MissingSelection
    ensures r.Ok? ==> r.value == findCards(CardQuery(deck, tag).value).GetOr([])
  {
    match CardQuery(deck, tag)
    case Err(e) => Err(e)
    case Ok(query) => Ok(findCards(query).GetOr([]))
  }

  // ---------------------------------------------------------------------------
  // extract_tags

  /** `card_data.get("tags", [])`, shown as `["-"]` when there is none. */
  function ExtractTags(tags: Option<seq<string>>): (r: seq<string>)
    ensures r != []
    ensures tags.Some? && tags.value != [] ==> r == tags.value
    ensures tags.None? || tags.value == [] ==> r == ["-"]
  {
    var ts := tags.GetOr([]);
    if ts != [] then ts else ["-"]
  }

  // ---------------------------------------------------------------------------
  // the folder name of export_to_html

  /** The name the folder is made from: the deck when there is one, else the tag (`None` when absent). */
  function FolderSource(deck: Option<string>, tag: Option<string>): string {
    if Truthy(deck) then deck.value else OptStringToString(tag)
  }

  /** `f"export_{deck_name if deck_name else tag}".replace("::", "_")`. */
  function BaseFolder(deck: Option<string>, tag: Option<string>): string {
    Replace("export_" + FolderSource(deck, tag), "::", "_")
  }

  /** The folder is `export_` followed by the name with each `::` turned into `_`. */
  lemma BaseFolderPrefix(deck: Option<string>, tag: Option<string>)
    ensures BaseFolder(deck, tag) == "export_" + Replace(FolderSource(deck, tag), "::", "_")
    ensures StartsWith(BaseFolder(deck, tag), "export_")
  {
    ReplaceAfterPrefix("export_", FolderSource(deck, tag), "::", "_");
  }

  /** No `::` is left in the folder name. */
  lemma BaseFolderNoColons(deck: Option<string>, tag: Option<string>)
    ensures !HasSubstring(BaseFolder(deck, tag), "::")
  {
    ReplaceRemovesDoubled("export_" + FolderSource(deck, tag), ':', "_");
    NoDoubledMeansNoPair(BaseFolder(deck, tag), ':');
  }

  lemma PrefixKeepsCount(p: string, t: string, x: char)
    requires x !in p
    ensures multiset(p + t)[x] == multiset(t)[x]
  {
    assert multiset(p + t) == multiset(p) + multiset(t);
  }

  /** Every space of the name is kept. */
  lemma BaseFolderKeepsSpaces(deck: Option<string>, tag: Option<string>)
    ensures multiset(BaseFolder(deck, tag))[' '] == multiset(FolderSource(deck, tag))[' ']
  {
    var name := FolderSource(deck, tag);
    BaseFolderPrefix(deck, tag);
    ReplaceKeepsCount(name, "::", "_", ' ');
    PrefixKeepsCount("export_", Replace(name, "::", "_"), ' ');
  }

  /** A name without `:` is used as it is. */
  lemma BaseFolderPlain(deck: Option<string>, tag: Option<string>)
    requires ':' !in FolderSource(deck, tag)
    ensures BaseFolder(deck, tag) == "export_" + FolderSource(deck, tag)
  {
    var name := FolderSource(deck, tag);
    BaseFolderPrefix(deck, tag);
    ReplaceAfterPrefix(name, [], "::", "_");
    assert name + [] == name;
  }

  // ---------------------------------------------------------------------------
  // download_media

  /** What happens to one `retrieveMediaFile` answer. */
  datatype Retrieved = Retrieved(
    data: Option<string>,   // the base64 text AnkiConnect returned
    decodes: bool,          // `base64.b64decode(..., validate=True)` succeeds
    isImage: bool,          // `imghdr.what` recognises the bytes
    saves: bool)            // writing the file succeeds

  /** `download_media(media_filename, media_folder)`: the path to use in the page, or None. */
  function DownloadMedia(name: string, r: Retrieved): (p: Option<string>)
    ensures p.Some? <==> Truthy(r.data) && r.decodes && r.isImage && r.saves
    ensures p.Some? ==> p.value == "media/" + name
  {
    if !Truthy(r.data) then None
    else if !r.decodes || !r.isImage || !r.saves then None
    else Some("media/" + name)
  }

  // ---------------------------------------------------------------------------
  // the answer rewrite, as written (anki_export.py:174-178)

  /** `answer = answer.replace(media_file, media_path)` for each name whose download succeeds, in turn. */
  function RewriteLoop(answer: string, names: seq<string>, retrieve: string -> Retrieved): string
    requires forall k :: 0 <= k < |names| ==> names[k] != []
    decreases |names|
  {
    if names == [] then answer
    else
      var next := match DownloadMedia(names[0], retrieve(names[0]))
        case Some(path) => Replace(answer, names[0], path)
        case None => answer;
      RewriteLoop(next, names[1..], retrieve)
  }

  /** The names whose download succeeds, in order. */
  function Succeeding(names: seq<string>, retrieve: string -> Retrieved): (r: seq<string>)
    ensures forall x :: x in r <==> x in names && DownloadMedia(x, retrieve(x)).Some?
    ensures |r| <= |names|
  {
    if names == [] then []
    else
      var rest := Succeeding(names[1..], retrieve);
      assert forall x :: x in names <==> x == names[0] || x in names[1..];
      if DownloadMedia(names[0], retrieve(names[0])).Some? then [names[0]] + rest else rest
  }

  /**
   * A name whose download fails changes nothing, wherever it stands: the
   * loop over all the names rewrites exactly as the loop over the
   * succeeding ones.
   */
  lemma {:induction false} RewriteLoopSucceeding(answer: string, names: seq<string>, retrieve: string -> Retrieved)
    requires forall k :: 0 <= k < |names| ==> names[k] != []
    ensures forall k :: 0 <= k < |Succeeding(names, retrieve)| ==> Succeeding(names, retrieve)[k] != []
    ensures RewriteLoop(answer, names, retrieve) == RewriteLoop(answer, Succeeding(names, retrieve), retrieve)
    decreases |names|
  {
    var ok := Succeeding(names, retrieve);
    forall k | 0 <= k < |ok| ensures ok[k] != [] {
      assert ok[k] in names;
    }
    if names != [] {
      var h := names[0];
      var rest := Succeeding(names[1..], retrieve);
      match DownloadMedia(h, retrieve(h))
      case Some(path) =>
        RewriteLoopSucceeding(Replace(answer, h, path), names[1..], retrieve);
        assert ok == [h] + rest;
        assert ok[1..] == rest;
      case None =>
        RewriteLoopSucceeding(answer, names[1..], retrieve);
        assert ok == rest;
    }
  }

  /** In particular, when no download succeeds the answer is unchanged. */
  lemma RewriteLoopNoSuccess(answer: string, names: seq<string>, retrieve: string -> Retrieved)
    requires forall k :: 0 <= k < |names| ==> names[k] != []
    requires forall k :: 0 <= k < |names| ==> DownloadMedia(names[k], retrieve(names[k])).None?
    ensures RewriteLoop(answer, names, retrieve) == answer
  {
    RewriteLoopSucceeding(answer, names, retrieve);
    assert forall x :: x in names ==> DownloadMedia(x, retrieve(x)).None?;
    assert |Succeeding(names, retrieve)| == 0;
  }

  /** The rewrite loop of `export_to_html`, over the sources of the answer. */
  method RewriteAnswerAsWritten(answer: string, retrieve: string -> Retrieved) returns (r: string)
    ensures r == RewriteLoop(answer, SrcValues(answer), retrieve)
  {
    var mediaFiles := SrcValues(answer);
    r := answer;
    var i := 0;
    while i < |mediaFiles|
      invariant 0 <= i <= |mediaFiles|
      invariant RewriteLoop(r, mediaFiles[i..], retrieve) == RewriteLoop(answer, mediaFiles, retrieve)
    {
      assert mediaFiles[i..][0] == mediaFiles[i] && mediaFiles[i..][1..] == mediaFiles[i + 1..];
      var mediaPath := DownloadMedia(mediaFiles[i], retrieve(mediaFiles[i]));
      if mediaPath.Some? {
        r := Replace(r, mediaFiles[i], mediaPath.value);
      }
      i := i + 1;
    }
  }

  /** Replacing a single character works piece by piece. */
  lemma {:induction false} ReplaceCharConcat(a: string, b: string, c: char, rep: string)
    ensures Replace(a + b, [c], rep) == Replace(a, [c], rep) + Replace(b, [c], rep)
    decreases |a|
  {
    if a == [] {
      assert a + b == b;
    } else {
      assert (a + b)[1..] == a[1..] + b;
      assert (a + b)[..1] == a[..1];
      ReplaceCharConcat(a[1..], b, c, rep);
    }
  }

  /** A page of one `<img src="v">` per value, where the one-letter name `x` occurs only as a whole value. */
  lemma ReplaceInImgTags(vs: seq<string>, x: char, rep: string)
    requires x !in "<img src=\"\">"
    ensures Replace(ImgTags(vs), [x], rep) == ImgTags(ReplaceEach(vs, x, rep))
    decreases |vs|
  {
    if vs != [] {
      var open := "<img " + SrcOpen;
      assert x !in open;
      ReplaceCharConcat(open + vs[0] + "\">", ImgTags(vs[1..]), x, rep);
      ReplaceCharConcat(open + vs[0], "\">", x, rep);
      ReplaceCharConcat(open, vs[0], x, rep);
      ReplaceAfterPrefix(open, [], [x], rep);
      ReplaceAfterPrefix("\">", [], [x], rep);
      assert open + [] == open && "\">" + [] == "\">";
      ReplaceInImgTags(vs[1..], x, rep);
      assert ReplaceEach(vs, x, rep)[1..] == ReplaceEach(vs[1..], x, rep);
    }
  }

  function ReplaceEach(vs: seq<string>, x: char, rep: string): (r: seq<string>)
    ensures |r| == |vs|
    ensures forall k :: 0 <= k < |vs| ==> r[k] == Replace(vs[k], [x], rep)
  {
    seq(|vs|, k requires 0 <= k < |vs| => Replace(vs[k], [x], rep))
  }

  /** Every download succeeds. */
  function AllSucceed(name: string): Retrieved {
    Retrieved(Some("AA=="), true, true, true)
  }

  /** A one-letter image name that occurs nowhere in the markup or in `media/`, such as `x`. */
  predicate Letter(c: char) {
    c !in "<img src=\"\">" && c !in "media/"
  }

  /** The first pass over `<img src="x"><img src="x">` rewrites both tags. */
  lemma FirstPass(c: char)
    requires Letter(c)
    ensures Replace(ImgTags([[c], [c]]), [c], "media/" + [c]) == ImgTags(["media/" + [c], "media/" + [c]])
  {
    var w := "media/" + [c];
    ReplaceInImgTags([[c], [c]], c, w);
    assert Replace([c], [c], w) == w;
    assert ReplaceEach([[c], [c]], c, w) == [w, w];
  }

  /** A second pass for the same name rewrites the rewritten tags again. */
  lemma SecondPass(c: char)
    requires Letter(c)
    ensures Replace(ImgTags(["media/" + [c], "media/" + [c]]), [c], "media/" + [c])
      == ImgTags(["media/media/" + [c], "media/media/" + [c]])
  {
    var w := "media/" + [c];
    ReplaceInImgTags([w, w], c, w);
    ReplaceAfterPrefix("media/", [c], [c], w);
    assert Replace([c], [c], w) == w;
    assert "media/" + w == "media/media/" + [c];
    assert ReplaceEach([w, w], c, w) == ["media/media/" + [c], "media/media/" + [c]];
  }

  /**
   * An image referenced twice, such as `<img src="x"><img src="x">`, with
   * both downloads succeeding: the second pass of the loop rewrites the
   * already rewritten `media/x`, and both sources end up as `media/media/x`.
   */
  lemma RewriteLoopDoubles(c: char)
    requires Letter(c)
    ensures SrcValues(ImgTags([[c], [c]])) == [[c], [c]]
    ensures SrcValues(RewriteLoop(ImgTags([[c], [c]]), [[c], [c]], AllSucceed))
      == ["media/media/" + [c], "media/media/" + [c]]
  {
    var x := [c];
    var w := "media/" + x;
    SrcValuesOfImgTags([x, x]);
    var page := ImgTags([x, x]);
    var once := ImgTags([w, w]);
    var twice := ImgTags(["media/media/" + x, "media/media/" + x]);
    FirstPass(c);
    SecondPass(c);
    assert DownloadMedia(x, AllSucceed(x)) == Some(w);
    assert [x, x][1..] == [x] && [x][1..] == [];
    assert RewriteLoop(page, [x, x], AllSucceed) == RewriteLoop(once, [x], AllSucceed);
    assert RewriteLoop(once, [x], AllSucceed) == RewriteLoop(twice, [], AllSucceed);
    SrcValuesOfImgTags(["media/media/" + x, "media/media/" + x]);
  }

  // ---------------------------------------------------------------------------
  // the answer rewrite, corrected: each source once, where it stands

  /** Rewrites the value of each `src="v"` the scan of `SrcValues` finds to `path(v)` when there is one. */
  function RewriteSrcs(s: string, path: string -> Option<string>): string
    decreases |s|
  {
    if |s| < |SrcOpen| then s
    else if s[..|SrcOpen|] == SrcOpen then
      var rest := s[|SrcOpen|..];
      var n := RunLength(rest, NotQuote);
      if 0 < n < |rest| then SrcOpen + path(rest[..n]).GetOr(rest[..n]) + "\"" + RewriteSrcs(rest[n + 1..], path)
      else [s[0]] + RewriteSrcs(s[1..], path)
    else [s[0]] + RewriteSrcs(s[1..], path)
  }

  /** The rewrite leaves the first four characters alone. */
  lemma {:induction false} RewriteSrcsHead(t: string, path: string -> Option<string>)
    requires |t| >= 4
    ensures |RewriteSrcs(t, path)| >= 4 && RewriteSrcs(t, path)[..4] == t[..4]
    decreases |t|
  {
    if |t| >= |SrcOpen| && !(t[..|SrcOpen|] == SrcOpen && 0 < RunLength(t[|SrcOpen|..], NotQuote) < |t| - |SrcOpen|) {
      if |t| - 1 >= 4 {
        RewriteSrcsHead(t[1..], path);
      }
    }
  }

  lemma {:induction false} RewriteSrcsNoQuote(t: string, path: string -> Option<string>)
    requires '"' !in t
    ensures RewriteSrcs(t, path) == t
    decreases |t|
  {
    if |t| >= |SrcOpen| {
      assert t[..|SrcOpen|][4] == t[4];
      RewriteSrcsNoQuote(t[1..], path);
      assert [t[0]] + t[1..] == t;
    }
  }

  /** A first character other than `s` is copied as it is. */
  lemma RewriteSrcsPlainHead(s: string, path: string -> Option<string>)
    requires s != [] && s[0] != 's'
    ensures RewriteSrcs(s, path) == [s[0]] + RewriteSrcs(s[1..], path)
  {
    if |s| >= |SrcOpen| {
      assert s[..|SrcOpen|][0] == s[0];
    }
  }

  /** Text without an `s` cannot start a source, so the rewrite passes over it. */
  lemma {:induction false} RewriteSrcsAfterPrefix(p: string, t: string, path: string -> Option<string>)
    requires 's' !in p
    ensures RewriteSrcs(p + t, path) == p + RewriteSrcs(t, path)
    decreases |p|
  {
    if p != [] {
      var pt := p + t;
      assert pt[0] == p[0];
      assert pt[1..] == p[1..] + t;
      RewriteSrcsPlainHead(pt, path);
      RewriteSrcsAfterPrefix(p[1..], t, path);
      var r := RewriteSrcs(t, path);
      assert [p[0]] + (p[1..] + r) == p + r by {
        assert [p[0]] + p[1..] == p;
      }
    } else {
      assert p + t == t;
    }
  }

  lemma SrcValuesQuoted(p: string, tail: string)
    requires p != [] && '"' !in p
    ensures SrcValues(SrcOpen + p + "\"" + tail) == [p] + SrcValues(tail)
  {
    var s := SrcOpen + p + "\"" + tail;
    var rest := s[|SrcOpen|..];
    assert s[..|SrcOpen|] == SrcOpen;
    assert rest == p + ("\"" + tail);
    RunOfQuoteFree(p, "\"" + tail);
    assert rest[..|p|] == p;
    assert rest[|p| + 1..] == tail;
  }

  /** The values left after the rewrite: `path(v)` where there is one, `v` otherwise. */
  function Rewritten(vs: seq<string>, path: string -> Option<string>): (r: seq<string>)
    ensures |r| == |vs|
    ensures forall k :: 0 <= k < |vs| ==> r[k] == path(vs[k]).GetOr(vs[k])
  {
    seq(|vs|, k requires 0 <= k < |vs| => path(vs[k]).GetOr(vs[k]))
  }

  /** A substitute path is itself a source value. */
  ghost predicate PathsAreValues(path: string -> Option<string>) {
    forall v :: path(v).Some? ==> path(v).value != [] && '"' !in path(v).value
  }

  /** Scanning the rewritten text finds each source of the original once, replaced by its path. */
  lemma {:induction false} RewriteSrcsValues(s: string, path: string -> Option<string>)
    requires PathsAreValues(path)
    ensures SrcValues(RewriteSrcs(s, path)) == Rewritten(SrcValues(s), path)
    decreases |s|
  {
    if SourceAtStart(s) {
      RewriteSrcsValues(SourceTail(s), path);
      MatchStep(s, path);
    } else if |s| >= |SrcOpen| {
      RewriteSrcsValues(s[1..], path);
      SkipStep(s, path);
    }
  }

  /** What follows the source found at the start of `s`. */
  function SourceTail(s: string): string
    requires SourceAtStart(s)
  {
    var rest := s[|SrcOpen|..];
    rest[RunLength(rest, NotQuote) + 1..]
  }

  lemma MatchStep(s: string, path: string -> Option<string>)
    requires PathsAreValues(path) && SourceAtStart(s)
    requires SrcValues(RewriteSrcs(SourceTail(s), path)) == Rewritten(SrcValues(SourceTail(s)), path)
    ensures SrcValues(RewriteSrcs(s, path)) == Rewritten(SrcValues(s), path)
  {
    var rest := s[|SrcOpen|..];
    var n := RunLength(rest, NotQuote);
    var v := rest[..n];
    var p := path(v).GetOr(v);
    var tail := SourceTail(s);
    assert RewriteSrcs(s, path) == SrcOpen + p + "\"" + RewriteSrcs(tail, path);
    SrcValuesQuoted(p, RewriteSrcs(tail, path));
    assert SrcValues(s) == [v] + SrcValues(tail);
    assert Rewritten([v] + SrcValues(tail), path) == [p] + Rewritten(SrcValues(tail), path);
  }

  lemma SkipStep(s: string, path: string -> Option<string>)
    requires |s| >= |SrcOpen| && !SourceAtStart(s)
    requires SrcValues(RewriteSrcs(s[1..], path)) == Rewritten(SrcValues(s[1..]), path)
    ensures SrcValues(RewriteSrcs(s, path)) == Rewritten(SrcValues(s), path)
  {
    var out := RewriteSrcs(s, path);
    assert out == [s[0]] + RewriteSrcs(s[1..], path);
    assert SrcValues(s) == SrcValues(s[1..]);
    NoMatchAtStart(s, path);
    assert SrcValues(out) == SrcValues(out[1..]);
    assert out[1..] == RewriteSrcs(s[1..], path);
  }

  /** What the scan of `SrcValues` finds at the start of `s`: a source, or nothing. */
  predicate SourceAtStart(s: string) {
    |s| >= |SrcOpen| && s[..|SrcOpen|] == SrcOpen && 0 < RunLength(s[|SrcOpen|..], NotQuote) < |s| - |SrcOpen|
  }

  /** Text not starting with `src="` keeps not starting with it after the first character. */
  lemma NoMatchPlain(s: string, path: string -> Option<string>)
    requires |s| >= |SrcOpen| && s[..|SrcOpen|] != SrcOpen
    ensures var out := [s[0]] + RewriteSrcs(s[1..], path);
      |out| >= |SrcOpen| && out[..|SrcOpen|] != SrcOpen
  {
    var out := [s[0]] + RewriteSrcs(s[1..], path);
    RewriteSrcsHead(s[1..], path);
    assert out[..|SrcOpen|] == [s[0]] + RewriteSrcs(s[1..], path)[..4];
    assert s[..|SrcOpen|] == [s[0]] + s[1..][..4];
  }

  /** An empty or unterminated `src="` stays so after the rewrite. */
  lemma NoMatchFailed(s: string, path: string -> Option<string>)
    requires |s| >= |SrcOpen| && s[..|SrcOpen|] == SrcOpen && !SourceAtStart(s)
    ensures var out := [s[0]] + RewriteSrcs(s[1..], path);
      out == SrcOpen + RewriteSrcs(s[|SrcOpen|..], path) && !SourceAtStart(out)
  {
    var rest := s[|SrcOpen|..];
    var out := [s[0]] + RewriteSrcs(s[1..], path);
    assert s[1..] == "rc=\"" + rest;
    RewriteSrcsAfterPrefix("rc=\"", rest, path);
    assert out == SrcOpen + RewriteSrcs(rest, path);
    var r := RewriteSrcs(rest, path);
    assert out[..|SrcOpen|] == SrcOpen && out[|SrcOpen|..] == r;
    if '"' !in rest {
      RewriteSrcsNoQuote(rest, path);
    } else {
      assert RunLength(rest, NotQuote) == 0;
      if |rest| >= 4 {
        RewriteSrcsHead(rest, path);
        assert r[0] == r[..4][0];
      }
    }
  }

  /** Where the scan of `s` finds no source at its start, neither does the scan of the rewrite. */
  lemma NoMatchAtStart(s: string, path: string -> Option<string>)
    requires |s| >= |SrcOpen| && !SourceAtStart(s)
    ensures var out := [s[0]] + RewriteSrcs(s[1..], path);
      |out| >= |SrcOpen| && !SourceAtStart(out)
  {
    if s[..|SrcOpen|] == SrcOpen {
      NoMatchFailed(s, path);
    } else {
      NoMatchPlain(s, path);
    }
  }

  /** The text with the value of every source the scan finds emptied: what a rewrite must keep. */
  function Erased(s: string): string {
    RewriteSrcs(s, (v: string) => Some(""))
  }

  /** The rewrite of a source written out. */
  lemma RewriteSrcsQuoted(p: string, tail: string, path: string -> Option<string>)
    requires p != [] && '"' !in p
    ensures RewriteSrcs(SrcOpen + p + "\"" + tail, path) == SrcOpen + path(p).GetOr(p) + "\"" + RewriteSrcs(tail, path)
  {
    var s := SrcOpen + p + "\"" + tail;
    var rest := s[|SrcOpen|..];
    assert s[..|SrcOpen|] == SrcOpen;
    assert rest == p + ("\"" + tail);
    RunOfQuoteFree(p, "\"" + tail);
    assert rest[..|p|] == p;
    assert rest[|p| + 1..] == tail;
  }

  /** `s` is its first source written out, then the text after it. */
  lemma SourceSplit(s: string)
    requires SourceAtStart(s)
    ensures var rest := s[|SrcOpen|..];
      s == SrcOpen + rest[..RunLength(rest, NotQuote)] + "\"" + SourceTail(s)
  {
    var rest := s[|SrcOpen|..];
    var n := RunLength(rest, NotQuote);
    assert rest == rest[..n] + [rest[n]] + rest[n + 1..];
    assert s == s[..|SrcOpen|] + rest;
  }

  /** Outside the source values, the rewrite changes nothing. */
  lemma {:induction false} RewriteSrcsFrame(s: string, path: string -> Option<string>)
    requires PathsAreValues(path)
    ensures Erased(RewriteSrcs(s, path)) == Erased(s)
    decreases |s|
  {
    var erase := (v: string) => Some("");
    if SourceAtStart(s) {
      var rest := s[|SrcOpen|..];
      var v := rest[..RunLength(rest, NotQuote)];
      var tail := SourceTail(s);
      RewriteSrcsFrame(tail, path);
      SourceSplit(s);
      RewriteSrcsQuoted(v, tail, path);
      RewriteSrcsQuoted(v, tail, erase);
      RewriteSrcsQuoted(path(v).GetOr(v), RewriteSrcs(tail, path), erase);
    } else if |s| >= |SrcOpen| {
      RewriteSrcsFrame(s[1..], path);
      var out := RewriteSrcs(s, path);
      assert out == [s[0]] + RewriteSrcs(s[1..], path);
      NoMatchAtStart(s, path);
      assert out[1..] == RewriteSrcs(s[1..], path);
      assert Erased(out) == [out[0]] + Erased(out[1..]);
      assert Erased(s) == [s[0]] + Erased(s[1..]);
    }
  }

  /** Where no source has a new path, the rewrite gives the text back unchanged. */
  lemma {:induction false} RewriteSrcsUnchanged(s: string, path: string -> Option<string>)
    requires forall v :: v in SrcValues(s) ==> path(v).None?
    ensures RewriteSrcs(s, path) == s
    decreases |s|
  {
    if SourceAtStart(s) {
      var rest := s[|SrcOpen|..];
      var v := rest[..RunLength(rest, NotQuote)];
      var tail := SourceTail(s);
      assert SrcValues(s) == [v] + SrcValues(tail);
      assert path(v).GetOr(v) == v by {
        assert v in SrcValues(s);
      }
      RewriteSrcsUnchanged(tail, path);
      SourceSplit(s);
      RewriteSrcsQuoted(v, tail, path);
    } else if |s| >= |SrcOpen| {
      assert SrcValues(s) == SrcValues(s[1..]);
      RewriteSrcsUnchanged(s[1..], path);
      assert s == [s[0]] + s[1..];
    }
  }

  /** The path each source takes on the page. */
  function DownloadPath(retrieve: string -> Retrieved): string -> Option<string> {
    (v: string) => if v != [] && '"' !in v then DownloadMedia(v, retrieve(v)) else None
  }

  /** The answer with each of its sources pointing at its downloaded copy. */
  function RewriteAnswer(answer: string, retrieve: string -> Retrieved): string {
    RewriteSrcs(answer, DownloadPath(retrieve))
  }

  /**
   * Every source of the answer is rewritten once: it becomes `media/v` when
   * its download succeeds and stays `v` otherwise, and no other source
   * appears.
   */
  lemma RewriteAnswerSources(answer: string, retrieve: string -> Retrieved)
    ensures |SrcValues(RewriteAnswer(answer, retrieve))| == |SrcValues(answer)|
    ensures forall k :: 0 <= k < |SrcValues(answer)| ==>
      var v := SrcValues(answer)[k];
      SrcValues(RewriteAnswer(answer, retrieve))[k]
        == if DownloadMedia(v, retrieve(v)).Some? then "media/" + v else v
    ensures Erased(RewriteAnswer(answer, retrieve)) == Erased(answer)
    ensures (forall v :: v in SrcValues(answer) ==> DownloadMedia(v, retrieve(v)).None?) ==>
      RewriteAnswer(answer, retrieve) == answer
  {
    var path := DownloadPath(retrieve);
    forall v | path(v).Some? ensures path(v).value != [] && '"' !in path(v).value {
      assert v != [] && '"' !in v;
      assert path(v) == DownloadMedia(v, retrieve(v));
      assert path(v).value == "media/" + v;
    }
    RewriteSrcsValues(answer, path);
    RewriteSrcsFrame(answer, path);
    if forall v :: v in SrcValues(answer) ==> DownloadMedia(v, retrieve(v)).None? {
      forall v | v in SrcValues(answer) ensures path(v).None? {
        assert v != [] && '"' !in v;
      }
      RewriteSrcsUnchanged(answer, path);
    }
  }

  /** With every download succeeding, the twice-referenced image becomes `media/x` both times. */
  lemma RewriteAnswerOnce(c: char)
    requires Letter(c)
    ensures SrcValues(RewriteAnswer(ImgTags([[c], [c]]), AllSucceed)) == ["media/" + [c], "media/" + [c]]
  {
    var x := [c];
    var page := ImgTags([x, x]);
    var out := RewriteAnswer(page, AllSucceed);
    SrcValuesOfImgTags([x, x]);
    RewriteAnswerSources(page, AllSucceed);
    assert DownloadMedia(x, AllSucceed(x)) == Some("media/" + x);
    assert SrcValues(out)[0] == "media/" + x && SrcValues(out)[1] == "media/" + x;
  }

  // ---------------------------------------------------------------------------
  // the extra fields of a card (anki_export.py:189-194)

  /** `field_content.get("value", "").strip()`. */
  function FieldText(value: Option<string>): string {
    Strip(value.GetOr(""))
  }

  /**
   * A field gets a button unless it is blank, already in `answer`, or the
   * card's front; `answer` is the answer after the media rewrite and the
   * button strip.
   */
  predicate ShowExtraField(name: string, value: Option<string>, answer: string) {
    var text := FieldText(value);
    text != [] && !HasSubstring(answer, text) && Lower(name) != "front" && Lower(name) != "question"
  }

  /**
   * A field whose stripped value, or whole value, appears in the answer, or that is blank,
   * or that is named `front`/`question` in any case, never gets a button.
   */
  lemma ExtraFieldHidden(name: string, value: Option<string>, answer: string)
    ensures HasSubstring(answer, FieldText(value)) ==> !ShowExtraField(name, value, answer)
    ensures HasSubstring(answer, value.GetOr("")) ==> !ShowExtraField(name, value, answer)
    ensures IsBlank(value.GetOr("")) ==> !ShowExtraField(name, value, answer)
    ensures Lower(name) == "front" || Lower(name) == "question" ==> !ShowExtraField(name, value, answer)
  {
    var raw := value.GetOr("");
    var text := FieldText(value);
    var k :| OccursAt(raw, text, k);
    assert HasSubstring(raw, text) by {
      assert 0 <= k <= |raw| - |text|;
    }
    if HasSubstring(answer, raw) {
      HasSubstringTrans(answer, raw, text);
    }
  }
}
