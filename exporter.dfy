/**
 * `anki_exporter.py`: exporting the notes selected by a deck or a tag to a
 * JSON records list, downloading every referenced media file at most once
 * per run.
 *
 * AnkiConnect's answers (`findCards`, `cardsToNotes`, `notesInfo`,
 * `retrieveMediaFile`) and BeautifulSoup's list of `src` attributes are
 * parameters; a failed request is modelled by its empty answer.
 */
module Exporter {
  import opened Wrappers
  import opened Text
  import opened Collections
  import opened MediaScan
  import opened Json
  import opened Queries

  // ---------------------------------------------------------------------------
  // folder name

  const FallbackFolder: string := "anki_export"

  predicate IsUnderscore(c: char) { c == '_' }

  /**
   * `f"export_{deck_name if deck_name else tag}".replace("::", "_").replace(" ", "_").strip('_')`,
   * falling back to `anki_export` when empty.
   */
  function ExportFolderName(deck: Option<string>, tag: Option<string>): string {
    var name := if Truthy(deck) then deck.value else OptStringToString(tag);
    var s := Replace(Replace("export_" + name, "::", "_"), " ", "_");
    var r := Trim(s, IsUnderscore);
    if r == [] then FallbackFolder else r
  }

  /**
   * For a deck name without `::` whose last character is neither a space nor
   * `_`, the folder is `export_` followed by the name with its spaces as `_`.
   */
  lemma ExportFolderNameOfDeck(d: string, tag: Option<string>, folder: string)
    requires d != [] && d[|d| - 1] != ' ' && d[|d| - 1] != '_'
    requires !HasSubstring(d, "::")
    requires folder == "export_" + Replace(d, " ", "_")
    ensures ExportFolderName(Some(d), tag) == folder
  {
    KeptNameReplaced(d, folder);
    KeptNameTrimmed(d, folder);
    FolderFromSteps(d, tag, folder);
  }

  /** With no `::` in the name, the two replacements only turn its spaces into `_`. */
  lemma KeptNameReplaced(d: string, folder: string)
    requires !HasSubstring(d, "::")
    requires folder == "export_" + Replace(d, " ", "_")
    ensures Replace(Replace("export_" + d, "::", "_"), " ", "_") == folder
  {
    var s0 := "export_" + d;
    assert Replace(s0, "::", "_") == s0 by {
      ReplaceAbsent(d, "::", "_");
      ReplaceAfterPrefix("export_", d, "::", "_");
    }
    ReplaceAfterPrefix("export_", d, " ", "_");
  }

  /** A folder name ending in a kept character loses nothing to `strip('_')`. */
  lemma KeptNameTrimmed(d: string, folder: string)
    requires d != [] && d[|d| - 1] != ' ' && d[|d| - 1] != '_'
    requires folder == "export_" + Replace(d, " ", "_")
    ensures folder != [] && Trim(folder, IsUnderscore) == folder
  {
    var u := Replace(d, " ", "_");
    ReplaceCharIsMap(d, ' ', '_');
    assert folder[0] == 'e' && folder[|folder| - 1] == u[|u| - 1] == d[|d| - 1];
    TrimUnchanged(folder, IsUnderscore);
  }

  /** `ExportFolderName` for a non-empty deck, from its replace and strip steps. */
  lemma FolderFromSteps(d: string, tag: Option<string>, folder: string)
    requires d != [] && folder != []
    requires Replace(Replace("export_" + d, "::", "_"), " ", "_") == folder
    requires Trim(folder, IsUnderscore) == folder
    ensures ExportFolderName(Some(d), tag) == folder
  {
    assert Truthy(Some(d));
  }

  /**
   * The folder name starts with `export` (so the fallback is never taken),
   * contains no space and no `::`.
   */
  lemma ExportFolderNameShape(deck: Option<string>, tag: Option<string>)
    ensures StartsWith(ExportFolderName(deck, tag), "export")
    ensures ' ' !in ExportFolderName(deck, tag)
    ensures !HasSubstring(ExportFolderName(deck, tag), "::")
  {
    var name := if Truthy(deck) then deck.value else OptStringToString(tag);
    var s0 := "export_" + name;
    var s1 := Replace(s0, "::", "_");
    var s2 := Replace(s1, " ", "_");
    ReplaceAfterPrefix("export_", name, "::", "_");
    ReplaceAfterPrefix("export_", Replace(name, "::", "_"), " ", "_");
    assert s2 == "export" + ("_" + Replace(Replace(name, "::", "_"), " ", "_"));
    TrimKeepsPrefix("export", "_" + Replace(Replace(name, "::", "_"), " ", "_"), IsUnderscore);
    var r := Trim(s2, IsUnderscore);
    assert r != [];
    ReplaceRemovesChar(s1, ' ', "_");
    ReplaceRemovesDoubled(s0, ':', "_");
    ReplaceCharKeepsNoDoubled(s1, ' ', '_', ':');
    TrimKeepsNoDoubled(s2, IsUnderscore, ':');
    NoDoubledMeansNoPair(r, ':');
  }

  // ---------------------------------------------------------------------------
  // media names of one field

  /** `os.path.basename` of every non-empty value, in order. */
  function NameCandidates(vals: seq<string>): seq<string> {
    if vals == [] then []
    else
      var last := vals[|vals| - 1];
      NameCandidates(vals[..|vals| - 1]) + (if last != [] then [Basename(last)] else [])
  }

  /** Every candidate is the basename of a non-empty value. */
  lemma {:induction false} NameCandidatesFrom(vals: seq<string>, x: string)
    requires x in NameCandidates(vals)
    ensures exists v :: v in vals && v != [] && x == Basename(v)
  {
    var init := vals[..|vals| - 1];
    var last := vals[|vals| - 1];
    var tail := if last != [] then [Basename(last)] else [];
    assert NameCandidates(vals) == NameCandidates(init) + tail;
    if x in NameCandidates(init) {
      NameCandidatesFrom(init, x);
      var v :| v in init && v != [] && x == Basename(v);
      assert v in vals;
    } else {
      assert x in tail;
      assert last in vals;
    }
  }

  /** Every non-empty value contributes its basename. */
  lemma {:induction false} NameCandidatesHas(vals: seq<string>, v: string)
    requires v in vals && v != []
    ensures Basename(v) in NameCandidates(vals)
  {
    var init := vals[..|vals| - 1];
    var last := vals[|vals| - 1];
    var tail := if last != [] then [Basename(last)] else [];
    assert NameCandidates(vals) == NameCandidates(init) + tail;
    if v != last {
      assert vals == init + [last];
      assert v in init;
      NameCandidatesHas(init, v);
    }
  }

  /**
   * `extract_media_filenames_from_html(html)`, given the `src` values of the
   * page's `img`/`audio`/`video`/`source` tags: the basenames of the
   * non-empty ones and of every `[sound:...]` name, each once.
   */
  function MediaNames(html: string, srcs: seq<string>): seq<string> {
    Dedup(NameCandidates(srcs + SoundRefs(html)))
  }

  /**
   * The names have no duplicates and no `/`; every non-empty `src` and every
   * `[sound:x]` contributes its basename, and nothing else is returned.
   */
  lemma MediaNamesProperties(html: string, srcs: seq<string>)
    ensures NoDups(MediaNames(html, srcs))
    ensures forall i :: 0 <= i < |MediaNames(html, srcs)| ==> '/' !in MediaNames(html, srcs)[i]
    ensures forall v :: v in srcs && v != [] ==> Basename(v) in MediaNames(html, srcs)
    ensures forall v :: v in SoundRefs(html) ==> Basename(v) in MediaNames(html, srcs)
    ensures forall i :: 0 <= i < |MediaNames(html, srcs)| ==>
      exists v :: v in srcs + SoundRefs(html) && v != [] && MediaNames(html, srcs)[i] == Basename(v)
  {
    var vals := srcs + SoundRefs(html);
    var c := NameCandidates(vals);
    var r := MediaNames(html, srcs);
    forall v | v in vals && v != [] ensures Basename(v) in r {
      NameCandidatesHas(vals, v);
      var j :| 0 <= j < |c| && c[j] == Basename(v);
    }
    forall v | v in SoundRefs(html) ensures Basename(v) in r {
      assert v in vals && v != [];
    }
    forall i | 0 <= i < |r| ensures exists v :: v in vals && v != [] && r[i] == Basename(v) {
      assert r[i] in c;
      NameCandidatesFrom(vals, r[i]);
    }
    forall i | 0 <= i < |r| ensures '/' !in r[i] {
      assert r[i] in c;
      NameCandidatesFrom(vals, r[i]);
    }
  }

  /** `found_files.add(name)` on the list of names found so far. */
  method AddName(found: seq<string>, v: string) returns (r: seq<string>)
    ensures r == if v != [] && Basename(v) !in found then found + [Basename(v)] else found
  {
    r := found;
    if v != [] {
      var clean := Basename(v);
      if clean !in r {
        r := r + [clean];
      }
    }
  }

  lemma DedupSnoc<T>(s: seq<T>, x: T)
    ensures Dedup(s + [x]) == if x in Dedup(s) then Dedup(s) else Dedup(s) + [x]
  {
    assert (s + [x])[..|s|] == s;
  }

  lemma NameCandidatesSnoc(vals: seq<string>, v: string)
    ensures NameCandidates(vals + [v]) == NameCandidates(vals) + (if v != [] then [Basename(v)] else [])
  {
    assert (vals + [v])[..|vals|] == vals;
  }

  lemma AddNameStep(vals: seq<string>, v: string, found: seq<string>)
    requires found == Dedup(NameCandidates(vals))
    ensures (if v != [] && Basename(v) !in found then found + [Basename(v)] else found)
      == Dedup(NameCandidates(vals + [v]))
  {
    NameCandidatesSnoc(vals, v);
    if v != [] {
      assert NameCandidates(vals + [v]) == NameCandidates(vals) + [Basename(v)];
      DedupSnoc(NameCandidates(vals), Basename(v));
    } else {
      assert NameCandidates(vals + [v]) == NameCandidates(vals) + [];
      assert NameCandidates(vals) + [] == NameCandidates(vals);
    }
  }

  lemma ConcatPrefixSnoc<T>(done: seq<T>, more: seq<T>, i: nat)
    requires i < |more|
    ensures done + more[..i + 1] == (done + more[..i]) + [more[i]]
  {
    assert more[..i + 1] == more[..i] + [more[i]];
  }

  /** One extraction loop: the names of `more` added to those of `done`. */
  method AddNames(found: seq<string>, ghost done: seq<string>, more: seq<string>) returns (r: seq<string>)
    requires found == Dedup(NameCandidates(done))
    ensures r == Dedup(NameCandidates(done + more))
  {
    r := found;
    var i := 0;
    ghost var seen := done;
    assert more[..0] == [];
    while i < |more|
      invariant 0 <= i <= |more|
      invariant seen == done + more[..i]
      invariant r == Dedup(NameCandidates(seen))
    {
      AddNameStep(seen, more[i], r);
      ConcatPrefixSnoc(done, more, i);
      r := AddName(r, more[i]);
      seen := seen + [more[i]];
      i := i + 1;
    }
    assert more[..i] == more;
  }

  /** The two extraction loops of `extract_media_filenames_from_html`. */
  method ExtractMediaFilenames(html: string, srcs: seq<string>) returns (names: seq<string>)
    ensures names == MediaNames(html, srcs)
  {
    assert [] + srcs == srcs;
    names := AddNames([], [], srcs);
    names := AddNames(names, srcs, SoundRefs(html));
  }

  // ---------------------------------------------------------------------------
  // download_media

  /**
   * What happened to one `retrieveMediaFile` request: the returned data (None
   * when the request failed), whether it base64-decoded, and whether the
   * file could be written.
   */
  datatype Fetched = Fetched(data: Option<string>, decodes: bool, saves: bool)

  /** `download_media(name, folder)`: the name on success, None on any failure. */
  function DownloadMedia(name: string, f: Fetched): (r: Option<string>)
    ensures r.Some? <==> f.data.Some? && f.data.value != [] && f.decodes && f.saves
    ensures r.Some? ==> r.value == name
  {
    if f.data.None? then None
    else if f.data.value == [] then None
    else if !f.decodes then None
    else if !f.saves then None
    else Some(name)
  }

  // ---------------------------------------------------------------------------
  // the run-wide download cache

  /**
   * `downloaded_media_filenames`, with a log of every download attempt in
   * order (the name and whether it succeeded).
   */
  datatype Cache = Cache(downloaded: set<string>, attempts: seq<(string, bool)>)

  const EmptyCache: Cache := Cache({}, [])

  /** The oracle: the outcome of the `n`-th request of the run, for a name. */
  type Fetcher = (string, nat) -> Fetched

  /** One reference to a media name (the body of the loop at anki_exporter.py:231-244). */
  function CacheStep(fetch: Fetcher, c: Cache, name: string): (r: Cache)
    ensures name == [] || name in c.downloaded ==> r == c
    ensures name != [] && name !in c.downloaded ==>
      |r.attempts| == |c.attempts| + 1 && r.attempts[..|c.attempts|] == c.attempts
      && r.attempts[|c.attempts|].0 == name
      && r.downloaded == (if r.attempts[|c.attempts|].1 then c.downloaded + {name} else c.downloaded)
  {
    if name == [] || name in c.downloaded then c
    else
      match DownloadMedia(name, fetch(name, |c.attempts|))
      case Some(saved) => Cache(c.downloaded + {saved}, c.attempts + [(name, true)])
      case None => Cache(c.downloaded, c.attempts + [(name, false)])
  }

  /** Every name in turn. */
  function CacheRun(fetch: Fetcher, c: Cache, names: seq<string>): Cache
    decreases |names|
  {
    if names == [] then c else CacheRun(fetch, CacheStep(fetch, c, names[0]), names[1..])
  }

  /**
   * The cache's promise: a name is downloaded exactly when one of its
   * attempts succeeded, a name is never requested again after it succeeded,
   * and the empty name is never requested.
   */
  ghost predicate CacheConsistent(c: Cache) {
    (forall n :: n in c.downloaded <==> (n, true) in c.attempts)
    && (forall i, j :: 0 <= i < j < |c.attempts| && c.attempts[i].1 ==> c.attempts[j].0 != c.attempts[i].0)
    && (forall i :: 0 <= i < |c.attempts| ==> c.attempts[i].0 != [])
  }

  lemma CacheStepConsistent(fetch: Fetcher, c: Cache, name: string)
    requires CacheConsistent(c)
    ensures CacheConsistent(CacheStep(fetch, c, name))
  {
    var r := CacheStep(fetch, c, name);
    if name != [] && name !in c.downloaded {
      var a := r.attempts;
      var k := |c.attempts|;
      assert (name, true) !in c.attempts;
      forall i, j | 0 <= i < j < |a| && a[i].1 ensures a[j].0 != a[i].0 {
        if j == k {
          assert a[i] == c.attempts[i];
          assert a[i] != (name, true);
        } else {
          assert a[i] == c.attempts[i] && a[j] == c.attempts[j];
        }
      }
      forall n ensures n in r.downloaded <==> (n, true) in a {
        assert a == c.attempts + [a[k]];
        assert (n, true) in a <==> (n, true) in c.attempts || (n, true) == a[k];
      }
    }
  }

  lemma {:induction false} CacheRunConsistent(fetch: Fetcher, c: Cache, names: seq<string>)
    requires CacheConsistent(c)
    ensures CacheConsistent(CacheRun(fetch, c, names))
    decreases |names|
  {
    if names != [] {
      CacheStepConsistent(fetch, c, names[0]);
      CacheRunConsistent(fetch, CacheStep(fetch, c, names[0]), names[1..]);
    }
  }

  /** The cache only grows, and the log only gets longer. */
  lemma {:induction false} CacheRunGrows(fetch: Fetcher, c: Cache, names: seq<string>)
    ensures c.downloaded <= CacheRun(fetch, c, names).downloaded
    ensures c.attempts <= CacheRun(fetch, c, names).attempts
    decreases |names|
  {
    if names != [] {
      CacheRunGrows(fetch, CacheStep(fetch, c, names[0]), names[1..]);
    }
  }

  /**
   * A name whose every earlier attempt failed (or that was never tried) is
   * requested again on its next reference.
   */
  lemma RetryAfterFailure(fetch: Fetcher, c: Cache, name: string)
    requires CacheConsistent(c) && name != []
    requires forall i :: 0 <= i < |c.attempts| && c.attempts[i].0 == name ==> !c.attempts[i].1
    ensures |CacheStep(fetch, c, name).attempts| == |c.attempts| + 1
    ensures CacheStep(fetch, c, name).attempts[|c.attempts|].0 == name
  {
    if name in c.downloaded {
      assert false;
    }
  }

  /** After a run, every non-empty name referenced was downloaded or at least requested. */
  lemma {:induction false} CacheRunCovers(fetch: Fetcher, c: Cache, names: seq<string>, k: nat)
    requires CacheConsistent(c)
    requires k < |names| && names[k] != []
    ensures exists i :: 0 <= i < |CacheRun(fetch, c, names).attempts| && CacheRun(fetch, c, names).attempts[i].0 == names[k]
    decreases |names|
  {
    var c' := CacheStep(fetch, c, names[0]);
    CacheStepConsistent(fetch, c, names[0]);
    if k == 0 {
      var n := names[0];
      var i: nat;
      if n in c.downloaded {
        i :| 0 <= i < |c.attempts| && c.attempts[i] == (n, true);
      } else {
        i := |c.attempts|;
      }
      assert i < |c'.attempts| && c'.attempts[i].0 == n;
      CacheRunGrows(fetch, c', names[1..]);
      var final := CacheRun(fetch, c', names[1..]);
      assert final == CacheRun(fetch, c, names);
      assert c'.attempts <= final.attempts;
      assert final.attempts[i] == c'.attempts[i];
    } else {
      CacheRunCovers(fetch, c', names[1..], k - 1);
      assert names[1..][k - 1] == names[k];
      assert CacheRun(fetch, c', names[1..]) == CacheRun(fetch, c, names);
    }
  }

  // ---------------------------------------------------------------------------
  // one note

  /** One entry of a note's `fields`: its `value`, absent when the key is missing. */
  datatype FieldInfo = FieldInfo(value: Option<FieldValue>)

  /** What `notesInfo` reports for a note; the `fields` default `{}` is the empty list. */
  datatype NoteInfo = NoteInfo(modelName: Option<string>, tags: Option<seq<string>>, fields: seq<(string, FieldInfo)>)

  /** One element of `exported_notes_data`. */
  datatype Record = Record(noteId: int, modelName: string, tags: seq<string>, fields: seq<(string, FieldValue)>)

  /** The value a field entry contributes: `field_info.get("value", "")`. */
  function InfoValue(fi: FieldInfo): FieldValue {
    fi.value.GetOr(Str(""))
  }

  /** `fields_dict[name] = value` for every entry with a non-empty name, starting from `acc`. */
  function AddFields(acc: seq<(string, FieldValue)>, fields: seq<(string, FieldInfo)>): seq<(string, FieldValue)>
    decreases |fields|
  {
    if fields == [] then acc
    else
      var acc' := if fields[0].0 != [] then DictSet(acc, fields[0].0, InfoValue(fields[0].1)) else acc;
      AddFields(acc', fields[1..])
  }

  function FieldsDict(fields: seq<(string, FieldInfo)>): seq<(string, FieldValue)> {
    AddFields([], fields)
  }

  lemma {:induction false} AddFieldsGet(acc: seq<(string, FieldValue)>, fields: seq<(string, FieldInfo)>, k: string)
    requires DistinctKeys(fields)
    ensures Get(AddFields(acc, fields), k) ==
      if k != [] && k in Keys(fields) then Some(InfoValue(Get(fields, k).value)) else Get(acc, k)
    decreases |fields|
  {
    if fields != [] {
      var name := fields[0].0;
      var acc' := if name != [] then DictSet(acc, name, InfoValue(fields[0].1)) else acc;
      assert Keys(fields) == [name] + Keys(fields[1..]);
      assert DistinctKeys(fields[1..]) by {
        assert Keys(fields[1..]) == Keys(fields)[1..];
      }
      AddFieldsGet(acc', fields[1..], k);
      if name != [] && name != k {
        DictSetOther(acc, name, InfoValue(fields[0].1), k);
      }
      if k == name && k != [] {
        assert k !in Keys(fields[1..]) by {
          forall i | 0 <= i < |Keys(fields[1..])| ensures Keys(fields[1..])[i] != k {
            assert Keys(fields)[i + 1] == Keys(fields[1..])[i];
          }
        }
      }
    }
  }

  /**
   * The fields dict holds, for every non-empty field name, the field's
   * `value` (default `""`), and nothing for the empty name or for a name the
   * note does not have.
   */
  lemma FieldsDictGet(fields: seq<(string, FieldInfo)>, k: string)
    requires DistinctKeys(fields)
    ensures Get(FieldsDict(fields), k) ==
      if k != [] && k in Keys(fields) then Some(InfoValue(Get(fields, k).value)) else None
  {
    AddFieldsGet([], fields, k);
  }

  /** The record exported for a note, or None when the note is skipped. */
  function NoteRecord(id: int, info: Option<NoteInfo>): (r: Option<Record>)
    ensures r.Some? <==> info.Some? && Truthy(info.value.modelName) && FieldsDict(info.value.fields) != []
    ensures r.Some? ==>
      && r.value.noteId == id && Some(r.value.modelName) == info.value.modelName
      && r.value.tags == info.value.tags.GetOr([]) && r.value.fields == FieldsDict(info.value.fields)
  {
    match info
    case None => None
    case Some(n) =>
      if !Truthy(n.modelName) then None
      else
        var fd := FieldsDict(n.fields);
        if fd == [] then None else Some(Record(id, n.modelName.value, n.tags.GetOr([]), fd))
  }

  /** Everything AnkiConnect and the HTML parser answer during one export. */
  datatype ExportEnv = ExportEnv(
    findCards: string -> seq<int>,
    cardsToNotes: seq<int> -> seq<int>,
    noteInfo: int -> Option<NoteInfo>,
    srcs: string -> seq<string>,
    fetch: Fetcher)

  /** The media names a field value references; only non-blank strings are scanned. */
  function FieldRefs(env: ExportEnv, v: FieldValue): seq<string> {
    match v
    case Str(t) => if IsBlank(t) then [] else MediaNames(t, env.srcs(t))
    case NonStr => []
  }

  /** The media loop over a note's fields dict. */
  function FieldsMedia(env: ExportEnv, c: Cache, fd: seq<(string, FieldValue)>): Cache
    decreases |fd|
  {
    if fd == [] then c else FieldsMedia(env, CacheRun(env.fetch, c, FieldRefs(env, fd[0].1)), fd[1..])
  }

  lemma {:induction false} FieldsMediaConsistent(env: ExportEnv, c: Cache, fd: seq<(string, FieldValue)>)
    requires CacheConsistent(c)
    ensures CacheConsistent(FieldsMedia(env, c, fd))
    decreases |fd|
  {
    if fd != [] {
      CacheRunConsistent(env.fetch, c, FieldRefs(env, fd[0].1));
      FieldsMediaConsistent(env, CacheRun(env.fetch, c, FieldRefs(env, fd[0].1)), fd[1..]);
    }
  }

  // ---------------------------------------------------------------------------
  // the export loop

  datatype ExportState = ExportState(records: seq<Record>, cache: Cache)

  function ExportStep(env: ExportEnv, st: ExportState, id: int): ExportState {
    match NoteRecord(id, env.noteInfo(id))
    case None => st
    case Some(rec) => ExportState(st.records + [rec], FieldsMedia(env, st.cache, rec.fields))
  }

  function ExportRun(env: ExportEnv, st: ExportState, ids: seq<int>): ExportState
    decreases |ids|
  {
    if ids == [] then st else ExportRun(env, ExportStep(env, st, ids[0]), ids[1..])
  }

  /** The records of the notes that are not skipped, in id order. */
  function NoteRecords(env: ExportEnv, ids: seq<int>): (r: seq<Record>)
    ensures forall k :: 0 <= k < |r| ==> r[k].noteId in ids
  {
    if ids == [] then []
    else
      var rest := NoteRecords(env, ids[1..]);
      match NoteRecord(ids[0], env.noteInfo(ids[0]))
      case None => rest
      case Some(rec) => [rec] + rest
  }

  /** The records do not depend on the downloads: they are the kept notes' records. */
  lemma {:induction false} ExportRunRecords(env: ExportEnv, st: ExportState, ids: seq<int>)
    ensures ExportRun(env, st, ids).records == st.records + NoteRecords(env, ids)
    decreases |ids|
  {
    if ids != [] {
      ExportRunRecords(env, ExportStep(env, st, ids[0]), ids[1..]);
    }
  }

  /** Distinct ids give records with distinct ids: no note is exported twice. */
  lemma {:induction false} NoteRecordsDistinct(env: ExportEnv, ids: seq<int>)
    requires NoDups(ids)
    ensures forall i, j :: 0 <= i < j < |NoteRecords(env, ids)| ==> NoteRecords(env, ids)[i].noteId != NoteRecords(env, ids)[j].noteId
  {
    if ids != [] {
      assert NoDups(ids[1..]);
      NoteRecordsDistinct(env, ids[1..]);
      var rest := NoteRecords(env, ids[1..]);
      assert ids[0] !in ids[1..];
      forall k | 0 <= k < |rest| ensures rest[k].noteId != ids[0] {
        assert rest[k].noteId in ids[1..];
      }
    }
  }

  lemma {:induction false} ExportRunConsistent(env: ExportEnv, st: ExportState, ids: seq<int>)
    requires CacheConsistent(st.cache)
    ensures CacheConsistent(ExportRun(env, st, ids).cache)
    decreases |ids|
  {
    if ids != [] {
      var st' := ExportStep(env, st, ids[0]);
      var rec := NoteRecord(ids[0], env.noteInfo(ids[0]));
      if rec.Some? {
        FieldsMediaConsistent(env, st.cache, rec.value.fields);
      }
      ExportRunConsistent(env, st', ids[1..]);
    }
  }

  /** How `export_anki_data_to_json` ends. */
  datatype Outcome =
    | QueryError(message: string)
    | NoCards
    | NoNotes
    | Exported(folder: string, records: seq<Record>, cache: Cache)

  function ExportSpec(env: ExportEnv, deck: Option<string>, tag: Option<string>): Outcome {
    match CardQuery(deck, tag)
    case Err(e) => QueryError(e)
    case Ok(q) =>
      var cards := env.findCards(q);
      if cards == [] then NoCards
      else
        var noteIds := env.cardsToNotes(cards);
        if noteIds == [] then NoNotes
        else
          var st := ExportRun(env, ExportState([], EmptyCache), Dedup(noteIds));
          Exported(ExportFolderName(deck, tag), st.records, st.cache)
  }

  /**
   * An export writes one record per kept note of the deduplicated note ids,
   * never two records for one note, and leaves a consistent download cache.
   */
  lemma ExportSpecProperties(env: ExportEnv, deck: Option<string>, tag: Option<string>)
    requires ExportSpec(env, deck, tag).Exported?
    ensures var out := ExportSpec(env, deck, tag);
      var noteIds := env.cardsToNotes(env.findCards(CardQuery(deck, tag).value));
      out.records == NoteRecords(env, Dedup(noteIds))
      && (forall i, j :: 0 <= i < j < |out.records| ==> out.records[i].noteId != out.records[j].noteId)
      && (forall i :: 0 <= i < |out.records| ==> out.records[i].noteId in noteIds)
      && CacheConsistent(out.cache)
  {
    var q := CardQuery(deck, tag).value;
    var noteIds := env.cardsToNotes(env.findCards(q));
    var ids := Dedup(noteIds);
    var st0 := ExportState([], EmptyCache);
    ExportRunRecords(env, st0, ids);
    NoteRecordsDistinct(env, ids);
    ExportRunConsistent(env, st0, ids);
    assert ExportRun(env, st0, ids).records == NoteRecords(env, ids);
  }

  // ---------------------------------------------------------------------------
  // the methods

  /** The loop of anki_exporter.py:213-217. */
  method BuildFieldsDict(fields: seq<(string, FieldInfo)>) returns (fd: seq<(string, FieldValue)>)
    ensures fd == FieldsDict(fields)
  {
    fd := [];
    var i := 0;
    while i < |fields|
      invariant 0 <= i <= |fields|
      invariant AddFields(fd, fields[i..]) == FieldsDict(fields)
    {
      assert fields[i..][1..] == fields[i + 1..];
      var (name, info) := fields[i];
      var value := info.value.GetOr(Str(""));
      if name != [] {
        fd := DictSet(fd, name, value);
      }
      i := i + 1;
    }
  }

  /** The inner loop of anki_exporter.py:231-244 over one field's media names. */
  method DownloadNames(fetch: Fetcher, c: Cache, names: seq<string>) returns (r: Cache)
    ensures r == CacheRun(fetch, c, names)
  {
    r := c;
    var j := 0;
    while j < |names|
      invariant 0 <= j <= |names|
      invariant CacheRun(fetch, r, names[j..]) == CacheRun(fetch, c, names)
    {
      assert names[j..][1..] == names[j + 1..];
      var name := names[j];
      if name != [] && name !in r.downloaded {
        var saved := DownloadMedia(name, fetch(name, |r.attempts|));
        if saved.Some? {
          r := Cache(r.downloaded + {saved.value}, r.attempts + [(name, true)]);
        } else {
          r := Cache(r.downloaded, r.attempts + [(name, false)]);
        }
      }
      j := j + 1;
    }
  }

  /** The media loop of anki_exporter.py:226-244 over one note's fields. */
  method DownloadNoteMedia(env: ExportEnv, c: Cache, fd: seq<(string, FieldValue)>) returns (r: Cache)
    ensures r == FieldsMedia(env, c, fd)
  {
    r := c;
    var i := 0;
    while i < |fd|
      invariant 0 <= i <= |fd|
      invariant FieldsMedia(env, r, fd[i..]) == FieldsMedia(env, c, fd)
    {
      assert fd[i..][1..] == fd[i + 1..];
      var value := fd[i].1;
      if value.Str? && !IsBlank(value.text) {
        var names := ExtractMediaFilenames(value.text, env.srcs(value.text));
        r := DownloadNames(env.fetch, r, names);
      }
      i := i + 1;
    }
  }

  /** The body of the note loop, anki_exporter.py:201-251. */
  method ExportNote(env: ExportEnv, records: seq<Record>, cache: Cache, id: int) returns (records': seq<Record>, cache': Cache)
    ensures ExportState(records', cache') == ExportStep(env, ExportState(records, cache), id)
  {
    records', cache' := records, cache;
    var info := env.noteInfo(id);
    if info.Some? && Truthy(info.value.modelName) {
      var fd := BuildFieldsDict(info.value.fields);
      if fd != [] {
        cache' := DownloadNoteMedia(env, cache, fd);
        records' := records + [Record(id, info.value.modelName.value, info.value.tags.GetOr([]), fd)];
      }
    }
  }

  /** `export_anki_data_to_json(deck_name, tag)` without the file writes. */
  method ExportAnkiDataToJson(env: ExportEnv, deck: Option<string>, tag: Option<string>) returns (out: Outcome)
    ensures out == ExportSpec(env, deck, tag)
  {
    var query := CardQuery(deck, tag);
    if query.Err? {
      return QueryError(query.error);
    }
    var cardIds := env.findCards(query.value);
    if cardIds == [] {
      return NoCards;
    }
    var noteIdsRaw := env.cardsToNotes(cardIds);
    if noteIdsRaw == [] {
      return NoNotes;
    }
    var ids := Dedup(noteIdsRaw);
    var folder := ExportFolderName(deck, tag);
    var records: seq<Record> := [];
    var cache := EmptyCache;
    var i := 0;
    while i < |ids|
      invariant 0 <= i <= |ids|
      invariant ExportRun(env, ExportState(records, cache), ids[i..]) == ExportRun(env, ExportState([], EmptyCache), ids)
    {
      assert ids[i..][1..] == ids[i + 1..];
      records, cache := ExportNote(env, records, cache, ids[i]);
      i := i + 1;
    }
    out := Exported(folder, records, cache);
  }
}
