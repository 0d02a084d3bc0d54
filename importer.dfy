/**
 * `anki_importer.py`: turning an exported notes list back into the contents
 * of an Anki package (deck id and name, note models, packaged notes and the
 * media files to bundle).
 *
 * SHA-1, `genanki.guid_for` and the existence of media files are parameters
 * (`Env`); writing the package file is not modelled.
 */
module Importer {
  import opened Wrappers
  import opened Text
  import opened Collections
  import opened Order
  import opened MediaScan
  import opened Ids
  import opened Json
  import Exporter

  /**
   * One entry of the notes list; `tags` and `fields` hold the `.get` defaults
   * (`[]`, `{}`) when the keys are absent.
   */
  datatype ImportNote = ImportNote(
    noteId: Option<int>,
    modelName: Option<string>,
    tags: seq<string>,
    fields: seq<(string, FieldValue)>)

  datatype Templates = Templates(qfmt: string, afmt: string, css: string)

  datatype Model = Model(id: nat, name: string, fieldNames: seq<string>, templates: Templates)

  datatype PackagedNote = PackagedNote(modelName: string, values: seq<FieldValue>, tags: seq<string>, guid: string)

  /** What the loop over the notes has built so far. */
  datatype State = State(models: map<string, Model>, notes: seq<PackagedNote>, media: set<string>)

  /** What goes into the `.apkg` file. */
  datatype Package = Package(deckId: nat, deckName: string, models: map<string, Model>, notes: seq<PackagedNote>, media: set<string>)

  /** The outside world: the hash, the note GUID function, the media folder and the files in it. */
  datatype Env = Env(sha1: string -> HexDigest, guidFor: string -> string, mediaFolder: string, existing: set<string>)

  // ---------------------------------------------------------------------------
  // deck name and ids

  const FallbackDeckName: string := "Reimported Anki Deck"

  /** The deck name from the export folder's name: `export_` removed, `_` as spaces, stripped. */
  function DeckNameFromFolder(folder: string): (r: string)
    ensures r != []
    ensures '_' !in r
    ensures r == FallbackDeckName || (!IsSpace(r[0]) && !IsSpace(r[|r| - 1]))
  {
    var spaced := Replace(Replace(folder, "export_", ""), "_", " ");
    ReplaceRemovesChar(Replace(folder, "export_", ""), '_', " ");
    var d := Strip(spaced);
    if d == [] then FallbackDeckName else d
  }

  /** Where `d` has no `_` and no `export `, its spaces turned to `_` contain no `export_`. */
  lemma UnderscoredHasNoPrefix(d: string)
    requires '_' !in d && !HasSubstring(d, "export ")
    ensures !HasSubstring(Replace(d, " ", "_"), "export_")
  {
    var u := Replace(d, " ", "_");
    ReplaceCharIsMap(d, ' ', '_');
    forall i | 0 <= i <= |u| - 7 ensures !OccursAt(u, "export_", i) {
      if OccursAt(u, "export_", i) {
        forall k | 0 <= k < 7 ensures d[i + k] == "export "[k] {
          assert u[i + k] == u[i..i + 7][k];
        }
        assert d[i..i + 7] == "export ";
        assert OccursAt(d, "export ", i);
        assert false;
      }
    }
  }

  /** The importer reads a folder `export_` + `d` with spaces as `_` back as `d`. */
  lemma DeckNameFromUnderscored(d: string, folder: string)
    requires d != [] && !IsSpace(d[0]) && !IsSpace(d[|d| - 1])
    requires '_' !in d && !HasSubstring(d, "export ")
    requires folder == "export_" + Replace(d, " ", "_")
    ensures DeckNameFromFolder(folder) == d
  {
    UnderscoredPrefixDropped(d, folder);
    UnderscoresBack(d);
    TrimUnchanged(d, IsSpace);
  }

  /** Removing `export_` from such a folder leaves the underscored name. */
  lemma UnderscoredPrefixDropped(d: string, folder: string)
    requires '_' !in d && !HasSubstring(d, "export ")
    requires folder == "export_" + Replace(d, " ", "_")
    ensures Replace(folder, "export_", "") == Replace(d, " ", "_")
  {
    var u := Replace(d, " ", "_");
    assert folder[..7] == "export_" && folder[7..] == u;
    UnderscoredHasNoPrefix(d);
    ReplaceAbsent(u, "export_", "");
  }

  /** Spaces turned to `_` and back give the name again when it had no `_` of its own. */
  lemma UnderscoresBack(d: string)
    requires '_' !in d
    ensures Replace(Replace(d, " ", "_"), "_", " ") == d
  {
    var u := Replace(d, " ", "_");
    ReplaceCharIsMap(d, ' ', '_');
    ReplaceCharIsMap(u, '_', ' ');
    var back := Replace(u, "_", " ");
    forall i | 0 <= i < |d| ensures back[i] == d[i] {
      assert d[i] != '_';
    }
  }

  /**
   * Round trip with the exporter: a deck name without `_`, `::` or `export `
   * and with no space at either end comes back from the folder it is exported
   * to; spaces inside it become `_` and then spaces again.
   */
  lemma DeckNameRoundTrip(d: string, tag: Option<string>)
    requires d != [] && !IsSpace(d[0]) && !IsSpace(d[|d| - 1])
    requires '_' !in d
    requires !HasSubstring(d, "::") && !HasSubstring(d, "export ")
    ensures DeckNameFromFolder(Exporter.ExportFolderName(Some(d), tag)) == d
  {
    var folder := "export_" + Replace(d, " ", "_");
    Exporter.ExportFolderNameOfDeck(d, tag, folder);
    DeckNameFromUnderscored(d, folder);
  }

  /** The deck name from the notes file's path: the name of the folder holding it. */
  function DeckName(jsonPath: string): (r: string)
    ensures r != [] && '_' !in r
  {
    DeckNameFromFolder(Basename(Dirname(jsonPath)))
  }

  /** The model hash input: the model name followed by its sorted field names, comma-separated. */
  function ModelHashInput(name: string, fieldNames: seq<string>): string {
    name + Join(Sort(fieldNames), ",")
  }

  /** A model's id does not depend on the order in which the first note listed its fields. */
  lemma ModelIdPermutationInvariant(sha1: string -> HexDigest, name: string, a: seq<string>, b: seq<string>)
    requires multiset(a) == multiset(b)
    ensures ModelHashInput(name, a) == ModelHashInput(name, b)
    ensures GenerateId(sha1, ModelHashInput(name, a)) == GenerateId(sha1, ModelHashInput(name, b))
  {
    SortPermutationInvariant(a, b);
  }

  // ---------------------------------------------------------------------------
  // templates

  /** One entry of the built-in template table, read with `.get`. */
  datatype TemplateEntry = TemplateEntry(front: Option<string>, back: Option<string>, styling: Option<string>)

  const JlabFront: string := "{{Audio}}<br>\n{{Image}}<br><br>\n{{furigana:Jlab-ListeningFront}}<br><br>\n<div class=kanjipopup>{{furigana:Other-Front}}</div>\n<p style=\"font-size:50%;color=#C4C4C4\">Наведите/нажмите на кандзи, чтобы показать <a href=\"https://www.japanese-like-a-breeze.com/dont-learn-kanji-readings\">фуригану</a><p>{{RemarksFront}}\n<p style=\"font-size:70%;color:grey\">Источник этой карточки: {{Source}}<br>Измените текст с помощью <a href = \"https://www.japanese-like-a-breeze.com/addon-manual/\">дополнения Jlab (2110939339)</a> или <a href = \"https://www.japanese-like-a-breeze.com/course-without-addon/\">без дополнения</a>.</p>\n<p style=\"font-size:70%; color:grey\">Версия вашей колоды: <strong>{{Version}}</strong><br> Проверьте обновления <a href = \"https://www.japanese-like-a-breeze.com/guide-for-beginners/\">здесь.</a></p>\n<p style=\"font-size:70%; color:grey\">Вы можете поддержать Jlab на <a href=\"https://www.patreon.com/jlabjapanese/\">Patreon</a> - спасибо!</p><br>"
  const JlabBack: string := "<div style=\"text-align: left;\">{{RemarksBack}}<br>\n{{Jlab-Remarks}}<br>\nСсылки:<br>\n{{References}}<br>\n{{Other-Back}}<br>\n<p style=\"font-size:70%;color:grey\">Что-то неясно? Задайте вопрос, связанный с этой карточкой, используя эту {{QuestionLink}}.</p>\n<p style=\"font-size:70%; color:grey\">Вы можете поддержать Jlab на <a href=\"https://www.patreon.com/jlabjapanese/\">Patreon</a> - спасибо!</p></div>"
  const JlabStyling: string := ".card {\n font-family: arial;\n font-size: 20px;\n max-width: 800px;\n text-align: center;\n margin-left: auto;\n margin-right: auto;\n}\n.kanjipopup {\n font-family: arial;\n font-size: 20px;\n text-align: center;\n}\n.kanjipopup ruby rt { visibility: hidden; }\n.kanjipopup ruby:active rt { visibility: visible; }\n.kanjipopup ruby:hover rt { visibility: visible; }"
  const InfoFront: string := "{{Image}}<br>{{Text}}"
  const InfoBack: string := "{{FrontSide}}"
  const InfoStyling: string := ".card {\n font-family: arial;\n font-size: 20px;\n max-width: 800px;\n text-align: left;\n margin-left: auto;\n margin-right: auto;\n color: black;\n background-color: white;\n}"

  /** `ANKI_CARD_TEMPLATES.get(name, {})`. */
  function BuiltInTemplates(name: string): TemplateEntry {
    if name == "JlabNote-JlabConverted-1" then TemplateEntry(Some(JlabFront), Some(JlabBack), Some(JlabStyling))
    else if name == "InfoNote" then TemplateEntry(Some(InfoFront), Some(InfoBack), Some(InfoStyling))
    else TemplateEntry(None, None, None)
  }

  function Placeholder(name: string): string {
    "{{" + name + "}}"
  }

  function Placeholders(names: seq<string>): (ps: seq<string>)
    ensures |ps| == |names| && forall i :: 0 <= i < |names| ==> ps[i] == Placeholder(names[i])
  {
    if names == [] then [] else [Placeholder(names[0])] + Placeholders(names[1..])
  }

  const AnswerSeparator: string := "{{FrontSide}}<hr id=\"answer\">"
  const GenericStyling: string := ".card { font-family: arial; font-size: 20px; text-align: center; color: black; background-color: white; }"

  /** The generic card: every field on the front, the front again and every field on the back. */
  function GenericTemplates(fieldNames: seq<string>): Templates {
    var front := Join(Placeholders(fieldNames), "<br>");
    Templates(front, AnswerSeparator + front, GenericStyling)
  }

  /** The generic templates show every field, on both sides, and the back starts with the front. */
  lemma GenericTemplatesShowEveryField(fieldNames: seq<string>, i: nat)
    requires i < |fieldNames|
    ensures StartsWith(GenericTemplates(fieldNames).afmt, AnswerSeparator)
    ensures HasSubstring(GenericTemplates(fieldNames).qfmt, Placeholder(fieldNames[i]))
    ensures HasSubstring(GenericTemplates(fieldNames).afmt, Placeholder(fieldNames[i]))
  {
    var t := GenericTemplates(fieldNames);
    JoinHasPart(Placeholders(fieldNames), "<br>", i);
    HasSubstringWiden(AnswerSeparator, t.qfmt, [], Placeholder(fieldNames[i]));
    assert AnswerSeparator + t.qfmt + [] == t.afmt;
    assert t.afmt[..|AnswerSeparator|] == AnswerSeparator;
  }

  /** The built-in templates when all three parts are non-empty, the generic ones otherwise. */
  function ChooseTemplates(name: string, fieldNames: seq<string>): (t: Templates)
    ensures name == "JlabNote-JlabConverted-1" ==> t == Templates(JlabFront, JlabBack, JlabStyling)
    ensures name == "InfoNote" ==> t == Templates(InfoFront, InfoBack, InfoStyling)
    ensures name != "JlabNote-JlabConverted-1" && name != "InfoNote" ==> t == GenericTemplates(fieldNames)
  {
    var e := BuiltInTemplates(name);
    var q := e.front.GetOr("");
    var a := e.back.GetOr("");
    var c := e.styling.GetOr("");
    if q == "" || a == "" || c == "" then GenericTemplates(fieldNames) else Templates(q, a, c)
  }

  function NewModel(sha1: string -> HexDigest, name: string, fieldNames: seq<string>): Model {
    Model(GenerateId(sha1, ModelHashInput(name, fieldNames)), name, fieldNames, ChooseTemplates(name, fieldNames))
  }

  // ---------------------------------------------------------------------------
  // field order

  /** `[fields.get(name, "") for name in model fields]`. */
  function OrderedValues(schema: seq<string>, fields: seq<(string, FieldValue)>): (vs: seq<FieldValue>)
    ensures |vs| == |schema|
    ensures forall i :: 0 <= i < |schema| ==> vs[i] == Get(fields, schema[i]).GetOr(Str(""))
  {
    if schema == [] then [] else [Get(fields, schema[0]).GetOr(Str(""))] + OrderedValues(schema[1..], fields)
  }

  /** The note that defined a model gets its own values back, in its own order. */
  lemma OrderedValuesOfOwnKeys(fields: seq<(string, FieldValue)>)
    requires DistinctKeys(fields)
    ensures OrderedValues(Keys(fields), fields) == Values(fields)
  {
    forall i | 0 <= i < |fields| ensures OrderedValues(Keys(fields), fields)[i] == Values(fields)[i] {
      GetAt(fields, i);
    }
  }

  // ---------------------------------------------------------------------------
  // media

  /** `os.path.join(media_folder, os.path.basename(ref))` for each reference, in order. */
  function MediaPaths(folder: string, refs: seq<string>): (r: seq<string>)
    ensures |r| == |refs|
    ensures forall k :: 0 <= k < |refs| ==> r[k] == PathJoin(folder, Basename(refs[k]))
  {
    if refs == [] then []
    else MediaPaths(folder, refs[..|refs| - 1]) + [PathJoin(folder, Basename(refs[|refs| - 1]))]
  }

  /** The candidate paths whose file exists. */
  function ExistingPaths(paths: seq<string>, existing: set<string>): set<string> {
    if paths == [] then {}
    else
      var last := paths[|paths| - 1];
      ExistingPaths(paths[..|paths| - 1], existing) + (if last in existing then {last} else {})
  }

  lemma {:induction false} ExistingPathsMembers(paths: seq<string>, existing: set<string>, p: string)
    ensures p in ExistingPaths(paths, existing) <==> p in existing && p in paths
  {
    if paths != [] {
      var init := paths[..|paths| - 1];
      ExistingPathsMembers(init, existing, p);
      assert paths == init + [paths[|paths| - 1]];
    }
  }

  /** The existing files `media_folder/basename(ref)` for the given references. */
  function RefPaths(refs: seq<string>, folder: string, existing: set<string>): set<string> {
    ExistingPaths(MediaPaths(folder, refs), existing)
  }

  lemma RefPathsMembers(refs: seq<string>, folder: string, existing: set<string>, p: string)
    ensures p in RefPaths(refs, folder, existing) <==>
      p in existing && exists k :: 0 <= k < |refs| && p == PathJoin(folder, Basename(refs[k]))
  {
    var paths := MediaPaths(folder, refs);
    ExistingPathsMembers(paths, existing, p);
    assert p in paths <==> exists k :: 0 <= k < |paths| && paths[k] == p;
  }

  /** The media collected from one note's ordered values (string values only). */
  function ValuesMedia(values: seq<FieldValue>, folder: string, existing: set<string>): set<string> {
    if values == [] then {}
    else
      var last := values[|values| - 1];
      ValuesMedia(values[..|values| - 1], folder, existing)
      + (if last.Str? then RefPaths(ImporterRefs(last.text), folder, existing) else {})
  }

  /** A path is collected exactly when some string value's references produce it. */
  lemma {:induction false} ValuesMediaMembers(values: seq<FieldValue>, folder: string, existing: set<string>, p: string)
    ensures p in ValuesMedia(values, folder, existing) <==>
      exists j :: 0 <= j < |values| && ValueMedia(values[j], folder, existing, p)
  {
    if values != [] {
      var init := values[..|values| - 1];
      var last := values[|values| - 1];
      ValuesMediaMembers(init, folder, existing, p);
      if p in ValuesMedia(values, folder, existing) {
        if p in ValuesMedia(init, folder, existing) {
          var j :| 0 <= j < |init| && ValueMedia(init[j], folder, existing, p);
          assert values[j] == init[j];
        } else {
          assert ValueMedia(values[|values| - 1], folder, existing, p);
        }
      }
      if exists j :: 0 <= j < |values| && ValueMedia(values[j], folder, existing, p) {
        var j :| 0 <= j < |values| && ValueMedia(values[j], folder, existing, p);
        if j < |init| {
          assert values[j] == init[j];
        }
      }
    }
  }

  predicate ValueMedia(v: FieldValue, folder: string, existing: set<string>, p: string) {
    v.Str? && p in RefPaths(ImporterRefs(v.text), folder, existing)
  }

  // ---------------------------------------------------------------------------
  // the loop over the notes, as a fold

  /** The note would create the model `name` if it is not cached yet. */
  predicate Qualifies(n: ImportNote, name: string) {
    n.modelName == Some(name) && name != "" && n.fields != []
  }

  function Step(env: Env, st: State, n: ImportNote): State {
    match n.modelName
    case None => st
    case Some(name) =>
      if name == "" then st
      else if name !in st.models && n.fields == [] then st
      else
        var model := if name in st.models then st.models[name] else NewModel(env.sha1, name, Keys(n.fields));
        var values := OrderedValues(model.fieldNames, n.fields);
        var packed := PackagedNote(name, values, n.tags, env.guidFor(OptIntToString(n.noteId)));
        State(st.models[name := model], st.notes + [packed], st.media + ValuesMedia(values, env.mediaFolder, env.existing))
  }

  function Run(env: Env, notes: seq<ImportNote>): State {
    if notes == [] then State(map[], [], {})
    else Step(env, Run(env, notes[..|notes| - 1]), notes[|notes| - 1])
  }

  /** The first note that qualifies for model `name`. */
  function FirstQualifying(notes: seq<ImportNote>, name: string): (i: nat)
    requires exists j :: 0 <= j < |notes| && Qualifies(notes[j], name)
    ensures i < |notes| && Qualifies(notes[i], name)
    ensures forall j :: 0 <= j < i ==> !Qualifies(notes[j], name)
  {
    if Qualifies(notes[0], name) then 0
    else
      assert exists j :: 0 <= j < |notes[1..]| && Qualifies(notes[1..][j], name) by {
        var j :| 0 <= j < |notes| && Qualifies(notes[j], name);
        assert notes[1..][j - 1] == notes[j];
      }
      1 + FirstQualifying(notes[1..], name)
  }

  lemma FirstQualifyingSnoc(notes: seq<ImportNote>, n: ImportNote, name: string)
    requires exists j :: 0 <= j < |notes| && Qualifies(notes[j], name)
    ensures (exists j :: 0 <= j < |notes + [n]| && Qualifies((notes + [n])[j], name))
      && FirstQualifying(notes + [n], name) == FirstQualifying(notes, name)
  {
    var all := notes + [n];
    var f := FirstQualifying(notes, name);
    assert all[f] == notes[f];
    var g := FirstQualifying(all, name);
    assert forall j :: 0 <= j < |notes| ==> all[j] == notes[j];
  }

  lemma FirstQualifyingLast(notes: seq<ImportNote>, n: ImportNote, name: string)
    requires forall j :: 0 <= j < |notes| ==> !Qualifies(notes[j], name)
    requires Qualifies(n, name)
    ensures (exists j :: 0 <= j < |notes + [n]| && Qualifies((notes + [n])[j], name))
      && FirstQualifying(notes + [n], name) == |notes|
  {
    var all := notes + [n];
    assert all[|notes|] == n;
    assert forall j :: 0 <= j < |notes| ==> all[j] == notes[j];
  }

  /** A step never changes or drops a model that is already cached. */
  lemma StepKeepsModels(env: Env, st: State, n: ImportNote)
    ensures forall m :: m in st.models ==> m in Step(env, st, n).models && Step(env, st, n).models[m] == st.models[m]
  {
  }

  /**
   * The model cache: there is a model for `name` exactly when some note with
   * that model name has fields, and that model is the one built from the
   * field names, in key order, of the first such note.
   */
  lemma {:induction false} RunModels(env: Env, notes: seq<ImportNote>, name: string)
    ensures name in Run(env, notes).models <==> exists j :: 0 <= j < |notes| && Qualifies(notes[j], name)
    ensures name in Run(env, notes).models ==>
      Run(env, notes).models[name] == NewModel(env.sha1, name, Keys(notes[FirstQualifying(notes, name)].fields))
  {
    if notes != [] {
      var init := notes[..|notes| - 1];
      var last := notes[|notes| - 1];
      assert notes == init + [last];
      RunModels(env, init, name);
      var st := Run(env, init);
      StepKeepsModels(env, st, last);
      assert forall j :: 0 <= j < |init| ==> notes[j] == init[j];
      if exists j :: 0 <= j < |init| && Qualifies(init[j], name) {
        FirstQualifyingSnoc(init, last, name);
      } else if Qualifies(last, name) {
        FirstQualifyingLast(init, last, name);
      }
    }
  }

  /** Every packaged note names a cached model and has one value per field of that model. */
  lemma {:induction false} RunNotesMatchModels(env: Env, notes: seq<ImportNote>)
    ensures forall k :: 0 <= k < |Run(env, notes).notes| ==>
      var p := Run(env, notes).notes[k];
      p.modelName in Run(env, notes).models && |p.values| == |Run(env, notes).models[p.modelName].fieldNames|
  {
    if notes != [] {
      var init := notes[..|notes| - 1];
      RunNotesMatchModels(env, init);
      StepKeepsModels(env, Run(env, init), notes[|notes| - 1]);
    }
  }

  // ---------------------------------------------------------------------------
  // which notes are packaged, independently of the loop state

  /**
   * Note `i` is packaged: it names a non-empty model, and that model is
   * already cached or created by this note, that is, some note up to and
   * including `i` qualifies for it.
   */
  predicate Packed(notes: seq<ImportNote>, i: nat)
    requires i < |notes|
  {
    notes[i].modelName.Some? && notes[i].modelName.value != ""
    && exists j :: 0 <= j <= i && Qualifies(notes[j], notes[i].modelName.value)
  }

  /**
   * What note `i` is packaged as: its values in the field order of the first
   * note that qualified for its model, `""` for the fields it lacks, its tags,
   * and the GUID of its id.
   */
  function PackOf(env: Env, notes: seq<ImportNote>, i: nat): PackagedNote
    requires i < |notes| && Packed(notes, i)
  {
    var name := notes[i].modelName.value;
    var schema := Keys(notes[FirstQualifying(notes, name)].fields);
    PackagedNote(name, OrderedValues(schema, notes[i].fields), notes[i].tags, env.guidFor(OptIntToString(notes[i].noteId)))
  }

  /** The packaged notes of the first `k` notes: a filter and map over the indices. */
  function PackagedUpTo(env: Env, notes: seq<ImportNote>, k: nat): seq<PackagedNote>
    requires k <= |notes|
  {
    if k == 0 then []
    else PackagedUpTo(env, notes, k - 1) + (if Packed(notes, k - 1) then [PackOf(env, notes, k - 1)] else [])
  }

  /** The first qualifying note of a prefix that has one is the first of the whole list. */
  lemma FirstQualifyingPrefix(notes: seq<ImportNote>, m: nat, name: string)
    requires m <= |notes|
    requires exists j :: 0 <= j < m && Qualifies(notes[j], name)
    ensures exists j :: 0 <= j < |notes[..m]| && Qualifies(notes[..m][j], name)
    ensures (exists j :: 0 <= j < |notes| && Qualifies(notes[j], name))
      && FirstQualifying(notes[..m], name) == FirstQualifying(notes, name)
  {
    var j :| 0 <= j < m && Qualifies(notes[j], name);
    assert notes[..m][j] == notes[j];
    var b := FirstQualifying(notes[..m], name);
    assert notes[..m][b] == notes[b];
    var a := FirstQualifying(notes, name);
    assert a <= b;
    assert notes[..m][a] == notes[a];
  }

  /** One loop step appends exactly the packaged form of note `k`, or nothing. */
  lemma StepPackages(env: Env, notes: seq<ImportNote>, k: nat)
    requires k < |notes|
    ensures Step(env, Run(env, notes[..k]), notes[k]).notes ==
      Run(env, notes[..k]).notes + (if Packed(notes, k) then [PackOf(env, notes, k)] else [])
  {
    var n := notes[k];
    var st := Run(env, notes[..k]);
    if n.modelName.Some? && n.modelName.value != "" {
      var name := n.modelName.value;
      RunModels(env, notes[..k], name);
      assert forall j :: 0 <= j < k ==> notes[..k][j] == notes[j];
      if name in st.models {
        var f := FirstQualifying(notes[..k], name);
        FirstQualifyingPrefix(notes, k, name);
        assert notes[..k][f] == notes[f];
      } else if n.fields != [] {
        assert Qualifies(notes[k], name);
        assert forall j :: 0 <= j < k ==> !Qualifies(notes[j], name);
        assert FirstQualifying(notes, name) == k;
      } else {
        assert !Packed(notes, k);
      }
    }
  }

  /**
   * The packaged notes are the filter and map of the input notes: note `i` is
   * packaged, in input order, exactly when `Packed` holds, and as `PackOf`.
   */
  lemma {:induction false} RunNotes(env: Env, notes: seq<ImportNote>, k: nat)
    requires k <= |notes|
    ensures Run(env, notes[..k]).notes == PackagedUpTo(env, notes, k)
  {
    if k > 0 {
      RunNotes(env, notes, k - 1);
      RunPrefix(env, notes, k - 1);
      StepPackages(env, notes, k - 1);
    }
  }

  /** The whole run packages the filter and map of all the notes. */
  lemma RunPackages(env: Env, notes: seq<ImportNote>)
    ensures Run(env, notes).notes == PackagedUpTo(env, notes, |notes|)
  {
    RunNotes(env, notes, |notes|);
    assert notes[..|notes|] == notes;
  }

  /** A note is in the filter and map exactly when it is the packaged form of some packed input note. */
  lemma {:induction false} PackagedUpToMembers(env: Env, notes: seq<ImportNote>, k: nat, p: PackagedNote)
    requires k <= |notes|
    ensures p in PackagedUpTo(env, notes, k) <==> exists i :: 0 <= i < k && Packed(notes, i) && p == PackOf(env, notes, i)
  {
    if k > 0 {
      PackagedUpToMembers(env, notes, k - 1, p);
    }
  }

  /** The media set is what the packaged notes' own values reference. */
  function NotesMedia(ps: seq<PackagedNote>, folder: string, existing: set<string>): set<string> {
    if ps == [] then {}
    else NotesMedia(ps[..|ps| - 1], folder, existing) + ValuesMedia(ps[|ps| - 1].values, folder, existing)
  }

  lemma {:induction false} RunMedia(env: Env, notes: seq<ImportNote>)
    ensures Run(env, notes).media == NotesMedia(Run(env, notes).notes, env.mediaFolder, env.existing)
  {
    if notes != [] {
      var init := notes[..|notes| - 1];
      RunMedia(env, init);
      var st := Run(env, init);
      var st' := Run(env, notes);
      if st'.notes != st.notes {
        assert st'.notes[..|st'.notes| - 1] == st.notes;
      }
    }
  }

  lemma {:induction false} NotesMediaMembers(ps: seq<PackagedNote>, folder: string, existing: set<string>, p: string)
    ensures p in NotesMedia(ps, folder, existing) <==>
      exists k :: 0 <= k < |ps| && p in ValuesMedia(ps[k].values, folder, existing)
  {
    if ps != [] {
      var init := ps[..|ps| - 1];
      NotesMediaMembers(init, folder, existing, p);
      assert forall k :: 0 <= k < |init| ==> init[k] == ps[k];
    }
  }

  /**
   * A media path is packaged exactly when it is collected from a string value
   * of a packaged note; see `RefPathsMembers` for what one value contributes.
   */
  lemma RunMediaMembers(env: Env, notes: seq<ImportNote>, p: string)
    ensures p in Run(env, notes).media <==>
      exists k, j :: 0 <= k < |Run(env, notes).notes| && 0 <= j < |Run(env, notes).notes[k].values|
        && ValueMedia(Run(env, notes).notes[k].values[j], env.mediaFolder, env.existing, p)
  {
    var ps := Run(env, notes).notes;
    RunMedia(env, notes);
    NotesMediaMembers(ps, env.mediaFolder, env.existing, p);
    forall k | 0 <= k < |ps|
      ensures p in ValuesMedia(ps[k].values, env.mediaFolder, env.existing) <==>
        exists j :: 0 <= j < |ps[k].values| && ValueMedia(ps[k].values[j], env.mediaFolder, env.existing, p)
    {
      ValuesMediaMembers(ps[k].values, env.mediaFolder, env.existing, p);
    }
  }

  /** Every packaged path exists and is `media_folder/basename(ref)` for some reference. */
  lemma ValueMediaShape(v: FieldValue, folder: string, existing: set<string>, p: string)
    requires ValueMedia(v, folder, existing, p)
    ensures p in existing
    ensures exists r :: r in ImporterRefs(v.text) && p == PathJoin(folder, Basename(r))
  {
    var refs := ImporterRefs(v.text);
    RefPathsMembers(refs, folder, existing, p);
    var k :| 0 <= k < |refs| && p == PathJoin(folder, Basename(refs[k]));
    assert refs[k] in refs;
  }

  // ---------------------------------------------------------------------------
  // the import

  function PackageOf(env: Env, jsonPath: string, st: State): Package {
    var deckName := DeckName(jsonPath);
    Package(GenerateId(env.sha1, deckName), deckName, st.models, st.notes, st.media)
  }

  /** One more reference adds its path when the file exists. */
  lemma RefPathsSnoc(refs: seq<string>, k: nat, folder: string, existing: set<string>)
    requires k < |refs|
    ensures var path := PathJoin(folder, Basename(refs[k]));
      RefPaths(refs[..k + 1], folder, existing) == RefPaths(refs[..k], folder, existing) + (if path in existing then {path} else {})
  {
    assert refs[..k + 1][..k] == refs[..k];
    var paths := MediaPaths(folder, refs[..k + 1]);
    assert paths[..k] == MediaPaths(folder, refs[..k]);
  }

  /** The inner loop: add `folder/basename(ref)` for each reference whose file exists. */
  method AddRefMedia(media: set<string>, refs: seq<string>, folder: string, existing: set<string>) returns (out: set<string>)
    ensures out == media + RefPaths(refs, folder, existing)
  {
    out := media;
    var k := 0;
    while k < |refs|
      invariant 0 <= k <= |refs|
      invariant out == media + RefPaths(refs[..k], folder, existing)
    {
      var path := PathJoin(folder, Basename(refs[k]));
      RefPathsSnoc(refs, k, folder, existing);
      if path in existing {
        out := out + {path};
        assert out == media + RefPaths(refs[..k + 1], folder, existing);
      } else {
        assert out == media + RefPaths(refs[..k + 1], folder, existing);
      }
      k := k + 1;
    }
    assert refs[..k] == refs;
  }

  /** The media loop over one note's ordered values. */
  method AddNoteMedia(media: set<string>, values: seq<FieldValue>, folder: string, existing: set<string>) returns (out: set<string>)
    ensures out == media + ValuesMedia(values, folder, existing)
  {
    out := media;
    var j := 0;
    while j < |values|
      invariant 0 <= j <= |values|
      invariant out == media + ValuesMedia(values[..j], folder, existing)
    {
      assert values[..j + 1][..j] == values[..j];
      if values[j].Str? {
        out := AddRefMedia(out, ImporterRefs(values[j].text), folder, existing);
      }
      j := j + 1;
    }
    assert values[..j] == values;
  }

  lemma RunPrefix(env: Env, notes: seq<ImportNote>, i: nat)
    requires i < |notes|
    ensures Run(env, notes[..i + 1]) == Step(env, Run(env, notes[..i]), notes[i])
  {
    assert notes[..i + 1][..i] == notes[..i];
  }

  /** The body of the loop over the notes, with its three `continue` skips. */
  method AddNote(env: Env, models: map<string, Model>, packaged: seq<PackagedNote>, media: set<string>, note: ImportNote)
    returns (models': map<string, Model>, packaged': seq<PackagedNote>, media': set<string>)
    ensures State(models', packaged', media') == Step(env, State(models, packaged, media), note)
  {
    models', packaged', media' := models, packaged, media;
    if note.modelName.None? || note.modelName.value == "" {
      return;
    }
    var name := note.modelName.value;
    var model: Model;
    if name !in models {
      var fieldNames := Keys(note.fields);
      if fieldNames == [] {
        return;
      }
      model := NewModel(env.sha1, name, fieldNames);
      models' := models[name := model];
    } else {
      model := models[name];
      assert models[name := model] == models;
    }
    var values := OrderedValues(model.fieldNames, note.fields);
    packaged' := packaged + [PackagedNote(name, values, note.tags, env.guidFor(OptIntToString(note.noteId)))];
    media' := AddNoteMedia(media, values, env.mediaFolder, env.existing);
  }

  /** `import_json_to_anki_deck` after the notes list has been loaded. */
  method ImportJsonToAnkiDeck(env: Env, jsonPath: string, notes: seq<ImportNote>) returns (pkg: Option<Package>)
    ensures notes == [] ==> pkg == None
    ensures notes != [] ==> pkg == Some(PackageOf(env, jsonPath, Run(env, notes)))
  {
    if notes == [] {
      return None;
    }
    var models: map<string, Model> := map[];
    var packaged: seq<PackagedNote> := [];
    var media: set<string> := {};
    var i := 0;
    while i < |notes|
      invariant 0 <= i <= |notes|
      invariant State(models, packaged, media) == Run(env, notes[..i])
    {
      RunPrefix(env, notes, i);
      models, packaged, media := AddNote(env, models, packaged, media, notes[i]);
      i := i + 1;
    }
    assert notes[..i] == notes;
    pkg := Some(PackageOf(env, jsonPath, State(models, packaged, media)));
  }
}
