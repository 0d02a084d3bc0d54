/**
 * `translate.py`: translating the fields of exported notes one note at a
 * time, and assembling the translated notes again.
 *
 * The DeepL client is an oracle `(chunk, attempt) -> Attempt`; the HTML
 * translation (a BeautifulSoup walk over the text nodes) and the sentence
 * split of `re.split` are functions given as parameters.
 */
module Translate {
  import opened Wrappers
  import opened Text
  import opened Collections
  import opened Order

  const DefaultRetryCount: nat := 20
  const RetryDelaySeconds: nat := 5
  const MaxTextChunkLength: nat := 4500

  /** Fields that are never translated (besides every `Jlab-*` field). */
  const FieldsToSkipTranslation: set<string> := {
    "Source", "Version", "Sequence", "Audio", "Image", "QuestionLink", "References",
    "Other-Front", "Other-Back", "Jlab-Kanji", "Jlab-KanjiSpaced",
    "Jlab-Hiragana", "Jlab-KanjiCloze", "Jlab-Lemma", "Jlab-HiraganaCloze",
    "Jlab-Translation", "Jlab-DictionaryLookup", "Jlab-Metadata", "Jlab-Remarks",
    "Jlab-ListeningFront", "Jlab-ListeningBack", "Jlab-ClozeFront", "Jlab-ClozeBack"
  }

  /** Fields that are always translated as HTML. */
  const FieldsAlwaysHtmlTranslation: set<string> := {"RemarksFront", "RemarksBack"}

  /** Fields translated as HTML only in the given model. */
  const HtmlFieldsByModelForTranslation: map<string, seq<string>> := map["InfoNote" := ["Text"]]

  /** One call of `dl.translate(chunk)`: it raised, or it returned a result. */
  datatype Attempt = Raised | Returned(result: string)

  type Client = (string, nat) -> Attempt

  /** The translator's parts that are not modelled here. */
  datatype Engine = Engine(
    dl: Client,                     // `dl.translate`, by chunk and attempt number
    splitSentences: string -> seq<string>,  // `re.split(r'(?<=[.?!])\s+|\n+', text)`
    html: string -> string)         // `translate_html_field(text, translator)`

  // ---------------------------------------------------------------------------
  // _translate_single_chunk

  /** The result of the first attempt in `[from, retries)` that does not raise. */
  function FirstAnswer(dl: Client, chunk: string, from: nat, retries: nat): (r: Option<string>)
    ensures r.None? <==> forall i :: from <= i < retries ==> dl(chunk, i).Raised?
    ensures r.Some? ==> exists i :: (from <= i < retries && dl(chunk, i) == Returned(r.value)
      && forall j :: from <= j < i ==> dl(chunk, j).Raised?)
    decreases retries - from
  {
    if from >= retries then None
    else
      match dl(chunk, from)
      case Returned(res) => Some(res)
      case Raised =>
        FirstAnswer(dl, chunk, from + 1, retries)
  }

  /**
   * `_translate_single_chunk(chunk, retries, delay)`: the first non-raising
   * answer when it is non-empty, and otherwise (an empty answer, or every
   * attempt raised) the chunk itself.
   */
  function SingleChunk(dl: Client, chunk: string, retries: nat): (r: string)
    ensures r == chunk || (r != [] && exists i :: 0 <= i < retries && dl(chunk, i) == Returned(r))
    ensures (forall i :: 0 <= i < retries ==> dl(chunk, i).Raised?) ==> r == chunk
    ensures forall i :: 0 <= i < retries && dl(chunk, i).Returned? && (forall j :: 0 <= j < i ==> dl(chunk, j).Raised?) ==>
      r == if dl(chunk, i).result != [] then dl(chunk, i).result else chunk
  {
    match FirstAnswer(dl, chunk, 0, retries)
    case None => chunk
    case Some(res) => if res != [] then res else chunk
  }

  /** The retry loop. */
  method TranslateSingleChunk(dl: Client, chunk: string, retries: nat) returns (r: string)
    ensures r == SingleChunk(dl, chunk, retries)
  {
    var attempt := 0;
    while attempt < retries
      invariant 0 <= attempt <= retries
      invariant FirstAnswer(dl, chunk, attempt, retries) == FirstAnswer(dl, chunk, 0, retries)
    {
      var result := dl(chunk, attempt);
      if result.Returned? {
        if result.result != [] {
          return result.result;
        } else {
          return chunk;
        }
      }
      attempt := attempt + 1;
    }
    return chunk;
  }

  // ---------------------------------------------------------------------------
  // the chunking loop

  /** The loop's variables: the finished groups (`chunks` before joining), `current_chunk`, `current_length`. */
  datatype Chunking = Chunking(groups: seq<seq<string>>, current: seq<string>, currentLength: nat)

  /** One iteration of the loop at translate.py:98-106. */
  function ChunkStep(st: Chunking, sentence: string): Chunking {
    if st.currentLength + |sentence| + (if st.current != [] then 1 else 0) > MaxTextChunkLength then
      Chunking(if st.current != [] then st.groups + [st.current] else st.groups, [sentence], |sentence|)
    else
      // after the append `current_chunk` is never empty, so the separator is always counted
      Chunking(st.groups, st.current + [sentence], st.currentLength + |sentence| + 1)
  }

  function ChunkRun(sentences: seq<string>): Chunking {
    if sentences == [] then Chunking([], [], 0)
    else ChunkStep(ChunkRun(sentences[..|sentences| - 1]), sentences[|sentences| - 1])
  }

  /** The groups of sentences, including the last one the loop leaves open. */
  function Groups(sentences: seq<string>): seq<seq<string>> {
    var st := ChunkRun(sentences);
    if st.current != [] then st.groups + [st.current] else st.groups
  }

  function Flatten(gs: seq<seq<string>>): seq<string> {
    if gs == [] then [] else Flatten(gs[..|gs| - 1]) + gs[|gs| - 1]
  }

  /** `" ".join(group)`. */
  function Spaced(g: seq<string>): string {
    Join(g, " ")
  }

  /** What the loop keeps true. */
  predicate ChunkingInv(st: Chunking, prefix: seq<string>) {
    && Flatten(st.groups) + st.current == prefix
    && (forall k :: 0 <= k < |st.groups| ==> st.groups[k] != [])
    && (forall k :: 0 <= k < |st.groups| && |st.groups[k]| >= 2 ==> |Spaced(st.groups[k])| <= MaxTextChunkLength)
    && (st.current == [] ==> st.groups == [] && st.currentLength == 0)
    && (st.current != [] ==> |Spaced(st.current)| <= st.currentLength)
    && (|st.current| >= 2 ==> st.currentLength <= MaxTextChunkLength)
  }

  lemma SpacedSnoc(g: seq<string>, s: string)
    requires g != []
    ensures |Spaced(g + [s])| == |Spaced(g)| + 1 + |s|
  {
    JoinAppend(g, [s], " ");
  }

  lemma FlattenSnoc(gs: seq<seq<string>>, g: seq<string>)
    ensures Flatten(gs + [g]) == Flatten(gs) + g
  {
    assert (gs + [g])[..|gs|] == gs;
  }

  lemma ChunkStepInv(st: Chunking, prefix: seq<string>, s: string)
    requires ChunkingInv(st, prefix)
    ensures ChunkingInv(ChunkStep(st, s), prefix + [s])
  {
    var r := ChunkStep(st, s);
    if st.currentLength + |s| + (if st.current != [] then 1 else 0) > MaxTextChunkLength {
      if st.current != [] {
        FlattenSnoc(st.groups, st.current);
        assert r.groups == st.groups + [st.current];
        assert forall k :: 0 <= k < |st.groups| ==> r.groups[k] == st.groups[k];
      }
      assert Spaced([s]) == s;
    } else {
      if st.current != [] {
        SpacedSnoc(st.current, s);
      } else {
        assert Spaced([s]) == s;
      }
      assert r.current == st.current + [s];
    }
  }

  lemma {:induction false} ChunkRunInv(sentences: seq<string>)
    ensures ChunkingInv(ChunkRun(sentences), sentences)
  {
    if sentences != [] {
      var init := sentences[..|sentences| - 1];
      ChunkRunInv(init);
      ChunkStepInv(ChunkRun(init), init, sentences[|sentences| - 1]);
      assert init + [sentences[|sentences| - 1]] == sentences;
    }
  }

  /**
   * The groups hold every sentence once, in order; no group is empty; and
   * a group of two or more sentences joins to at most 4500 characters (a
   * single sentence may be longer).
   */
  lemma GroupsProperties(sentences: seq<string>)
    ensures Flatten(Groups(sentences)) == sentences
    ensures forall k :: 0 <= k < |Groups(sentences)| ==> Groups(sentences)[k] != []
    ensures forall k :: 0 <= k < |Groups(sentences)| && |Groups(sentences)[k]| >= 2 ==>
      |Spaced(Groups(sentences)[k])| <= MaxTextChunkLength
  {
    var st := ChunkRun(sentences);
    ChunkRunInv(sentences);
    if st.current != [] {
      FlattenSnoc(st.groups, st.current);
      assert forall k :: 0 <= k < |st.groups| ==> Groups(sentences)[k] == st.groups[k];
    } else {
      assert st.groups + [] == st.groups;
    }
  }

  /** The chunk strings: each group space-joined and stripped. */
  function ChunkTexts(gs: seq<seq<string>>): (r: seq<string>)
    ensures |r| == |gs|
  {
    if gs == [] then [] else ChunkTexts(gs[..|gs| - 1]) + [Strip(Spaced(gs[|gs| - 1]))]
  }

  lemma {:induction false} ChunkTextsAt(gs: seq<seq<string>>, k: nat)
    requires k < |gs|
    ensures ChunkTexts(gs)[k] == Strip(Spaced(gs[k]))
  {
    if k < |gs| - 1 {
      ChunkTextsAt(gs[..|gs| - 1], k);
    }
  }

  lemma ChunkTextsSnoc(gs: seq<seq<string>>, g: seq<string>)
    ensures ChunkTexts(gs + [g]) == ChunkTexts(gs) + [Strip(Spaced(g))]
  {
    assert (gs + [g])[..|gs|] == gs;
  }

  /** The chunking loop of translate.py:94-109. */
  method ChunkSentences(sentences: seq<string>) returns (chunks: seq<string>)
    ensures chunks == ChunkTexts(Groups(sentences))
  {
    chunks := [];
    ghost var groups: seq<seq<string>> := [];
    var current: seq<string> := [];
    var currentLength: nat := 0;
    var i := 0;
    while i < |sentences|
      invariant 0 <= i <= |sentences|
      invariant ChunkRun(sentences[..i]) == Chunking(groups, current, currentLength)
      invariant chunks == ChunkTexts(groups)
    {
      assert sentences[..i + 1][..i] == sentences[..i];
      var sentence := sentences[i];
      assert ChunkRun(sentences[..i + 1]) == ChunkStep(Chunking(groups, current, currentLength), sentence);
      if currentLength + |sentence| + (if current != [] then 1 else 0) > MaxTextChunkLength {
        if current != [] {
          ChunkTextsSnoc(groups, current);
          chunks := chunks + [Strip(Spaced(current))];
          groups := groups + [current];
        }
        current := [sentence];
        currentLength := |sentence|;
      } else {
        current := current + [sentence];
        currentLength := currentLength + |sentence| + 1;
      }
      i := i + 1;
    }
    assert sentences[..i] == sentences;
    if current != [] {
      ChunkTextsSnoc(groups, current);
      chunks := chunks + [Strip(Spaced(current))];
      groups := groups + [current];
    }
  }

  // ---------------------------------------------------------------------------
  // DeepLTranslator.translate

  /** The non-blank chunks, translated one by one. */
  function TranslateChunks(dl: Client, chunks: seq<string>, retries: nat): seq<string> {
    if chunks == [] then []
    else
      var last := chunks[|chunks| - 1];
      TranslateChunks(dl, chunks[..|chunks| - 1], retries) + if IsBlank(last) then [] else [SingleChunk(dl, last, retries)]
  }

  /**
   * `translate(text)`: blank text unchanged; text of at most 4500 characters
   * as one chunk; longer text split into sentences, grouped, and the
   * translated chunks concatenated.
   */
  function TranslateText(e: Engine, text: string, retries: nat): (r: string)
    ensures IsBlank(text) ==> r == text
    ensures !IsBlank(text) && |text| <= MaxTextChunkLength ==> r == SingleChunk(e.dl, text, retries)
  {
    if IsBlank(text) then text
    else if |text| > MaxTextChunkLength then
      Join(TranslateChunks(e.dl, ChunkTexts(Groups(e.splitSentences(text))), retries), "")
    else SingleChunk(e.dl, text, retries)
  }

  lemma TranslateChunksSnoc(dl: Client, chunks: seq<string>, c: string, retries: nat)
    ensures TranslateChunks(dl, chunks + [c], retries)
      == TranslateChunks(dl, chunks, retries) + if IsBlank(c) then [] else [SingleChunk(dl, c, retries)]
  {
    assert (chunks + [c])[..|chunks|] == chunks;
  }

  /** The loop of translate.py:111-116: blank chunks are passed over. */
  method TranslateEachChunk(dl: Client, chunks: seq<string>, retries: nat) returns (translated: seq<string>)
    ensures translated == TranslateChunks(dl, chunks, retries)
  {
    translated := [];
    var i := 0;
    while i < |chunks|
      invariant 0 <= i <= |chunks|
      invariant translated == TranslateChunks(dl, chunks[..i], retries)
    {
      TranslateChunksSnoc(dl, chunks[..i], chunks[i], retries);
      assert chunks[..i + 1] == chunks[..i] + [chunks[i]];
      if !IsBlank(chunks[i]) {
        var t := TranslateSingleChunk(dl, chunks[i], retries);
        translated := translated + [t];
      }
      i := i + 1;
    }
    assert chunks[..i] == chunks;
  }

  method Translate(e: Engine, text: string, retries: nat) returns (r: string)
    ensures r == TranslateText(e, text, retries)
  {
    if IsBlank(text) {
      return text;
    }
    if |text| > MaxTextChunkLength {
      var sentences := e.splitSentences(text);
      var chunks := ChunkSentences(sentences);
      var translated := TranslateEachChunk(e.dl, chunks, retries);
      return Join(translated, "");
    }
    r := TranslateSingleChunk(e.dl, text, retries);
  }

  // ---------------------------------------------------------------------------
  // the field router of process_note

  /** Which of the five steps of translate.py:189-225 decides a field. */
  datatype Rule = Skip | AlwaysHtml | ModelHtml | PlainSource | CopyOther

  function RuleFor(modelName: Option<string>, fieldName: string): (r: Rule)
    ensures r != PlainSource
  {
    if fieldName in FieldsToSkipTranslation || StartsWith(fieldName, "Jlab-") then Skip
    else if fieldName in FieldsAlwaysHtmlTranslation then AlwaysHtml
    else if modelName.Some? && modelName.value in HtmlFieldsByModelForTranslation
      && fieldName in HtmlFieldsByModelForTranslation[modelName.value] then ModelHtml
    else if fieldName == "Source" then PlainSource
    else CopyOther
  }

  /** The value a field gets in `translated_fields`. */
  function TranslateField(e: Engine, modelName: Option<string>, fieldName: string, value: string): string {
    match RuleFor(modelName, fieldName)
    case Skip => value
    case AlwaysHtml => if !IsBlank(value) then e.html(value) else value
    case ModelHtml => if !IsBlank(value) then e.html(value) else value
    case PlainSource => if !IsBlank(value) then TranslateText(e, value, DefaultRetryCount) else value
    case CopyOther => value
  }

  /**
   * A skipped or unmatched field is copied unchanged; `RemarksFront`,
   * `RemarksBack` and `Text` of `InfoNote` are HTML-translated exactly when
   * non-blank; and only those three can change at all.
   */
  lemma TranslateFieldRules(e: Engine, modelName: Option<string>, fieldName: string, value: string)
    ensures fieldName in FieldsToSkipTranslation || StartsWith(fieldName, "Jlab-") ==>
      TranslateField(e, modelName, fieldName, value) == value
    ensures fieldName in FieldsAlwaysHtmlTranslation ==>
      TranslateField(e, modelName, fieldName, value) == if IsBlank(value) then value else e.html(value)
    ensures modelName == Some("InfoNote") && fieldName == "Text" ==>
      TranslateField(e, modelName, fieldName, value) == if IsBlank(value) then value else e.html(value)
    ensures TranslateField(e, modelName, fieldName, value) != value ==>
      fieldName in FieldsAlwaysHtmlTranslation || (modelName == Some("InfoNote") && fieldName == "Text")
  {
    assert "RemarksFront" !in FieldsToSkipTranslation && "RemarksBack" !in FieldsToSkipTranslation;
    assert "RemarksFront"[..5][0] == 'R' && "RemarksBack"[..5][0] == 'R' && "Text"[..4][0] == 'T';
    assert "Text" !in FieldsToSkipTranslation;
    assert HtmlFieldsByModelForTranslation["InfoNote"] == ["Text"];
  }

  /** `Source` is in the skip set, so the plain-text step never sees it: it is never translated. */
  lemma SourceNeverTranslated(e: Engine, modelName: Option<string>, value: string)
    ensures RuleFor(modelName, "Source") == Skip
    ensures TranslateField(e, modelName, "Source", value) == value
  {
    assert "Source" in FieldsToSkipTranslation;
  }

  /** The routing step as the item function of `translated_fields[field_name] = ...`. */
  function RouteEntry(e: Engine, modelName: Option<string>): (nat, string, string) -> string {
    (i: nat, name: string, value: string) => TranslateField(e, modelName, name, value)
  }

  /** `translated_fields` after the loop, for the fields taken in order. */
  function TranslatedFields(e: Engine, modelName: Option<string>, fields: seq<(string, string)>): seq<(string, string)> {
    DictMap(fields, RouteEntry(e, modelName))
  }

  /**
   * For a fields dict (its names are distinct), the translated dict has the
   * same names in the same order, and each one holds its translated value.
   */
  lemma TranslatedFieldsShape(e: Engine, modelName: Option<string>, fields: seq<(string, string)>)
    requires DistinctKeys(fields)
    ensures Keys(TranslatedFields(e, modelName, fields)) == Keys(fields)
    ensures forall i :: 0 <= i < |fields| ==>
      Get(TranslatedFields(e, modelName, fields), fields[i].0) == Some(TranslateField(e, modelName, fields[i].0, fields[i].1))
  {
    DictMapShape(fields, RouteEntry(e, modelName));
  }

  // ---------------------------------------------------------------------------
  // process_note

  /** A note as exported: the keys the translation reads or writes (`noteId`, `modelName`, `tags`, `fields`). */
  datatype TNote = TNote(noteId: Option<int>, modelName: Option<string>, tags: seq<string>, fields: seq<(string, string)>)

  /** `f"note_{note_id}.json"`. */
  function NoteFileName(noteId: Option<int>): string {
    "note_" + OptIntToString(noteId) + ".json"
  }

  datatype ProcessOutcome =
    | AlreadyTranslated              // the output file exists and force is off
    | Processed(note: TNote, saved: bool)

  function ProcessNoteSpec(e: Engine, note: TNote, outputDir: string, force: bool, existing: set<string>, saves: bool): ProcessOutcome {
    if PathJoin(outputDir, NoteFileName(note.noteId)) in existing && !force then AlreadyTranslated
    else Processed(note.(fields := TranslatedFields(e, note.modelName, note.fields)), saves)
  }

  /** One step of the routing loop. */
  method RouteField(e: Engine, modelName: Option<string>, fieldName: string, fieldValue: string) returns (value: string)
    ensures value == TranslateField(e, modelName, fieldName, fieldValue)
  {
    var rule := RuleFor(modelName, fieldName);
    value := fieldValue;
    if rule.AlwaysHtml? || rule.ModelHtml? {
      if !IsBlank(fieldValue) {
        value := e.html(fieldValue);
      }
    } else if rule.PlainSource? {
      if !IsBlank(fieldValue) {
        value := Translate(e, fieldValue, DefaultRetryCount);
      }
    }
  }

  /** The routing loop of translate.py:187-225. */
  method TranslateFields(e: Engine, modelName: Option<string>, fields: seq<(string, string)>) returns (translated: seq<(string, string)>)
    ensures translated == TranslatedFields(e, modelName, fields)
  {
    translated := [];
    var i := 0;
    while i < |fields|
      invariant 0 <= i <= |fields|
      invariant translated == TranslatedFields(e, modelName, fields[..i])
    {
      DictMapStep(fields, RouteEntry(e, modelName), i);
      var value := RouteField(e, modelName, fields[i].0, fields[i].1);
      translated := DictSet(translated, fields[i].0, value);
      i := i + 1;
    }
    assert fields[..i] == fields;
  }

  /**
   * `process_note(note_data, output_dir, translator, force)`; `existing` is
   * the set of paths that exist and `saves` whether writing the file works.
   * Returns the function's boolean result and what it did.
   */
  method ProcessNote(e: Engine, note: TNote, outputDir: string, force: bool, existing: set<string>, saves: bool)
    returns (ok: bool, outcome: ProcessOutcome)
    ensures outcome == ProcessNoteSpec(e, note, outputDir, force, existing, saves)
    ensures ok <==> outcome.Processed? && saves
  {
    var outputPath := PathJoin(outputDir, NoteFileName(note.noteId));
    if outputPath in existing && !force {
      return false, AlreadyTranslated;
    }
    var translated := TranslateFields(e, note.modelName, note.fields);
    var updated := note.(fields := translated);
    return saves, Processed(updated, saves);
  }

  /**
   * What processing changes: nothing when the file exists and force is off;
   * otherwise only the fields, which keep their names and order.
   */
  lemma ProcessNoteKeeps(e: Engine, note: TNote, outputDir: string, force: bool, existing: set<string>, saves: bool)
    requires DistinctKeys(note.fields)
    ensures var out := ProcessNoteSpec(e, note, outputDir, force, existing, saves);
      out.Processed? <==> force || PathJoin(outputDir, NoteFileName(note.noteId)) !in existing
    ensures var out := ProcessNoteSpec(e, note, outputDir, force, existing, saves);
      out.Processed? ==>
        && out.note.noteId == note.noteId && out.note.modelName == note.modelName && out.note.tags == note.tags
        && Keys(out.note.fields) == Keys(note.fields)
  {
    TranslatedFieldsShape(e, note.modelName, note.fields);
  }

  // ---------------------------------------------------------------------------
  // assemble_translated_notes

  predicate IsNoteFile(name: string) {
    StartsWith(name, "note_") && EndsWith(name, ".json")
  }

  function NoteFiles(listing: seq<string>): (r: seq<string>)
    ensures forall x :: x in r <==> x in listing && IsNoteFile(x)
  {
    if listing == [] then []
    else
      var rest := NoteFiles(listing[..|listing| - 1]);
      var last := listing[|listing| - 1];
      assert listing == listing[..|listing| - 1] + [last];
      if IsNoteFile(last) then rest + [last] else rest
  }

  /** `sorted(f for f in os.listdir(input_dir) if f.startswith("note_") and f.endswith(".json"))`. */
  function SelectNoteFiles(listing: seq<string>): seq<string> {
    Sort(NoteFiles(listing))
  }

  /** The files assembled are exactly the note files of the listing, in lexicographic order. */
  lemma SelectNoteFilesProperties(listing: seq<string>)
    ensures Sorted(SelectNoteFiles(listing))
    ensures forall x :: x in SelectNoteFiles(listing) <==> x in listing && IsNoteFile(x)
  {
    var r := SelectNoteFiles(listing);
    forall x ensures x in r <==> x in NoteFiles(listing) {
      assert x in r <==> x in multiset(r);
      assert x in NoteFiles(listing) <==> x in multiset(NoteFiles(listing));
    }
  }

  /** The notes loaded from a list of files, passing over files that fail to load. */
  function LoadAll<J>(files: seq<string>, load: string -> Option<J>): seq<J> {
    if files == [] then []
    else
      var last := files[|files| - 1];
      LoadAll(files[..|files| - 1], load) + match load(last) case None => [] case Some(n) => [n]
  }

  /**
   * `assemble_translated_notes(input_dir, output)`: None when there is no
   * note file (the function returns early), otherwise the notes to write.
   */
  method AssembleTranslatedNotes<J>(listing: seq<string>, load: string -> Option<J>) returns (r: Option<seq<J>>)
    ensures SelectNoteFiles(listing) == [] ==> r.None?
    ensures SelectNoteFiles(listing) != [] ==> r == Some(LoadAll(SelectNoteFiles(listing), load))
  {
    var jsonFiles := SelectNoteFiles(listing);
    if jsonFiles == [] {
      return None;
    }
    var assembled: seq<J> := [];
    var i := 0;
    while i < |jsonFiles|
      invariant 0 <= i <= |jsonFiles|
      invariant assembled == LoadAll(jsonFiles[..i], load)
    {
      assert jsonFiles[..i + 1][..i] == jsonFiles[..i];
      var loaded := load(jsonFiles[i]);
      if loaded.Some? {
        assembled := assembled + [loaded.value];
      }
      i := i + 1;
    }
    assert jsonFiles[..i] == jsonFiles;
    return Some(assembled);
  }
}
