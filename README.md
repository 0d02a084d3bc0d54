# AnkiConnect tools, modelled in Dafny

This project models the data-handling core of a set of command-line scripts
that talk to Anki through the AnkiConnect add-on's HTTP API:

- **Import** (`anki_importer.py`) turns an exported notes list back into the
  contents of an `.apkg` package. It covers the deck name, stable ids, one
  model per note type, field order, generic templates and the media files.
- **JSON export** (`anki_exporter.py`) chooses notes by tag or deck and
  writes one record per note. Each media name is fetched at most once per
  run, and a name whose fetch failed is retried.
- **Reorder** (`reorder_notes.py`) puts a target list of notes into the order
  of a reference list, matching notes by `noteId`.
- **Translate** (`translate.py`) covers:
  - the five-step field router;
  - the greedy sentence chunker;
  - the retry loop of a single chunk;
  - the per-note "already translated" skip;
  - the choice of files for assembly.
- **Tag hierarchy** (`list_tags.py`) builds a trie from `:`-separated tags,
  looks up levels, and runs the key-driven explorer without the drawing.
- **Cloning** (`tag_to_deck.py`) builds the all-tags query, removes duplicate
  note ids, shuffles in place and clones notes with a hidden marker.
- **Search page** (`search_to_html.py`) builds the OR query, the sorted
  unique tags, the top-deck filter and the folder name.
- **HTML export helpers** (`anki_export.py`) cover:
  - the card query, the tag default and the folder name;
  - the media download outcome;
  - the rewrite of image sources in the answer;
  - the rule for which extra fields are shown.

Everything outside the program is a parameter: AnkiConnect's answers, the
translator, the hash, the random draws, file existence and the outcome of
saving a file. Python's dict is a sequence of `(key, value)` pairs.
`d[k] = v` is `Collections.DictSet`, which replaces the value in place or
appends the key. Shared Python string and list operations live in their own
modules:

| module | holds |
|---|---|
| `Text` | `split`, `join`, `replace`, `strip`, `lower`, `os.path.basename`/`dirname`/`join` |
| `Collections` | dict operations, deduplication |
| `Order` | string order and `sorted` |
| `MediaScan` | the three media regular expressions, as left-to-right scanners |

A file whose loops change variables step by step is modelled by a `method`
with a `while` loop. The method is proved equal to a specification function,
and the properties are lemmas about that function. The in-place
`random.shuffle` runs on an `array`.

Where the code does not do what its own comments and branches suggest, the
model follows the code:

- The JSON exporter's fallback folder name `anki_export`
  (anki_exporter.py:182-183) is unreachable: the name built at
  anki_exporter.py:181 always starts with `export`.
- In the translator, the plain-text branch for `Source` (translate.py:215)
  never fires, because `Source` is in the skip set checked first
  (translate.py:190).
- The chunker counts a separator after appending the sentence
  (translate.py:106), when the chunk is never empty. Only the first chunk,
  when its first sentence fits, is therefore counted one too long. A later
  chunk starts with exactly the length of its first sentence
  (translate.py:103). The length bound holds either way.

## Model

| member | source | states |
|---|---|---|
| Ids.GenerateId | anki_importer.py:54-60 | the id is below 2^31 and is the first 32 bits of the digest, possibly minus 2^31; it depends only on the text |
| Ids.HexValueBound | anki_importer.py:60 | eight hexadecimal digits hold a value below 16^8 |
| Ids.Prefix32 | anki_importer.py:60 | the first eight hexadecimal digits of the digest give a value below 2^32 |
| Importer.DeckNameFromFolder | anki_importer.py:84-86 | the deck name is never empty and holds no `_`; it is the fallback or has no outer whitespace |
| Importer.DeckNameFromUnderscored | anki_importer.py:84-86 | a folder `export_` + a name with its spaces as `_` reads back as that name, when the name has no `_`, no `export ` and no outer whitespace |
| Importer.DeckNameRoundTrip | anki_importer.py:84-86 | the importer's deck name of the folder the JSON exporter writes for a deck is that deck, for a name without `_`, `::`, `export ` or outer whitespace |
| Importer.DeckName | anki_importer.py:83-86 | the name taken from the notes file's folder is never empty and has no `_` |
| Importer.ModelIdPermutationInvariant | anki_importer.py:120-121 | any reordering of the field names gives the same hash input and so the same model id |
| Importer.GenericTemplatesShowEveryField | anki_importer.py:131-133 | the generic front and back show every field as `{{name}}`, and the back starts with `{{FrontSide}}<hr id="answer">` |
| Importer.ChooseTemplates | anki_importer.py:124-133 | the two built-in note types get their own templates; every other note type gets the generic ones |
| Importer.OrderedValues | anki_importer.py:156 | one value per schema field, in schema order: the note's own value or `""` |
| Importer.OrderedValuesOfOwnKeys | anki_importer.py:113-156 | the note that defined the model gets back its own values, in its own order |
| Importer.RefPathsMembers | anki_importer.py:174-182 | a path is collected exactly when the file exists and it is `media_folder/basename(ref)` for some reference |
| Importer.ValuesMediaMembers | anki_importer.py:167-182 | only string values are scanned; a path is collected exactly when some value's references produce it |
| Importer.FirstQualifying | anki_importer.py:111-116 | the first note with that model name and at least one field |
| Importer.StepKeepsModels | anki_importer.py:111-152 | a cached model is never replaced or dropped |
| Importer.RunModels | anki_importer.py:107-152 | a model exists exactly when some note names it and has fields; it is built from the field order of the first such note |
| Importer.StepPackages | anki_importer.py:100-164 | one pass of the note loop adds the note, laid out by its model's schema, exactly when it names a model and that model has a defining note at or before it |
| Importer.RunNotes | anki_importer.py:100-164 | the notes packaged from the first `k` notes are, in order, those with a non-empty model name that some earlier-or-same note with fields defines, each with its values in that model's field order, its tags and the GUID of its id |
| Importer.RunPackages | anki_importer.py:100-164 | the packaged notes of the whole list are that filter-map of the notes, in order |
| Importer.PackagedUpToMembers | anki_importer.py:106-164 | a packaged note is exactly the layout of some input note that is not skipped |
| Importer.RunNotesMatchModels | anki_importer.py:152-164 | every packaged note names a cached model and has exactly one value per field of it |
| Importer.RunMedia | anki_importer.py:166-184 | the media set is exactly what the packaged notes' values reference |
| Importer.NotesMediaMembers | anki_importer.py:166-184 | a path is in the media of some notes exactly when it is in the media of one of them |
| Text.Basename | anki_importer.py:176 | the basename holds no `/`, ends the path, and is preceded by a `/` when shorter |
| Importer.RunMediaMembers | anki_importer.py:166-184 | a path is packaged exactly when some string value of a packaged note references it and the file exists |
| Importer.ValueMediaShape | anki_importer.py:176-182 | every packaged path exists and is `media_folder/basename(ref)` for a scanned reference |
| Importer.AddRefMedia | anki_importer.py:174-184 | the inner loop adds exactly the existing paths of the references |
| Importer.AddNoteMedia | anki_importer.py:167-184 | the media loop over a note's values adds exactly that note's media |
| Importer.AddNote | anki_importer.py:101-184 | one pass of the note loop, with its three skips, computes the specification step |
| Importer.ImportJsonToAnkiDeck | anki_importer.py:77-191 | an empty notes list produces nothing; otherwise the package holds the deck from the folder name and the state after every note |
| MediaScan.ImporterRefs | anki_importer.py:173 | each `src="`, `src='` or `[sound:` match, in any case, is non-empty and has no quote or `]` |
| MediaScan.ImporterRefsOfSoundTags | anki_importer.py:173 | the importer's scan finds exactly the names of a run of `[sound:...]` tags |
| Queries.CardQuery | anki_exporter.py:49-56 | an error exactly when neither tag nor deck is given, with the source's message |
| Queries.QueryRoundTrip | anki_exporter.py:52-54 | a `tag:"t"` or `deck:"d"` query reads back as its selection |
| Queries.CardQuerySelects | anki_exporter.py:51-54 | a non-empty tag takes precedence over the deck |
| Exporter.ExportFolderNameShape | anki_exporter.py:181-183 | the folder name starts with `export`, holds no space and no `::`; the fallback is never taken |
| Exporter.ExportFolderNameOfDeck | anki_exporter.py:181-183 | for a deck name without `::` ending in neither a space nor `_`, the folder is `export_` + the name with its spaces as `_` |
| Exporter.NameCandidatesFrom | anki_exporter.py:96-112 | every candidate name is the basename of a non-empty value |
| Exporter.NameCandidatesHas | anki_exporter.py:96-112 | every non-empty value contributes its basename |
| Exporter.MediaNamesProperties | anki_exporter.py:85-118 | the names have no duplicates and no `/`; every non-empty `src` and every `[sound:X]` contributes `basename`; nothing else appears |
| Exporter.AddName | anki_exporter.py:101-102 | `found_files.add` adds a non-empty value's basename once |
| Exporter.ExtractMediaFilenames | anki_exporter.py:85-118 | the two extraction loops compute the specification's name list |
| Exporter.AddNames | anki_exporter.py:96-112 | the loop over a list of values extends the deduplicated name list by those values' names |
| Exporter.DownloadMedia | anki_exporter.py:130-160 | the download succeeds exactly when there is non-empty data that decodes and saves, and it then returns the name asked for |
| Exporter.CacheStep | anki_exporter.py:231-242 | a name already downloaded, or empty, is not fetched; otherwise exactly one attempt is logged and the set grows only on success |
| Exporter.CacheStepConsistent | anki_exporter.py:195-242 | a name is downloaded exactly when one of its attempts succeeded, and this is kept by each reference |
| Exporter.CacheRunConsistent | anki_exporter.py:226-244 | the consistency of the cache holds over any run of references |
| Exporter.CacheRunGrows | anki_exporter.py:195-238 | the downloaded set and the attempt log only grow |
| Exporter.RetryAfterFailure | anki_exporter.py:233-238 | a name all of whose earlier attempts failed is attempted again |
| Exporter.CacheRunCovers | anki_exporter.py:231-242 | after a run, every non-empty name referenced has been requested at least once |
| Exporter.AddFieldsGet | anki_exporter.py:213-217 | each non-empty field name maps to its `value` (default `""`); other keys keep their value |
| Exporter.FieldsDictGet | anki_exporter.py:211-217 | the fields dict holds exactly the non-empty field names, with their values |
| Exporter.NoteRecord | anki_exporter.py:201-251 | a record is exported exactly when the note has info, a model name and some field; it carries the id, model, tags (default `[]`) and fields dict |
| Exporter.NoteRecords | anki_exporter.py:199-251 | every record's id is one of the note ids |
| Exporter.ExportRunRecords | anki_exporter.py:199-251 | the records are the kept notes' records in id order, whatever the downloads do |
| Exporter.NoteRecordsDistinct | anki_exporter.py:178-199 | distinct note ids give records with distinct ids |
| Exporter.ExportRunConsistent | anki_exporter.py:199-244 | the cache stays consistent over the whole export |
| Exporter.ExportSpecProperties | anki_exporter.py:167-251 | an export writes one record per kept note of the deduplicated note ids, no note twice, each from the query's cards |
| Exporter.BuildFieldsDict | anki_exporter.py:211-217 | the loop builds the fields dict of the specification |
| Collections.DictSet | anki_exporter.py:217 | assignment keeps the keys, adding the new one last, and the key then maps to the value |
| Exporter.FieldsMediaConsistent | anki_exporter.py:226-244 | the cache stays consistent over every field of a note |
| Exporter.DownloadNames | anki_exporter.py:231-244 | the inner loop runs the cache over one field's names |
| Exporter.DownloadNoteMedia | anki_exporter.py:226-244 | the media loop runs the cache over every field of the note |
| Exporter.ExportNote | anki_exporter.py:201-251 | one pass of the note loop computes the specification step |
| Exporter.ExportAnkiDataToJson | anki_exporter.py:167-251 | the whole export computes the specification outcome |
| MediaScan.SoundRefs | anki_exporter.py:107 | each `[sound:X]` match is non-empty and holds no `]` |
| MediaScan.SoundRefsOfSoundTags | anki_exporter.py:107 | scanning a run of `[sound:...]` tags gives back exactly their names, in order |
| Collections.Dedup | anki_exporter.py:178 | no duplicates, the same elements, never longer |
| Reorder.BuildMapKeys | reorder_notes.py:68 | exactly the ids that some target note carries are keys; notes without an id are left out |
| Reorder.BuildMapLastWins | reorder_notes.py:68 | an id maps to the last target note carrying it |
| Reorder.WalkAppend | reorder_notes.py:75-87 | the walk treats each reference note on its own |
| Reorder.WalkOne | reorder_notes.py:81-82 | a reference note whose id is in the map contributes exactly that target note |
| Reorder.WalkCount | reorder_notes.py:75-87 | output length plus the missing count is the number of reference notes with an id |
| Reorder.MissingIsAbsent | reorder_notes.py:76-87 | the missing count is the number of reference ids no target note carries |
| Reorder.WalkFromTarget | reorder_notes.py:68-82 | every output note is a target note carrying an id |
| Reorder.ImagePermutation | reorder_notes.py:75-82 | id lists with the same multiset give outputs with the same multiset |
| Reorder.WalkIsImage | reorder_notes.py:75-82 | with every reference id present, the output is the map's image of the reference ids |
| Reorder.TargetIsImage | reorder_notes.py:68 | a target with distinct ids is the image of its own ids |
| Reorder.ReorderPermutes | reorder_notes.py:68-93 | when both lists carry the same distinct ids, the output is a permutation of the target and nothing is missing |
| Reorder.WalkReference | reorder_notes.py:70-87 | the loop computes the walk and the missing count |
| Reorder.ReorderJsonNotes | reorder_notes.py:48-93 | a non-list input gives nothing; otherwise the output, the missing count and both warnings |
| Translate.FirstAnswer | translate.py:123-139 | no answer exactly when every attempt raises; otherwise the answer is the result of the first attempt that does not raise |
| Translate.SingleChunk | translate.py:121-141 | the result is the first non-raising attempt's answer when that is non-empty, and the chunk itself when it is empty or every attempt raises |
| Translate.TranslateSingleChunk | translate.py:121-141 | the retry loop computes the specification |
| Translate.ChunkStepInv | translate.py:98-106 | each sentence keeps the chunker's invariant: the order is kept, and groups of two or more stay within the bound |
| Translate.ChunkRunInv | translate.py:94-109 | the invariant holds after the whole loop |
| Translate.GroupsProperties | translate.py:94-109 | the groups hold every sentence once, in order; no group is empty; a group of two or more sentences is at most 4500 characters joined |
| Translate.ChunkTextsAt | translate.py:101-109 | each chunk is its group space-joined and stripped |
| Translate.ChunkSentences | translate.py:94-109 | the loop computes the groups and their chunk texts |
| Translate.TranslateText | translate.py:86-119 | blank text comes back unchanged; text of at most 4500 characters is translated as exactly one chunk |
| Translate.TranslateChunksSnoc | translate.py:111-117 | a blank chunk is passed over; any other is translated once |
| Translate.TranslateEachChunk | translate.py:111-117 | the loop translates the non-blank chunks in order |
| Translate.Translate | translate.py:86-119 | the method computes `TranslateText` |
| Translate.RuleFor | translate.py:189-225 | the plain-text `Source` step is never chosen |
| Translate.TranslateFieldRules | translate.py:189-225 | skipped and `Jlab-*` fields are copied; the HTML fields are translated only when not blank; only those two kinds change |
| Translate.SourceNeverTranslated | translate.py:190-215 | `Source` takes the skip step and is never translated |
| Translate.TranslatedFieldsShape | translate.py:187-227 | the same field names, in the same order, each with its routed value |
| Translate.RouteField | translate.py:189-225 | one step of the routing loop computes the field's routed value |
| Translate.TranslateFields | translate.py:187-225 | the routing loop builds the translated dict |
| Translate.ProcessNote | translate.py:172-237 | the result follows the specification, and `True` exactly when the note is processed and saved |
| Translate.ProcessNoteKeeps | translate.py:179-227 | processed exactly when forced or the file is missing; then id, model, tags and field names are kept |
| Translate.NoteFiles | translate.py:249 | exactly the `note_*.json` names of the listing |
| Translate.SelectNoteFilesProperties | translate.py:249 | the files assembled are exactly the note files, in lexicographic order |
| Translate.AssembleTranslatedNotes | translate.py:249-263 | nothing when there is no note file; otherwise every file that loads, in order |
| Order.Sort | translate.py:249 | sorted, and a permutation of its input |
| Order.SortPermutationInvariant | anki_importer.py:120 | inputs with the same elements sort to the same list |
| TagTree.InsertPathHas | list_tags.py:31-34 | the inserted path is in the tree |
| TagTree.InsertPathKeeps | list_tags.py:31-34 | inserting keeps every path already there |
| TagTree.InsertPathOnly | list_tags.py:31-34 | inserting adds no path other than prefixes of the inserted one |
| TagTree.InsertPathExisting | list_tags.py:32-34 | inserting a path already present changes nothing |
| TagTree.BuildTreeHasTags | list_tags.py:27-34 | every tag's `split(":")` is a path of the tree |
| TagTree.BuildTreeOnlyTags | list_tags.py:27-34 | every path of the tree is a prefix of some tag's parts |
| TagTree.BuildTreeIgnoresDuplicates | list_tags.py:27-34 | duplicate tags do not change the tree |
| TagTree.GetHierarchicalTags | list_tags.py:23-36 | the loop builds the specification tree |
| TagTree.LevelAtProperties | list_tags.py:38-46 | the empty path gives the whole tree; a missing key gives the empty dict; the keys of a present level are exactly its one-step extensions |
| TagTree.HasPathPrefix | list_tags.py:41-43 | every prefix of a present path is present |
| TagTree.GetLevelTags | list_tags.py:38-46 | the walk computes the level |
| TagTree.ClampIndex | list_tags.py:82-83 | a non-negative index ends between 0 and the last tag (0 for an empty level); it is unchanged when already in range, and the last tag (or 0) when past the end |
| TagTree.AdjustScroll | list_tags.py:86-90 | with a positive window, the selection is inside it; an index already visible keeps the scroll |
| TagTree.HandleKeyRules | list_tags.py:104-119 | UP and DOWN move only inside the list; ENTER on a listed tag descends and resets, and past the end of the list it leaves the state unchanged; ESC pops a non-empty path and at the top leaves the state unchanged; `q` quits with the state as it is; any other key changes nothing; only ENTER and ESC change the path |
| TagTree.IterateKeepsValid | list_tags.py:79-119 | each pass keeps the explorer on a path of the tree with non-negative counters |
| TagTree.ExploreKeepsValid | list_tags.py:66-119 | so does any sequence of key presses |
| TagTree.TagExplorer | list_tags.py:59-119 | the explorer builds the tree, runs the key loop and stays on a valid path |
| Text.Split | list_tags.py:28 | at least one part, none holding the separator, joining back to the input |
| Text.SplitJoin | list_tags.py:28 | splitting a join gives back the parts |
| TagToDeck.TagClausesAt | tag_to_deck.py:20 | one `tag:"t"` clause per tag, in order |
| TagToDeck.AllTagsQueryClauses | tag_to_deck.py:20 | for tags without spaces, the query splits into exactly one clause per tag, each selecting that tag |
| TagToDeck.UniqueNoteIds | tag_to_deck.py:25 | each note of the cards once |
| TagToDeck.ShuffleDownPermutes | tag_to_deck.py:37 | the swaps only reorder |
| TagToDeck.ShuffledPermutes | tag_to_deck.py:36-37 | shuffling keeps the same multiset, whatever is drawn |
| TagToDeck.Shuffle | tag_to_deck.py:36-37 | the in-place shuffle of the array computes `Shuffled` |
| TagToDeck.CloneNoteShape | tag_to_deck.py:41-62 | a clone has the target deck, the model and tags, the duplicate options and the same field keys; the `text` field gets the marker |
| TagToDeck.CloneAllAt | tag_to_deck.py:40-64 | one clone per note, in order |
| TagToDeck.CloneFields | tag_to_deck.py:45-52 | the inner loop builds the cloned fields dict |
| TagToDeck.CloneEach | tag_to_deck.py:40-64 | the note loop builds exactly one clone per note, in the given order |
| TagToDeck.AddClonedNotes | tag_to_deck.py:35-64 | the clones of the notes, shuffled first when asked |
| TagToDeck.AddClonedNotesClonesEach | tag_to_deck.py:35-64 | exactly one clone per note of the same multiset; without shuffle in the input order |
| TagToDeck.CloneTaggedNotes | tag_to_deck.py:82-90 | nothing exactly when no card matches; otherwise the clones of the notes of the cards found |
| SearchToHtml.QueryPartsAt | search_to_html.py:28-31 | three clauses per term, `"t"`, `tag:*t*`, `deck:*t*`, in that order |
| SearchToHtml.FindCardsQuery | search_to_html.py:26-32 | the loop builds the clauses and joins them with ` or ` |
| SearchToHtml.TagUnionMembers | search_to_html.py:39-41 | a tag is in the union exactly when some note carries it |
| SearchToHtml.SetToSeq | search_to_html.py:42 | the elements of the set, each once |
| SearchToHtml.SortedSet | search_to_html.py:42 | strictly sorted, with exactly the set's elements |
| SearchToHtml.GetUniqueTags | search_to_html.py:38-42 | strictly sorted, and a tag is listed exactly when some note carries it |
| SearchToHtml.CardsInTopDeck | search_to_html.py:47 | a card is kept exactly when its top-level deck is the one asked for |
| SearchToHtml.FilterByTopDeck | search_to_html.py:44-47 | with no deck the cards are unchanged; otherwise exactly the cards of that top-level deck |
| SearchToHtml.CardsInTopDeckIdempotent | search_to_html.py:47 | filtering twice is filtering once |
| SearchToHtml.CardsInTopDeckAppend | search_to_html.py:47 | the filter keeps the order, card by card |
| SearchToHtml.TopDeckKeepsSubdecks | search_to_html.py:47 | cards of a deck and of its subdecks pass the filter for it |
| Text.BeforeFirst | search_to_html.py:47 | a prefix of the name ending at the first `::` or at the end |
| SearchToHtml.ParseTerms | search_to_html.py:82 | at least one term, none holding `,` or outer whitespace |
| Text.BeforeFirstColons | search_to_html.py:47 | for a name `D` without `:`, the part before the first `::` of `D` and of `D::rest` is `D` |
| Text.Strip | search_to_html.py:82 | the result has no outer whitespace, only characters of the input, and is empty exactly when the input is blank |
| SearchToHtml.SafeNameShape | search_to_html.py:83 | the name is the joined terms lower-cased character by character, with spaces as `_`; it has no space |
| MediaScan.SrcValues | search_to_html.py:49-50 | each `src="..."` value is non-empty and holds no `"` |
| MediaScan.SrcValuesOfImgTags | anki_export.py:45-47 | scanning a page of `<img src="v">` tags gives back exactly their values, in order |
| AnkiExport.GetCards | anki_export.py:23-33 | an error exactly when neither tag nor deck is given; otherwise the cards found, or none |
| AnkiExport.ExtractTags | anki_export.py:40-43 | `["-"]` when tags are missing or empty, the tags unchanged otherwise |
| AnkiExport.BaseFolderPrefix | anki_export.py:76 | the folder is `export_` followed by the name with `::` replaced |
| AnkiExport.BaseFolderNoColons | anki_export.py:76 | no `::` is left |
| AnkiExport.BaseFolderKeepsSpaces | anki_export.py:76 | every space of the name is kept |
| AnkiExport.BaseFolderPlain | anki_export.py:76 | a name without `:` is used as it is |
| AnkiExport.DownloadMedia | anki_export.py:49-65 | success exactly when there is data that decodes, is an image and saves; its path is `media/<name>` |
| AnkiExport.Succeeding | anki_export.py:174-178 | the names kept are exactly those whose download succeeds |
| AnkiExport.RewriteLoopSucceeding | anki_export.py:174-178 | a failed download changes nothing wherever it stands: the loop equals the loop over the succeeding names |
| AnkiExport.RewriteLoopNoSuccess | anki_export.py:174-178 | when no download succeeds, the answer is unchanged |
| AnkiExport.RewriteAnswerAsWritten | anki_export.py:174-178 | the loop applies one `replace` per successful download of each scanned source |
| AnkiExport.RewriteLoopDoubles | anki_export.py:174-178 | an image referenced twice ends up as `media/media/x` in both places |
| AnkiExport.RewriteSrcsValues | anki_export.py:174-178 | rewriting each source where it stands gives back every source once, replaced by its path |
| AnkiExport.RewriteSrcsFrame | anki_export.py:174-178 | rewriting the sources changes nothing outside the source values: with every found value emptied, the text before and after are the same |
| AnkiExport.RewriteSrcsUnchanged | anki_export.py:174-178 | when no found source has a new path, the text is given back unchanged |
| AnkiExport.RewriteAnswerSources | anki_export.py:174-178 | each source becomes `media/v` when its download succeeds and stays `v` otherwise, no other source appears, nothing outside the source values changes, and with no successful download the answer is unchanged |
| AnkiExport.RewriteAnswerOnce | anki_export.py:174-178 | the twice-referenced image becomes `media/x` in both places |
| AnkiExport.ExtraFieldHidden | anki_export.py:189-194 | a field whose stripped value (and so also its whole value) is in the answer passed in (at line 193, the answer after the media rewrite and the button strip), or is blank, or is blank, or that is named `front`/`question` in any case, gets no button |

## Left out

- AnkiConnect requests (`invoke`, `anki_request`), their timeouts and error
  handling, and `list_decks.py`: their answers are function parameters.
- File and directory I/O:
  - reading and writing JSON, `os.makedirs`;
  - the CSS and HTML pages and the media files.
  `os.path.exists` is a set of existing paths. Writing a file is a boolean
  outcome.
- SHA-1 is an uninterpreted function returning 40 hexadecimal digits.
  `genanki.guid_for` is a function parameter. The genanki package is a record
  of what goes in.
- BeautifulSoup: the `src` list of `extract_media_filenames_from_html` is an
  input, and `translate_html_field` is a function parameter.
- The sentence split at translate.py:92 is a function parameter. The DeepL
  client is an oracle by chunk and attempt. `time.sleep` and logging are left
  out.
- Base64 decoding and `imghdr` detection are boolean outcomes of a download.
- Curses drawing and `getmaxyx` are left out. The terminal height and the key
  are inputs of each pass of the explorer loop.
- search_to_html.py's HTTP server, `webbrowser`, folder cleanup and page
  writing are left out (concurrency and OS glue).
- `random.shuffle` is Fisher–Yates driven by an index oracle, as CPython
  performs it. `random.randint` is a per-note, per-field draw in
  `[100000, 999999]`.
- `html.escape`, the `<button>` regex strip at anki_export.py:181 and the
  buttons written for extra fields are left out (presentation only).
- Python sets used as lists (`list(set(...))`, `list({...})`) are modelled
  in first-occurrence order, which Python does not promise. The results that
  pin an order are stated for that order only: the exported records
  (Exporter.ExportSpecProperties, Exporter.ExportRunRecords), the order in
  which the media cache logs download attempts, and the notes cloned by
  TagToDeck.CloneTaggedNotes. Only the facts that the list has no duplicates
  and holds the same elements as the set hold for any order.
- `str.lower()` is modelled on ASCII letters only. This is exact for the
  comparisons with `text`, `front` and `question`.
- SearchToHtml.SafeName and SearchToHtml.SafeNameShape: the folder name is
  not exact outside ASCII. Python lowers `Über` to `über`; the model keeps
  `Über`. Python lowers `İ` to two characters, so SafeNameShape's length
  equation holds of the model only.
- Translate.TNote keeps only the keys the translation reads or writes
  (`noteId`, `modelName`, `tags`, `fields`). Other keys of a note are not
  carried into the translated note.
- TagTree.GetHierarchicalTags: the nested dicts updated in place through the
  aliased `level` variable are modelled as a tree value rebuilt by
  `InsertPath`. Aliasing itself is not modelled.
- Translate: field values are strings. A non-string value in an HTML-routed
  field raises in Python; that path is not modelled.
- AnkiExport.RewriteLoop: `retrieve` gives one outcome per media name. The
  source sends a fresh `retrieveMediaFile` request for each scanned
  occurrence, so two occurrences of a name could get different answers.
  The model gives them the same one.
- `create_deck_if_not_exists`, `list_all_tags` and the `main` functions'
  argument parsing are left out (requests and glue). So is the text shown for
  each card of `export_to_html`.

## Findings

| source | as written | input that shows it | evidently intended | confidence | as-written member | corrected member |
|---|---|---|---|---|---|---|
| anki_export.py:174-178 | `answer = answer.replace(media_file, media_path)` runs once per scanned source over the whole answer. An image referenced twice is rewritten twice, and a name is also replaced wherever else it occurs in the text. | `<img src="x"><img src="x">` with both downloads succeeding gives `media/media/x` twice | each `src="v"` points at `media/v` once, and nothing else in the answer changes | not executed | AnkiExport.RewriteLoopDoubles | AnkiExport.RewriteAnswerSources |
