/**
 * `tag_to_deck.py`: cloning the notes that carry all of some tags into a
 * target deck, each `text` field marked so that Anki does not take the
 * clone for a duplicate.
 *
 * The AnkiConnect requests are functions given as parameters; so are the
 * draws of `random.randint` and of the random index `random.shuffle` picks.
 */
module TagToDeck {
  import opened Wrappers
  import opened Text
  import opened Collections
  import opened Queries

  // ---------------------------------------------------------------------------
  // find_cards_with_all_tags

  /** `[f'tag:"{tag}"' for tag in all_tags]`. */
  function TagClauses(tags: seq<string>): seq<string> {
    if tags == [] then [] else TagClauses(tags[..|tags| - 1]) + [QueryOf(ByTag(tags[|tags| - 1]))]
  }

  /** The search for cards that carry every one of `tags`. */
  function AllTagsQuery(tags: seq<string>): string {
    Join(TagClauses(tags), " ")
  }

  lemma {:induction false} TagClausesAt(tags: seq<string>, i: nat)
    requires i < |tags|
    ensures |TagClauses(tags)| == |tags|
    ensures TagClauses(tags)[i] == QueryOf(ByTag(tags[i]))
  {
    if i < |tags| - 1 {
      TagClausesAt(tags[..|tags| - 1], i);
    } else if |tags| > 1 {
      TagClausesAt(tags[..|tags| - 1], 0);
    }
  }

  /**
   * When no tag holds a space, the query reads back as one `tag:"t"` clause
   * per tag, in the order the tags were given.
   */
  lemma AllTagsQueryClauses(tags: seq<string>)
    requires tags != [] && forall i :: 0 <= i < |tags| ==> ' ' !in tags[i]
    ensures |Split(AllTagsQuery(tags), ' ')| == |tags|
    ensures forall i :: 0 <= i < |tags| ==> ParseQuery(Split(AllTagsQuery(tags), ' ')[i]) == Some(ByTag(tags[i]))
  {
    var clauses := TagClauses(tags);
    TagClausesAt(tags, 0);
    forall i | 0 <= i < |clauses| ensures ' ' !in clauses[i] {
      TagClausesAt(tags, i);
      assert clauses[i] == "tag:\"" + tags[i] + "\"";
    }
    SplitJoin(clauses, ' ');
    forall i | 0 <= i < |tags| ensures ParseQuery(clauses[i]) == Some(ByTag(tags[i])) {
      TagClausesAt(tags, i);
      QueryRoundTrip(ByTag(tags[i]));
    }
  }

  // ---------------------------------------------------------------------------
  // get_unique_note_infos

  /** `list({card["note"] for card in notes_info})`: each note of the cards once. */
  function UniqueNoteIds(cardNotes: seq<int>): (r: seq<int>)
    ensures NoDups(r)
    ensures forall n :: n in r <==> n in cardNotes
  {
    Dedup(cardNotes)
  }

  // ---------------------------------------------------------------------------
  // random.shuffle

  function Swap<T>(s: seq<T>, i: nat, j: nat): (r: seq<T>)
    requires i < |s| && j < |s|
    ensures |r| == |s|
  {
    s[i := s[j]][j := s[i]]
  }

  lemma SwapPermutes<T>(s: seq<T>, i: nat, j: nat)
    requires i < |s| && j < |s|
    ensures multiset(Swap(s, i, j)) == multiset(s)
  {
    var t := s[i := s[j]];
    assert multiset(t) == multiset(s) - multiset{s[i]} + multiset{s[j]};
  }

  /**
   * The swaps of `random.shuffle` for the indices `i` down to 1; the index
   * drawn for `i` is `randBelow(i + 1)` reduced below `i + 1`.
   */
  function ShuffleDown<T>(s: seq<T>, i: nat, randBelow: nat -> nat): (r: seq<T>)
    requires i < |s|
    ensures |r| == |s|
    decreases i
  {
    if i == 0 then s
    else ShuffleDown(Swap(s, i, randBelow(i + 1) % (i + 1)), i - 1, randBelow)
  }

  /** The list after `random.shuffle(notes)`. */
  function Shuffled<T>(s: seq<T>, randBelow: nat -> nat): seq<T> {
    if |s| <= 1 then s else ShuffleDown(s, |s| - 1, randBelow)
  }

  lemma {:induction false} ShuffleDownPermutes<T>(s: seq<T>, i: nat, randBelow: nat -> nat)
    requires i < |s|
    ensures multiset(ShuffleDown(s, i, randBelow)) == multiset(s)
    decreases i
  {
    if i > 0 {
      var j := randBelow(i + 1) % (i + 1);
      SwapPermutes(s, i, j);
      ShuffleDownPermutes(Swap(s, i, j), i - 1, randBelow);
    }
  }

  /** Shuffling only reorders: the same multiset of notes, whatever is drawn. */
  lemma ShuffledPermutes<T>(s: seq<T>, randBelow: nat -> nat)
    ensures multiset(Shuffled(s, randBelow)) == multiset(s)
    ensures |Shuffled(s, randBelow)| == |s|
  {
    if |s| > 1 {
      ShuffleDownPermutes(s, |s| - 1, randBelow);
    }
  }

  /** `random.shuffle(a)` in place. */
  method Shuffle<T>(a: array<T>, randBelow: nat -> nat)
    modifies a
    ensures a[..] == Shuffled(old(a[..]), randBelow)
  {
    if a.Length <= 1 {
      return;
    }
    var i := a.Length - 1;
    while i > 0
      invariant 0 <= i < a.Length
      invariant ShuffleDown(a[..], i, randBelow) == Shuffled(old(a[..]), randBelow)
    {
      var j := randBelow(i + 1) % (i + 1);
      ghost var before := a[..];
      a[i], a[j] := a[j], a[i];
      assert a[..] == Swap(before, i, j);
      i := i - 1;
    }
  }

  // ---------------------------------------------------------------------------
  // add_cloned_notes

  /** What `random.randint(100000, 999999)` can return. */
  type Marker = n: int | 100000 <= n <= 999999 witness 100000

  /** A note as `notesInfo` returns it; a field's `value` key may be absent. */
  datatype SourceNote = SourceNote(modelName: string, fields: seq<(string, Option<string>)>, tags: seq<string>)

  /** A note for `addNotes`. */
  datatype NewNote = NewNote(
    deckName: string,
    modelName: string,
    fields: seq<(string, string)>,
    tags: seq<string>,
    allowDuplicate: bool,
    duplicateScope: string)

  /** The invisible span holding the marker. */
  function MarkerSpan(m: Marker): string {
    "<span style=\"display:none;\">&#8204;" + IntToString(m) + "</span>"
  }

  predicate IsTextKey(key: string) {
    Lower(key) == "text"
  }

  /** `val.get("value", "")`, with the marker appended to the `text` field. */
  function CloneField(key: string, val: Option<string>, m: Marker): string {
    var text := val.GetOr("");
    if IsTextKey(key) then text + MarkerSpan(m) else text
  }

  /** The item function of `cloned_fields[key] = text` for the note at `noteIndex`; `draw` is the marker drawn per note and field. */
  function CloneEntry(draw: (nat, nat) -> Marker, noteIndex: nat): (nat, string, Option<string>) -> string {
    (i: nat, key: string, val: Option<string>) => CloneField(key, val, draw(noteIndex, i))
  }

  function CloneNote(note: SourceNote, target: string, draw: (nat, nat) -> Marker, noteIndex: nat): NewNote {
    NewNote(target, note.modelName, DictMap(note.fields, CloneEntry(draw, noteIndex)), note.tags, true, "deck")
  }

  /**
   * A clone goes to the target deck with the same model and tags, allows
   * duplicates within the deck, and has the same field names; every field
   * carries the original value (`""` when absent), the `text` one followed
   * by the hidden marker.
   */
  lemma CloneNoteShape(note: SourceNote, target: string, draw: (nat, nat) -> Marker, noteIndex: nat)
    requires DistinctKeys(note.fields)
    ensures var c := CloneNote(note, target, draw, noteIndex);
      && c.deckName == target && c.modelName == note.modelName && c.tags == note.tags
      && c.allowDuplicate && c.duplicateScope == "deck"
      && Keys(c.fields) == Keys(note.fields)
    ensures forall i :: 0 <= i < |note.fields| ==>
      Get(CloneNote(note, target, draw, noteIndex).fields, note.fields[i].0) == Some(
        if IsTextKey(note.fields[i].0) then note.fields[i].1.GetOr("") + MarkerSpan(draw(noteIndex, i))
        else note.fields[i].1.GetOr(""))
  {
    var f := CloneEntry(draw, noteIndex);
    DictMapShape(note.fields, f);
    forall i | 0 <= i < |note.fields|
      ensures f(i, note.fields[i].0, note.fields[i].1) == CloneField(note.fields[i].0, note.fields[i].1, draw(noteIndex, i))
    {
    }
  }

  /** The clones of `notes`, one per note, in order. */
  function CloneAll(notes: seq<SourceNote>, target: string, draw: (nat, nat) -> Marker): seq<NewNote> {
    if notes == [] then []
    else CloneAll(notes[..|notes| - 1], target, draw) + [CloneNote(notes[|notes| - 1], target, draw, |notes| - 1)]
  }

  lemma {:induction false} CloneAllAt(notes: seq<SourceNote>, target: string, draw: (nat, nat) -> Marker, i: nat)
    requires i < |notes|
    ensures |CloneAll(notes, target, draw)| == |notes|
    ensures CloneAll(notes, target, draw)[i] == CloneNote(notes[i], target, draw, i)
  {
    if i < |notes| - 1 {
      CloneAllAt(notes[..|notes| - 1], target, draw, i);
    } else if |notes| > 1 {
      CloneAllAt(notes[..|notes| - 1], target, draw, 0);
    }
  }

  /** The inner loop of tag_to_deck.py:46-52. */
  method CloneFields(fields: seq<(string, Option<string>)>, draw: (nat, nat) -> Marker, noteIndex: nat)
    returns (cloned: seq<(string, string)>)
    ensures cloned == DictMap(fields, CloneEntry(draw, noteIndex))
  {
    cloned := [];
    var i := 0;
    while i < |fields|
      invariant 0 <= i <= |fields|
      invariant cloned == DictMap(fields[..i], CloneEntry(draw, noteIndex))
    {
      DictMapStep(fields, CloneEntry(draw, noteIndex), i);
      var text := fields[i].1.GetOr("");
      if IsTextKey(fields[i].0) {
        text := text + MarkerSpan(draw(noteIndex, i));
      }
      cloned := DictSet(cloned, fields[i].0, text);
      i := i + 1;
    }
    assert fields[..i] == fields;
  }

  /** The loop of tag_to_deck.py:40-64: one clone per note, in the given order. */
  method CloneEach(ordered: seq<SourceNote>, target: string, draw: (nat, nat) -> Marker)
    returns (newNotes: seq<NewNote>)
    ensures newNotes == CloneAll(ordered, target, draw)
  {
    newNotes := [];
    var i := 0;
    while i < |ordered|
      invariant 0 <= i <= |ordered|
      invariant newNotes == CloneAll(ordered[..i], target, draw)
    {
      assert ordered[..i + 1][..i] == ordered[..i];
      var clonedFields := CloneFields(ordered[i].fields, draw, i);
      var newNote := NewNote(target, ordered[i].modelName, clonedFields, ordered[i].tags, true, "deck");
      assert newNote == CloneNote(ordered[i], target, draw, i);
      newNotes := newNotes + [newNote];
      i := i + 1;
    }
    assert ordered[..i] == ordered;
  }

  /**
   * `add_cloned_notes(notes, target_deck, shuffle)` up to the `addNotes`
   * request: the notes it sends, one clone per input note, in input order
   * or, with `shuffle`, in the shuffled order.
   */
  method AddClonedNotes(notes: seq<SourceNote>, target: string, shuffle: bool, randBelow: nat -> nat, draw: (nat, nat) -> Marker)
    returns (newNotes: seq<NewNote>)
    ensures newNotes == CloneAll(if shuffle then Shuffled(notes, randBelow) else notes, target, draw)
  {
    var ordered := notes;
    if shuffle {
      var a := new SourceNote[|notes|](i requires 0 <= i < |notes| => notes[i]);
      assert a[..] == notes;
      Shuffle(a, randBelow);
      ordered := a[..];
    }
    newNotes := CloneEach(ordered, target, draw);
  }

  /** The notes cloned are those given, each once: shuffling changes only their order. */
  lemma AddClonedNotesClonesEach(notes: seq<SourceNote>, target: string, shuffle: bool, randBelow: nat -> nat, draw: (nat, nat) -> Marker)
    ensures var ordered := if shuffle then Shuffled(notes, randBelow) else notes;
      && multiset(ordered) == multiset(notes)
      && |CloneAll(ordered, target, draw)| == |notes|
      && forall i :: 0 <= i < |notes| ==> CloneAll(ordered, target, draw)[i] == CloneNote(ordered[i], target, draw, i)
    ensures !shuffle ==> forall i :: 0 <= i < |notes| ==> CloneAll(notes, target, draw)[i] == CloneNote(notes[i], target, draw, i)
  {
    var ordered := if shuffle then Shuffled(notes, randBelow) else notes;
    ShuffledPermutes(notes, randBelow);
    if notes != [] {
      CloneAllAt(ordered, target, draw, 0);
    }
    forall i | 0 <= i < |notes| ensures CloneAll(ordered, target, draw)[i] == CloneNote(ordered[i], target, draw, i) {
      CloneAllAt(ordered, target, draw, i);
    }
  }

  // ---------------------------------------------------------------------------
  // main

  /** The AnkiConnect answers the script works with. */
  datatype Anki = Anki(
    findCards: string -> seq<int>,       // `findCards` for a query
    noteOfCard: int -> int,              // the `note` of each `cardsInfo` entry
    notesInfo: seq<int> -> seq<SourceNote>)

  /** The note of each card, as `cardsInfo` reports it. */
  function CardNotes(anki: Anki, cardIds: seq<int>): seq<int> {
    seq(|cardIds|, i requires 0 <= i < |cardIds| => anki.noteOfCard(cardIds[i]))
  }

  /** The notes `notesInfo` returns for the cards a query finds. */
  function NotesOfQuery(anki: Anki, query: string): seq<SourceNote> {
    anki.notesInfo(UniqueNoteIds(CardNotes(anki, anki.findCards(query))))
  }

  /**
   * `main` after the arguments are parsed: None when no card matches (the
   * script stops), otherwise the notes it sends to `addNotes`.
   */
  method CloneTaggedNotes(anki: Anki, tags: seq<string>, deck: string, shuffle: bool, randBelow: nat -> nat, draw: (nat, nat) -> Marker)
    returns (r: Option<seq<NewNote>>)
    ensures anki.findCards(AllTagsQuery(tags)) == [] <==> r.None?
    ensures r.Some? ==> r.value == CloneAll(
      if shuffle then Shuffled(NotesOfQuery(anki, AllTagsQuery(tags)), randBelow) else NotesOfQuery(anki, AllTagsQuery(tags)),
      deck, draw)
  {
    var cardIds := anki.findCards(AllTagsQuery(tags));
    if cardIds == [] {
      return None;
    }
    var noteInfos := anki.notesInfo(UniqueNoteIds(CardNotes(anki, cardIds)));
    var newNotes := AddClonedNotes(noteInfos, deck, shuffle, randBelow, draw);
    return Some(newNotes);
  }
}
