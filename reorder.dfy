/**
 * `reorder_notes.py`: put the notes of a target list into the order of a
 * reference list, matching by `noteId`.
 *
 * A note is its `noteId` (absent or null is None) and the rest of its JSON
 * object, which the reordering carries along untouched.
 */
module Reorder {
  import opened Wrappers

  datatype Note<C> = Note(noteId: Option<int>, body: C)

  /** What `json.load` produced: a list of notes, or some other JSON value. */
  datatype Loaded<C> = NotAList | List(notes: seq<Note<C>>)

  /**
   * `{note.get("noteId"): note for note in target if note.get("noteId") is not None}`:
   * later notes overwrite earlier ones with the same id.
   */
  function BuildMap<C>(target: seq<Note<C>>): map<int, Note<C>> {
    if target == [] then map[]
    else
      var m := BuildMap(target[..|target| - 1]);
      var last := target[|target| - 1];
      match last.noteId
      case None => m
      case Some(id) => m[id := last]
  }

  /** Exactly the ids some target note carries are keys of the map. */
  lemma {:induction false} BuildMapKeys<C>(target: seq<Note<C>>, k: int)
    ensures k in BuildMap(target) <==> exists i :: 0 <= i < |target| && target[i].noteId == Some(k)
  {
    if target != [] {
      var init := target[..|target| - 1];
      BuildMapKeys(init, k);
      if exists i :: 0 <= i < |target| && target[i].noteId == Some(k) {
        var i :| 0 <= i < |target| && target[i].noteId == Some(k);
        if i < |init| {
          assert init[i] == target[i];
        }
      }
      if exists i :: 0 <= i < |init| && init[i].noteId == Some(k) {
        var i :| 0 <= i < |init| && init[i].noteId == Some(k);
        assert target[i] == init[i];
      }
    }
  }

  /** The map sends an id to the last target note carrying it. */
  /** `target[i]` carries id `k` and no later note does. */
  predicate LastWithId<C>(target: seq<Note<C>>, i: int, k: int) {
    0 <= i < |target| && target[i].noteId == Some(k) && forall j :: i < j < |target| ==> target[j].noteId != Some(k)
  }

  lemma {:induction false} BuildMapLastWins<C>(target: seq<Note<C>>, k: int)
    requires k in BuildMap(target)
    ensures exists i :: LastWithId(target, i, k) && target[i] == BuildMap(target)[k]
  {
    var init := target[..|target| - 1];
    var last := target[|target| - 1];
    if last.noteId == Some(k) {
      assert target[|target| - 1] == BuildMap(target)[k];
    } else {
      assert BuildMap(target)[k] == BuildMap(init)[k];
      BuildMapLastWins(init, k);
      var i :| LastWithId(init, i, k) && init[i] == BuildMap(init)[k];
      assert target[i] == init[i];
      assert LastWithId(target, i, k) by {
        forall j | i < j < |target| ensures target[j].noteId != Some(k) {
          if j < |init| {
            assert target[j] == init[j];
          }
        }
      }
    }
  }

  /** The notes the walk appends, in reference order. */
  function Walk<C>(refs: seq<Note<C>>, m: map<int, Note<C>>): seq<Note<C>> {
    if refs == [] then []
    else
      var last := refs[|refs| - 1];
      Walk(refs[..|refs| - 1], m) +
        match last.noteId
        case None => []
        case Some(id) => if id in m then [m[id]] else []
  }

  /** `missing_notes_count`. */
  function Missing<C>(refs: seq<Note<C>>, m: map<int, Note<C>>): nat {
    if refs == [] then 0
    else
      var last := refs[|refs| - 1];
      Missing(refs[..|refs| - 1], m) +
        match last.noteId
        case None => 0
        case Some(id) => if id in m then 0 else 1
  }

  /** How many reference notes carry an id. */
  function IdBearing<C>(refs: seq<Note<C>>): nat {
    if refs == [] then 0
    else IdBearing(refs[..|refs| - 1]) + if refs[|refs| - 1].noteId.Some? then 1 else 0
  }

  /** How many reference notes carry an id that no target note carries. */
  function Absent<C>(refs: seq<Note<C>>, target: seq<Note<C>>): nat {
    if refs == [] then 0
    else
      var last := refs[|refs| - 1];
      Absent(refs[..|refs| - 1], target) +
        if last.noteId.Some? && forall j :: 0 <= j < |target| ==> target[j].noteId != last.noteId then 1 else 0
  }

  /**
   * The walk treats each reference note on its own: walking two lists one
   * after the other is walking their concatenation, so a repeated reference
   * id yields its note again.
   */
  lemma {:induction false} WalkAppend<C>(a: seq<Note<C>>, b: seq<Note<C>>, m: map<int, Note<C>>)
    ensures Walk(a + b, m) == Walk(a, m) + Walk(b, m)
  {
    if b == [] {
      assert a + b == a;
    } else {
      var b' := b[..|b| - 1];
      assert (a + b)[..|a + b| - 1] == a + b';
      assert (a + b)[|a + b| - 1] == b[|b| - 1];
      WalkAppend(a, b', m);
    }
  }

  /** A reference note whose id the map holds contributes exactly that note. */
  lemma WalkOne<C>(r: Note<C>, m: map<int, Note<C>>)
    requires r.noteId.Some? && r.noteId.value in m
    ensures Walk([r], m) == [m[r.noteId.value]]
  {
    assert [r][..0] == [];
  }

  /** Every reference note with an id is either found or counted missing. */
  lemma {:induction false} WalkCount<C>(refs: seq<Note<C>>, m: map<int, Note<C>>)
    ensures |Walk(refs, m)| + Missing(refs, m) == IdBearing(refs)
  {
    if refs != [] {
      WalkCount(refs[..|refs| - 1], m);
    }
  }

  /** The missing count is the number of reference ids the target does not have. */
  lemma {:induction false} MissingIsAbsent<C>(refs: seq<Note<C>>, target: seq<Note<C>>)
    ensures Missing(refs, BuildMap(target)) == Absent(refs, target)
  {
    if refs != [] {
      var last := refs[|refs| - 1];
      MissingIsAbsent(refs[..|refs| - 1], target);
      if last.noteId.Some? {
        BuildMapKeys(target, last.noteId.value);
      }
    }
  }

  /** Every note of the output is a target note, and one that carries an id. */
  lemma {:induction false} WalkFromTarget<C>(refs: seq<Note<C>>, target: seq<Note<C>>)
    ensures forall i :: 0 <= i < |Walk(refs, BuildMap(target))| ==>
      Walk(refs, BuildMap(target))[i] in target && Walk(refs, BuildMap(target))[i].noteId.Some?
  {
    var m := BuildMap(target);
    if refs != [] {
      var init := refs[..|refs| - 1];
      var last := refs[|refs| - 1];
      WalkFromTarget(init, target);
      if last.noteId.Some? && last.noteId.value in m {
        BuildMapLastWins(target, last.noteId.value);
      }
      var w := Walk(refs, m);
      assert forall i :: 0 <= i < |Walk(init, m)| ==> w[i] == Walk(init, m)[i];
    }
  }

  // ---------------------------------------------------------------------------
  // a permutation of ids gives a permutation of notes

  function Ids<C>(notes: seq<Note<C>>): seq<int>
    requires forall i :: 0 <= i < |notes| ==> notes[i].noteId.Some?
  {
    if notes == [] then [] else Ids(notes[..|notes| - 1]) + [notes[|notes| - 1].noteId.value]
  }

  /** The notes the map holds for the ids, in order; ids it lacks are passed over. */
  function Image<C>(m: map<int, Note<C>>, ids: seq<int>): seq<Note<C>> {
    if ids == [] then [] else (if ids[0] in m then [m[ids[0]]] else []) + Image(m, ids[1..])
  }

  lemma {:induction false} ImageAppend<C>(m: map<int, Note<C>>, a: seq<int>, b: seq<int>)
    ensures Image(m, a + b) == Image(m, a) + Image(m, b)
  {
    if a != [] {
      assert (a + b)[1..] == a[1..] + b;
      ImageAppend(m, a[1..], b);
    } else {
      assert a + b == b;
    }
  }

  /** Id lists that are permutations of each other have images that are too. */
  lemma {:induction false} ImagePermutation<C>(m: map<int, Note<C>>, a: seq<int>, b: seq<int>)
    requires multiset(a) == multiset(b)
    ensures multiset(Image(m, a)) == multiset(Image(m, b))
    decreases |a|
  {
    if a == [] {
      assert |b| == |multiset(b)| == 0;
    } else {
      var x := a[0];
      assert x in multiset(b);
      var k :| 0 <= k < |b| && b[k] == x;
      var b1, b2 := b[..k], b[k + 1..];
      var rest := [x] + b2;
      assert b == b1 + rest;
      var b' := b1 + b2;
      RemoveOne(a, b, k);
      ImagePermutation(m, a[1..], b');
      ImageAppend(m, b1, b2);
      ImageAppend(m, b1, rest);
      assert rest[1..] == b2;
      var one := if x in m then [m[x]] else [];
      assert Image(m, rest) == one + Image(m, b2);
      assert Image(m, a) == one + Image(m, a[1..]);
      MultisetRotate(Image(m, b1), one, Image(m, b2));
      assert Image(m, b) == Image(m, b1) + (one + Image(m, b2));
      assert Image(m, b') == Image(m, b1) + Image(m, b2);
    }
  }

  lemma MultisetRotate<T>(x: seq<T>, y: seq<T>, z: seq<T>)
    ensures multiset(x + (y + z)) == multiset(y) + multiset(x + z)
  {
  }

  lemma RemoveOne(a: seq<int>, b: seq<int>, k: nat)
    requires a != [] && k < |b| && b[k] == a[0] && multiset(a) == multiset(b)
    ensures multiset(a[1..]) == multiset(b[..k] + b[k + 1..])
  {
    assert a == [a[0]] + a[1..];
    assert multiset(a[1..]) == multiset(a) - multiset{a[0]};
    assert b == b[..k] + [b[k]] + b[k + 1..];
    assert multiset(b) == multiset(b[..k]) + multiset{b[k]} + multiset(b[k + 1..]);
    assert multiset(b[..k] + b[k + 1..]) == multiset(b[..k]) + multiset(b[k + 1..]);
  }

  /** With every reference id present, the walk is the image of the reference ids. */
  lemma {:induction false} WalkIsImage<C>(refs: seq<Note<C>>, m: map<int, Note<C>>)
    requires forall i :: 0 <= i < |refs| ==> refs[i].noteId.Some?
    ensures Walk(refs, m) == Image(m, Ids(refs))
  {
    if refs != [] {
      var init := refs[..|refs| - 1];
      var id := refs[|refs| - 1].noteId.value;
      WalkIsImage(init, m);
      ImageAppend(m, Ids(init), [id]);
      assert [id][1..] == [];
    }
  }

  /** Ids are distinct: no two notes carry the same one. */
  predicate DistinctIds<C>(notes: seq<Note<C>>) {
    forall i, j :: 0 <= i < j < |notes| ==> notes[i].noteId != notes[j].noteId
  }

  /** A target with distinct ids is the image of its own ids under its map. */
  lemma {:induction false} TargetIsImage<C>(target: seq<Note<C>>)
    requires forall i :: 0 <= i < |target| ==> target[i].noteId.Some?
    requires DistinctIds(target)
    ensures Image(BuildMap(target), Ids(target)) == target
  {
    var m := BuildMap(target);
    var ids := Ids(target);
    assert |ids| == |target| && forall i :: 0 <= i < |target| ==> ids[i] == target[i].noteId.value by {
      IdsAt(target);
    }
    forall i | 0 <= i < |ids| ensures ids[i] in m && m[ids[i]] == target[i] {
      BuildMapKeys(target, ids[i]);
      BuildMapLastWins(target, ids[i]);
      var j :| LastWithId(target, j, ids[i]) && target[j] == m[ids[i]];
      assert target[j].noteId == target[i].noteId;
    }
    ImageAt(m, ids, target);
  }

  lemma {:induction false} IdsAt<C>(notes: seq<Note<C>>)
    requires forall i :: 0 <= i < |notes| ==> notes[i].noteId.Some?
    ensures |Ids(notes)| == |notes|
    ensures forall i :: 0 <= i < |notes| ==> Ids(notes)[i] == notes[i].noteId.value
  {
    if notes != [] {
      IdsAt(notes[..|notes| - 1]);
    }
  }

  lemma {:induction false} ImageAt<C>(m: map<int, Note<C>>, ids: seq<int>, notes: seq<Note<C>>)
    requires |ids| == |notes|
    requires forall i :: 0 <= i < |ids| ==> ids[i] in m && m[ids[i]] == notes[i]
    ensures Image(m, ids) == notes
  {
    if ids != [] {
      ImageAt(m, ids[1..], notes[1..]);
    }
  }

  /**
   * When every note of both lists carries an id, the target's ids are
   * distinct, and the reference ids are a permutation of the target ids,
   * the output is a permutation of the target, nothing is missing and the
   * length check passes.
   */
  lemma ReorderPermutes<C>(refs: seq<Note<C>>, target: seq<Note<C>>)
    requires forall i :: 0 <= i < |refs| ==> refs[i].noteId.Some?
    requires forall i :: 0 <= i < |target| ==> target[i].noteId.Some?
    requires DistinctIds(target)
    requires multiset(Ids(refs)) == multiset(Ids(target))
    ensures multiset(Walk(refs, BuildMap(target))) == multiset(target)
    ensures Missing(refs, BuildMap(target)) == 0
    ensures |Walk(refs, BuildMap(target))| == |target|
  {
    var m := BuildMap(target);
    TargetIsImage(target);
    IdsAt(refs);
    IdsAt(target);
    WalkIsImage(refs, m);
    ImagePermutation(m, Ids(refs), Ids(target));
    assert multiset(Walk(refs, m)) == multiset(target);
    assert |Walk(refs, m)| == |multiset(Walk(refs, m))| == |multiset(target)| == |target|;
    assert |refs| == |multiset(Ids(refs))| == |multiset(Ids(target))| == |target|;
    WalkCount(refs, m);
    IdBearingAll(refs);
  }

  lemma {:induction false} IdBearingAll<C>(refs: seq<Note<C>>)
    requires forall i :: 0 <= i < |refs| ==> refs[i].noteId.Some?
    ensures IdBearing(refs) == |refs|
  {
    if refs != [] {
      IdBearingAll(refs[..|refs| - 1]);
    }
  }

  // ---------------------------------------------------------------------------
  // the reordering

  /** The outcome of a reordering: the notes written, the missing count and the two warnings. */
  datatype Report<C> = Report(reordered: seq<Note<C>>, missing: nat, missingWarning: bool, mismatchWarning: bool)

  /** The walk over the reference notes, reorder_notes.py:70-87. */
  method WalkReference<C>(refs: seq<Note<C>>, m: map<int, Note<C>>) returns (reordered: seq<Note<C>>, missing: nat)
    ensures reordered == Walk(refs, m) && missing == Missing(refs, m)
  {
    reordered := [];
    missing := 0;
    var i := 0;
    while i < |refs|
      invariant 0 <= i <= |refs|
      invariant reordered == Walk(refs[..i], m) && missing == Missing(refs[..i], m)
    {
      assert refs[..i + 1][..i] == refs[..i];
      var refId := refs[i].noteId;
      if refId.Some? {
        if refId.value in m {
          reordered := reordered + [m[refId.value]];
        } else {
          missing := missing + 1;
        }
      }
      i := i + 1;
    }
    assert refs[..i] == refs;
  }

  /** `reorder_json_notes` once both files are loaded: None when either is not a list. */
  method ReorderJsonNotes<C>(reference: Loaded<C>, target: Loaded<C>) returns (r: Option<Report<C>>)
    ensures reference.NotAList? || target.NotAList? ==> r.None?
    ensures reference.List? && target.List? ==>
      var m := BuildMap(target.notes);
      var out := Walk(reference.notes, m);
      r == Some(Report(out, Missing(reference.notes, m), Missing(reference.notes, m) > 0, |out| != |target.notes|))
  {
    if reference.NotAList? {
      return None;
    }
    if target.NotAList? {
      return None;
    }
    var m := BuildMap(target.notes);
    var reordered, missing := WalkReference(reference.notes, m);
    r := Some(Report(reordered, missing, missing > 0, |reordered| != |target.notes|));
  }
}
