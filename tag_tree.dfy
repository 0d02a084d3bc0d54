/**
 * `list_tags.py`: the tag hierarchy built from `:`-separated tag names and
 * the key-driven explorer over it, without the curses drawing.
 *
 * A level of the hierarchy is a dict from tag part to the next level; its
 * keys keep insertion order, which is the order the explorer lists them in.
 */
module TagTree {
  import opened Wrappers
  import opened Text
  import opened Collections

  datatype Tree = Tree(children: seq<(string, Tree)>)

  const EmptyLevel := Tree([])

  /** The child under `key`, if there is one. */
  function Child(t: Tree, key: string): Option<Tree> {
    Get(t.children, key)
  }

  /** Following `path` from the top level never meets a missing key. */
  predicate HasPath(t: Tree, path: seq<string>)
    decreases |path|
  {
    path == [] || (Child(t, path[0]).Some? && HasPath(Child(t, path[0]).value, path[1..]))
  }

  predicate IsPrefix(q: seq<string>, p: seq<string>) {
    |q| <= |p| && p[..|q|] == q
  }

  // ---------------------------------------------------------------------------
  // get_hierarchical_tags

  /** The inner loop of list_tags.py:31-34: walk down `parts`, adding each missing level. */
  function InsertPath(t: Tree, parts: seq<string>): Tree
    decreases |parts|
  {
    if parts == [] then t
    else
      var level := Child(t, parts[0]).GetOr(EmptyLevel);
      Tree(DictSet(t.children, parts[0], InsertPath(level, parts[1..])))
  }

  /** The tree after inserting every tag's `split(":")`, in order. */
  function BuildTree(tags: seq<string>): Tree {
    if tags == [] then EmptyLevel
    else InsertPath(BuildTree(tags[..|tags| - 1]), Split(tags[|tags| - 1], ':'))
  }

  /** The path just inserted is in the tree. */
  lemma {:induction false} InsertPathHas(t: Tree, p: seq<string>)
    ensures HasPath(InsertPath(t, p), p)
    decreases |p|
  {
    if p != [] {
      var level := Child(t, p[0]).GetOr(EmptyLevel);
      InsertPathHas(level, p[1..]);
    }
  }

  /** Inserting keeps every path that was there. */
  lemma {:induction false} InsertPathKeeps(t: Tree, p: seq<string>, q: seq<string>)
    requires HasPath(t, q)
    ensures HasPath(InsertPath(t, p), q)
    decreases |p|
  {
    if p != [] && q != [] {
      var level := Child(t, p[0]).GetOr(EmptyLevel);
      var t' := InsertPath(t, p);
      if q[0] == p[0] {
        InsertPathKeeps(level, p[1..], q[1..]);
      } else {
        DictSetOther(t.children, p[0], InsertPath(level, p[1..]), q[0]);
        assert Child(t', q[0]) == Child(t, q[0]);
      }
    }
  }

  lemma PrefixCons(q: seq<string>, p: seq<string>)
    requires q != [] && p != [] && q[0] == p[0]
    requires IsPrefix(q[1..], p[1..])
    ensures IsPrefix(q, p)
  {
    assert q == [q[0]] + q[1..];
    assert p[..|q|] == [p[0]] + p[1..][..|q| - 1];
  }

  /** Inserting adds no path other than prefixes of the inserted one. */
  lemma {:induction false} InsertPathOnly(t: Tree, p: seq<string>, q: seq<string>)
    requires HasPath(InsertPath(t, p), q)
    ensures HasPath(t, q) || IsPrefix(q, p)
    decreases |p|
  {
    if p != [] && q != [] {
      var level := Child(t, p[0]).GetOr(EmptyLevel);
      var t' := InsertPath(t, p);
      if q[0] == p[0] {
        assert Child(t', q[0]) == Some(InsertPath(level, p[1..]));
        InsertPathOnly(level, p[1..], q[1..]);
        if IsPrefix(q[1..], p[1..]) {
          PrefixCons(q, p);
        }
      } else {
        DictSetOther(t.children, p[0], InsertPath(level, p[1..]), q[0]);
        assert Child(t', q[0]) == Child(t, q[0]);
      }
    }
  }

  /** Inserting a path that is already there changes nothing. */
  lemma {:induction false} InsertPathExisting(t: Tree, p: seq<string>)
    requires HasPath(t, p)
    ensures InsertPath(t, p) == t
    decreases |p|
  {
    if p != [] {
      var child := Child(t, p[0]).value;
      InsertPathExisting(child, p[1..]);
      DictSetSame(t.children, p[0]);
    }
  }

  /** For every input tag, the path of its `:`-separated parts is in the tree. */
  lemma {:induction false} BuildTreeHasTags(tags: seq<string>)
    ensures forall i :: 0 <= i < |tags| ==> HasPath(BuildTree(tags), Split(tags[i], ':'))
  {
    if tags != [] {
      var init := tags[..|tags| - 1];
      BuildTreeHasTags(init);
      var last := Split(tags[|tags| - 1], ':');
      InsertPathHas(BuildTree(init), last);
      forall i | 0 <= i < |tags| - 1 ensures HasPath(BuildTree(tags), Split(tags[i], ':')) {
        assert tags[i] == init[i];
        InsertPathKeeps(BuildTree(init), last, Split(tags[i], ':'));
      }
    }
  }

  /** Every path in the tree starts some tag's parts: the builder adds no other node. */
  lemma {:induction false} BuildTreeOnlyTags(tags: seq<string>, q: seq<string>)
    requires HasPath(BuildTree(tags), q)
    ensures q == [] || exists i :: 0 <= i < |tags| && IsPrefix(q, Split(tags[i], ':'))
  {
    if tags != [] {
      var init := tags[..|tags| - 1];
      var last := Split(tags[|tags| - 1], ':');
      InsertPathOnly(BuildTree(init), last, q);
      if HasPath(BuildTree(init), q) {
        BuildTreeOnlyTags(init, q);
        if q != [] {
          var i :| 0 <= i < |init| && IsPrefix(q, Split(init[i], ':'));
          assert tags[i] == init[i];
        }
      }
    }
  }

  /** Duplicate tags do not change the tree: it is that of the tags taken once each. */
  lemma {:induction false} BuildTreeIgnoresDuplicates(tags: seq<string>)
    ensures BuildTree(Dedup(tags)) == BuildTree(tags)
  {
    if tags != [] {
      var init := tags[..|tags| - 1];
      var last := tags[|tags| - 1];
      BuildTreeIgnoresDuplicates(init);
      var d := Dedup(init);
      if last in d {
        assert Dedup(tags) == d;
        var j :| 0 <= j < |d| && d[j] == last;
        assert last in init;
        var i :| 0 <= i < |init| && init[i] == last;
        BuildTreeHasTags(init);
        assert HasPath(BuildTree(init), Split(init[i], ':'));
        InsertPathExisting(BuildTree(init), Split(last, ':'));
      } else {
        var d' := d + [last];
        assert Dedup(tags) == d';
        assert d'[..|d'| - 1] == d;
        assert BuildTree(d') == InsertPath(BuildTree(d), Split(last, ':'));
      }
    }
  }

  /** `get_hierarchical_tags(tags)`; each tag's path is added by `InsertPath`. */
  method GetHierarchicalTags(tags: seq<string>) returns (tree: Tree)
    ensures tree == BuildTree(tags)
  {
    tree := EmptyLevel;
    var i := 0;
    while i < |tags|
      invariant 0 <= i <= |tags|
      invariant tree == BuildTree(tags[..i])
    {
      assert tags[..i + 1][..i] == tags[..i];
      assert BuildTree(tags[..i + 1]) == InsertPath(BuildTree(tags[..i]), Split(tags[i], ':'));
      tree := InsertPath(tree, Split(tags[i], ':'));
      i := i + 1;
    }
    assert tags[..i] == tags;
  }

  // ---------------------------------------------------------------------------
  // get_level_tags

  /** The level at `path`, or the empty dict as soon as a key is missing. */
  function LevelAt(t: Tree, path: seq<string>): Tree
    decreases |path|
  {
    if path == [] then t
    else match Child(t, path[0])
      case None => EmptyLevel
      case Some(c) => LevelAt(c, path[1..])
  }

  /**
   * The empty path gives the whole tree, a path with a missing key gives
   * the empty dict, and below a present path the keys listed are exactly
   * the parts that extend it.
   */
  lemma {:induction false} LevelAtProperties(t: Tree, path: seq<string>, key: string)
    ensures LevelAt(t, []) == t
    ensures !HasPath(t, path) ==> LevelAt(t, path) == EmptyLevel
    ensures HasPath(t, path) ==> (HasPath(t, path + [key]) <==> key in Keys(LevelAt(t, path).children))
    decreases |path|
  {
    if path != [] {
      assert (path + [key])[0] == path[0] && (path + [key])[1..] == path[1..] + [key];
      if Child(t, path[0]).Some? {
        LevelAtProperties(Child(t, path[0]).value, path[1..], key);
      }
    } else {
      assert [key][1..] == [];
    }
  }

  /** A prefix of a present path is present. */
  lemma {:induction false} HasPathPrefix(t: Tree, path: seq<string>, n: nat)
    requires HasPath(t, path) && n <= |path|
    ensures HasPath(t, path[..n])
    decreases |path|
  {
    if n > 0 {
      assert path[..n][0] == path[0] && path[..n][1..] == path[1..][..n - 1];
      HasPathPrefix(Child(t, path[0]).value, path[1..], n - 1);
    }
  }

  method GetLevelTags(t: Tree, path: seq<string>) returns (level: Tree)
    ensures level == LevelAt(t, path)
  {
    level := t;
    var i := 0;
    while i < |path|
      invariant 0 <= i <= |path|
      invariant LevelAt(level, path[i..]) == LevelAt(t, path)
    {
      assert path[i..][0] == path[i] && path[i..][1..] == path[i + 1..];
      var next := Child(level, path[i]);
      if next.None? {
        return EmptyLevel;
      }
      level := next.value;
      i := i + 1;
    }
  }

  // ---------------------------------------------------------------------------
  // tag_explorer, without the drawing

  const KeyDown: int := 258   // curses.KEY_DOWN
  const KeyUp: int := 259     // curses.KEY_UP
  const KeyEnter: int := 10
  const KeyEscape: int := 27
  const KeyQuit: int := 113   // ord('q')

  /** The explorer's variables between two key presses. */
  datatype Nav = Nav(path: seq<string>, selectedIndex: int, scrollOffset: int)

  const InitialNav := Nav([], 0, 0)

  /** The clamp of list_tags.py:82-83. */
  function ClampIndex(selected: int, count: nat): (r: int)
    ensures 0 <= selected ==> 0 <= r && (r < count || r == 0)
    ensures selected < count ==> r == selected
    ensures selected >= count ==> r + 1 == count || (count == 0 && r == 0)
  {
    if selected >= count then if count - 1 > 0 then count - 1 else 0 else selected
  }

  /** The scroll adjustment of list_tags.py:86-90; `window` is `max_displayable_tags`. */
  function AdjustScroll(selected: int, scroll: int, window: int): (r: int)
    ensures window > 0 ==> r <= selected < r + window
    ensures scroll <= selected < scroll + window ==> r == scroll
    ensures 0 <= selected && 0 <= scroll ==> 0 <= r
  {
    if selected < scroll then selected
    else if selected >= scroll + window then selected - window + 1
    else scroll
  }

  datatype Step = Continue(nav: Nav) | Quit(nav: Nav)

  /** The key handling of list_tags.py:104-119, on the tags `current` shown at this level. */
  function HandleKey(nav: Nav, key: int, current: seq<string>): Step {
    var i := nav.selectedIndex;
    if key == KeyUp && i > 0 then Continue(nav.(selectedIndex := i - 1))
    else if key == KeyDown && i < |current| - 1 then Continue(nav.(selectedIndex := i + 1))
    else if key == KeyEnter then
      if 0 <= i < |current| then Continue(Nav(nav.path + [current[i]], 0, 0)) else Continue(nav)
    else if key == KeyEscape then
      if nav.path != [] then Continue(Nav(nav.path[..|nav.path| - 1], 0, 0)) else Continue(nav)
    else if key == KeyQuit then Quit(nav)
    else Continue(nav)
  }

  /**
   * UP and DOWN move by one only inside the list; ENTER on a listed tag
   * descends into it and resets index and scroll, and does nothing past the
   * end of the list; ESC goes up one level when there is one and does
   * nothing at the top; `q` quits; any other key does nothing, and only
   * ENTER and ESC change the path.
   */
  lemma HandleKeyRules(nav: Nav, key: int, current: seq<string>)
    requires 0 <= nav.selectedIndex
    ensures var r := HandleKey(nav, key, current);
      && (key == KeyUp ==> r == Continue(nav.(selectedIndex := if nav.selectedIndex > 0 then nav.selectedIndex - 1 else nav.selectedIndex)))
      && (key == KeyDown ==> r == Continue(nav.(selectedIndex := if nav.selectedIndex < |current| - 1 then nav.selectedIndex + 1 else nav.selectedIndex)))
      && (key == KeyEnter && nav.selectedIndex < |current| ==> r == Continue(Nav(nav.path + [current[nav.selectedIndex]], 0, 0)))
      && (key == KeyEnter && nav.selectedIndex >= |current| ==> r == Continue(nav))
      && (key == KeyEscape && nav.path != [] ==> r == Continue(Nav(nav.path[..|nav.path| - 1], 0, 0)))
      && (key == KeyEscape && nav.path == [] ==> r == Continue(nav))
      && (r.Quit? <==> key == KeyQuit)
      && (key == KeyQuit ==> r == Quit(nav))
      && (key !in {KeyUp, KeyDown, KeyEnter, KeyEscape, KeyQuit} ==> r == Continue(nav))
      && (key != KeyEnter && key != KeyEscape ==> r.nav.path == nav.path)
  {
  }

  /** One pass of the `while True` loop: clamp, scroll for a terminal `height` rows high, then the key. */
  function Iterate(tree: Tree, nav: Nav, height: int, key: int): Step {
    var current := Keys(LevelAt(tree, nav.path).children);
    var selected := ClampIndex(nav.selectedIndex, |current|);
    var scroll := AdjustScroll(selected, nav.scrollOffset, height - 3);
    HandleKey(Nav(nav.path, selected, scroll), key, current)
  }

  /** What holds between two key presses: the path is in the tree and the counters are not negative. */
  predicate ValidNav(tree: Tree, nav: Nav) {
    HasPath(tree, nav.path) && 0 <= nav.selectedIndex && 0 <= nav.scrollOffset
  }

  /** Every pass keeps the explorer on a path of the tree; ESC never leaves the top level. */
  lemma IterateKeepsValid(tree: Tree, nav: Nav, height: int, key: int)
    requires ValidNav(tree, nav)
    ensures ValidNav(tree, Iterate(tree, nav, height, key).nav)
  {
    var level := LevelAt(tree, nav.path);
    var current := Keys(level.children);
    var selected := ClampIndex(nav.selectedIndex, |current|);
    var r := Iterate(tree, nav, height, key);
    if r.nav.path != nav.path {
      if key == KeyEnter {
        LevelAtProperties(tree, nav.path, current[selected]);
      } else {
        HasPathPrefix(tree, nav.path, |nav.path| - 1);
      }
    }
  }

  /** The explorer driven by a sequence of (terminal height, key) pairs until `q`. */
  function Explore(tree: Tree, nav: Nav, input: seq<(int, int)>): Step
    decreases |input|
  {
    if input == [] then Continue(nav)
    else match Iterate(tree, nav, input[0].0, input[0].1)
      case Quit(n) => Quit(n)
      case Continue(n) => Explore(tree, n, input[1..])
  }

  lemma {:induction false} ExploreKeepsValid(tree: Tree, nav: Nav, input: seq<(int, int)>)
    requires ValidNav(tree, nav)
    ensures ValidNav(tree, Explore(tree, nav, input).nav)
    decreases |input|
  {
    if input != [] {
      IterateKeepsValid(tree, nav, input[0].0, input[0].1);
      var s := Iterate(tree, nav, input[0].0, input[0].1);
      if s.Continue? {
        ExploreKeepsValid(tree, s.nav, input[1..]);
      }
    }
  }

  /** The explorer from input position `i` is one pass and then the rest. */
  lemma ExploreFrom(tree: Tree, nav: Nav, input: seq<(int, int)>, i: nat)
    requires i < |input|
    ensures Explore(tree, nav, input[i..]) ==
      match Iterate(tree, nav, input[i].0, input[i].1)
      case Quit(n) => Quit(n)
      case Continue(n) => Explore(tree, n, input[i + 1..])
  {
    assert input[i..][0] == input[i] && input[i..][1..] == input[i + 1..];
  }

  /**
   * `tag_explorer`: builds the tree, then runs the loop on `input`. The
   * final state is that of `Explore`, and its path is always in the tree.
   */
  method TagExplorer(tags: seq<string>, input: seq<(int, int)>) returns (tree: Tree, result: Step)
    ensures tree == BuildTree(tags)
    ensures result == Explore(tree, InitialNav, input)
    ensures ValidNav(tree, result.nav)
  {
    tree := GetHierarchicalTags(tags);
    var nav := InitialNav;
    var i := 0;
    while i < |input|
      invariant 0 <= i <= |input|
      invariant Explore(tree, nav, input[i..]) == Explore(tree, InitialNav, input)
    {
      ExploreFrom(tree, nav, input, i);
      var level := GetLevelTags(tree, nav.path);
      var currentTags := Keys(level.children);
      var selectedIndex := ClampIndex(nav.selectedIndex, |currentTags|);
      var scrollOffset := AdjustScroll(selectedIndex, nav.scrollOffset, input[i].0 - 3);
      var step := HandleKey(Nav(nav.path, selectedIndex, scrollOffset), input[i].1, currentTags);
      assert step == Iterate(tree, nav, input[i].0, input[i].1);
      if step.Quit? {
        ExploreKeepsValid(tree, InitialNav, input);
        return tree, step;
      }
      nav := step.nav;
      i := i + 1;
    }
    result := Continue(nav);
    ExploreKeepsValid(tree, InitialNav, input);
  }
}
