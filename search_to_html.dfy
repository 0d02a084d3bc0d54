/**
 * `search_to_html.py`: the search for cards matching any of some terms, the
 * deck filter, the tags listed on the page, the image sources and the
 * name of the output folder.
 */
module SearchToHtml {
  import opened Wrappers
  import opened Text
  import opened Order
  import opened Queries

  // ---------------------------------------------------------------------------
  // find_cards_by_terms

  /** The three clauses for one term: its text, a tag containing it, a deck containing it. */
  function TermClauses(term: string): seq<string> {
    ["\"" + term + "\"", "tag:*" + term + "*", "deck:*" + term + "*"]
  }

  function QueryParts(terms: seq<string>): seq<string> {
    if terms == [] then [] else QueryParts(terms[..|terms| - 1]) + TermClauses(terms[|terms| - 1])
  }

  lemma {:induction false} QueryPartsAt(terms: seq<string>, i: nat)
    requires i < |terms|
    ensures |QueryParts(terms)| == 3 * |terms|
    ensures QueryParts(terms)[3 * i] == "\"" + terms[i] + "\""
    ensures QueryParts(terms)[3 * i + 1] == "tag:*" + terms[i] + "*"
    ensures QueryParts(terms)[3 * i + 2] == "deck:*" + terms[i] + "*"
  {
    if i < |terms| - 1 {
      QueryPartsAt(terms[..|terms| - 1], i);
    } else if |terms| > 1 {
      QueryPartsAt(terms[..|terms| - 1], 0);
    }
  }

  /** `find_cards_by_terms(terms)` up to the request: the `query_parts` loop and the join. */
  method FindCardsQuery(terms: seq<string>) returns (query: string)
    ensures query == Join(QueryParts(terms), " or ")
  {
    var queryParts: seq<string> := [];
    var i := 0;
    while i < |terms|
      invariant 0 <= i <= |terms|
      invariant queryParts == QueryParts(terms[..i])
    {
      assert terms[..i + 1][..i] == terms[..i];
      queryParts := queryParts + ["\"" + terms[i] + "\""];
      queryParts := queryParts + ["tag:*" + terms[i] + "*"];
      queryParts := queryParts + ["deck:*" + terms[i] + "*"];
      i := i + 1;
    }
    assert terms[..i] == terms;
    query := Join(queryParts, " or ");
  }

  // ---------------------------------------------------------------------------
  // get_unique_tags

  /** `set(xs)`. */
  function Elements(xs: seq<string>): set<string> {
    set t | t in xs
  }

  /** The union of `note.get("tags", [])` over the notes. */
  function TagUnion(noteTags: seq<Option<seq<string>>>): set<string> {
    if noteTags == [] then {}
    else TagUnion(noteTags[..|noteTags| - 1]) + Elements(noteTags[|noteTags| - 1].GetOr([]))
  }

  lemma {:induction false} TagUnionMembers(noteTags: seq<Option<seq<string>>>, t: string)
    ensures t in TagUnion(noteTags) <==> exists i :: 0 <= i < |noteTags| && t in noteTags[i].GetOr([])
  {
    if noteTags != [] {
      var init := noteTags[..|noteTags| - 1];
      TagUnionMembers(init, t);
      if t in TagUnion(init) {
        var i :| 0 <= i < |init| && t in init[i].GetOr([]);
        assert noteTags[i] == init[i];
      }
      if exists i :: 0 <= i < |noteTags| && t in noteTags[i].GetOr([]) {
        var i :| 0 <= i < |noteTags| && t in noteTags[i].GetOr([]);
        if i < |init| {
          assert noteTags[i] == init[i];
        }
      }
    }
  }

  /** The elements of a set, each once, in some order. */
  method SetToSeq(s: set<string>) returns (r: seq<string>)
    ensures multiset(r) == multiset(s)
  {
    r := [];
    var rest := s;
    while rest != {}
      invariant rest <= s
      invariant multiset(r) + multiset(rest) == multiset(s)
      decreases rest
    {
      var x :| x in rest;
      assert multiset(rest) == multiset(rest - {x}) + multiset{x};
      r := r + [x];
      rest := rest - {x};
    }
  }

  /** Two equal elements at different positions count twice. */
  lemma TwiceCounted(q: seq<string>, i: nat, j: nat)
    requires i < j < |q| && q[i] == q[j]
    ensures multiset(q)[q[i]] >= 2
  {
    assert q == q[..j] + q[j..];
    assert q[..j][i] == q[i];
    assert q[j..][0] == q[j];
  }

  /** `sorted(tag_set)`. */
  method SortedSet(s: set<string>) returns (r: seq<string>)
    ensures StrictlySorted(r)
    ensures forall t :: t in r <==> t in s
  {
    var elems := SetToSeq(s);
    r := Sort(elems);
    forall i, j | 0 <= i < j < |r| ensures r[i] != r[j] {
      if r[i] == r[j] {
        TwiceCounted(r, i, j);
      }
    }
    SortedNoDupsStrict(r);
    forall t ensures t in r <==> t in s {
      assert t in r <==> t in multiset(r);
    }
  }

  /** `get_unique_tags(notes)`: every tag of every note once, in lexicographic order. */
  method GetUniqueTags(noteTags: seq<Option<seq<string>>>) returns (r: seq<string>)
    ensures StrictlySorted(r)
    ensures forall t :: t in r <==> exists i :: 0 <= i < |noteTags| && t in noteTags[i].GetOr([])
  {
    var tagSet: set<string> := {};
    var i := 0;
    while i < |noteTags|
      invariant 0 <= i <= |noteTags|
      invariant tagSet == TagUnion(noteTags[..i])
    {
      assert noteTags[..i + 1][..i] == noteTags[..i];
      tagSet := tagSet + Elements(noteTags[i].GetOr([]));
      i := i + 1;
    }
    assert noteTags[..i] == noteTags;
    r := SortedSet(tagSet);
    forall t ensures t in r <==> exists i :: 0 <= i < |noteTags| && t in noteTags[i].GetOr([]) {
      TagUnionMembers(noteTags, t);
    }
  }

  // ---------------------------------------------------------------------------
  // filter_cards_by_top_deck

  datatype Card = Card(cardId: int, note: int, deckName: string)

  /** `deck_name.split("::")[0]`. */
  function TopDeck(deckName: string): string {
    BeforeFirst(deckName, "::")
  }

  function CardsInTopDeck(cards: seq<Card>, deck: string): (r: seq<Card>)
    ensures |r| <= |cards|
    ensures forall c :: c in r <==> c in cards && TopDeck(c.deckName) == deck
  {
    if cards == [] then []
    else
      var last := cards[|cards| - 1];
      var init := cards[..|cards| - 1];
      assert cards == init + [last];
      CardsInTopDeck(init, deck) + if TopDeck(last.deckName) == deck then [last] else []
  }

  /** `filter_cards_by_top_deck(cards, deck_name)`. */
  function FilterByTopDeck(cards: seq<Card>, deck: Option<string>): (r: seq<Card>)
    ensures !Truthy(deck) ==> r == cards
    ensures Truthy(deck) ==> forall c :: c in r <==> c in cards && TopDeck(c.deckName) == deck.value
  {
    if !Truthy(deck) then cards else CardsInTopDeck(cards, deck.value)
  }

  /** Filtering twice is filtering once. */
  lemma {:induction false} CardsInTopDeckIdempotent(cards: seq<Card>, deck: string)
    ensures CardsInTopDeck(CardsInTopDeck(cards, deck), deck) == CardsInTopDeck(cards, deck)
  {
    if cards != [] {
      var init := cards[..|cards| - 1];
      var last := cards[|cards| - 1];
      CardsInTopDeckIdempotent(init, deck);
      var kept := CardsInTopDeck(init, deck);
      if TopDeck(last.deckName) == deck {
        var r := kept + [last];
        assert r[..|r| - 1] == kept;
      } else {
        assert kept + [] == kept;
      }
    }
  }

  /** The filter works card by card, keeping their order: it distributes over concatenation. */
  lemma {:induction false} CardsInTopDeckAppend(a: seq<Card>, b: seq<Card>, deck: string)
    ensures CardsInTopDeck(a + b, deck) == CardsInTopDeck(a, deck) + CardsInTopDeck(b, deck)
  {
    if b == [] {
      assert a + b == a;
    } else {
      var init := b[..|b| - 1];
      var last := b[|b| - 1];
      assert (a + b)[..|a + b| - 1] == a + init;
      CardsInTopDeckAppend(a, init, deck);
    }
  }

  /** A card of deck `D` or of any subdeck `D::...` passes the filter for `D` (when `D` has no `:`). */
  lemma TopDeckKeepsSubdecks(deck: string, sub: string)
    requires ':' !in deck
    ensures TopDeck(deck) == deck
    ensures TopDeck(deck + "::" + sub) == deck
  {
    BeforeFirstColons(deck, sub);
  }

  // ---------------------------------------------------------------------------
  // the folder name of main

  /** `[term.strip() for term in args.terms.split(",")]`. */
  function ParseTerms(arg: string): (r: seq<string>)
    ensures |r| >= 1
    ensures forall i :: 0 <= i < |r| ==> ',' !in r[i] && (r[i] != [] ==> !IsSpace(r[i][0]) && !IsSpace(r[i][|r[i]| - 1]))
  {
    var parts := Split(arg, ',');
    seq(|parts|, i requires 0 <= i < |parts| => Strip(parts[i]))
  }

  /** `"_".join(terms).lower().replace(" ", "_")`. */
  function SafeName(terms: seq<string>): string {
    Replace(Lower(Join(terms, "_")), " ", "_")
  }

  /**
   * The folder name is the joined terms lower-cased, character for
   * character, with each space turned into `_`; so it holds no space.
   */
  lemma SafeNameShape(terms: seq<string>)
    ensures ' ' !in SafeName(terms)
    ensures |SafeName(terms)| == |Join(terms, "_")|
    ensures forall i :: 0 <= i < |Join(terms, "_")| ==>
      SafeName(terms)[i] == if LowerChar(Join(terms, "_")[i]) == ' ' then '_' else LowerChar(Join(terms, "_")[i])
  {
    var lowered := Lower(Join(terms, "_"));
    ReplaceCharIsMap(lowered, ' ', '_');
    ReplaceRemovesChar(lowered, ' ', "_");
  }
}
