/**
 * `get_cards` of the exporters: the Anki search query for a deck or a tag.
 * A tag, when given, takes precedence over the deck.
 */
module Queries {
  import opened Wrappers
  import opened Text

  /** Python truthiness of an optional string: present and non-empty. */
  predicate Truthy(o: Option<string>) {
    o.Some? && o.value != []
  }

  const MissingSelection: string := "Either deck name or tag must be provided."

  /** What a query selects cards by. */
  datatype Selection = ByTag(tag: string) | ByDeck(deck: string)

  /** The search text for a selection: `tag:"t"` or `deck:"d"`. */
  function QueryOf(sel: Selection): string {
    match sel
    case ByTag(t) => "tag:\"" + t + "\""
    case ByDeck(d) => "deck:\"" + d + "\""
  }

  /** Reads a query of the form `QueryOf` produces back into its selection. */
  function ParseQuery(q: string): Option<Selection> {
    if |q| >= 6 && StartsWith(q, "tag:\"") && q[|q| - 1] == '"' then Some(ByTag(q[5..|q| - 1]))
    else if |q| >= 7 && StartsWith(q, "deck:\"") && q[|q| - 1] == '"' then Some(ByDeck(q[6..|q| - 1]))
    else None
  }

  lemma QueryRoundTrip(sel: Selection)
    ensures ParseQuery(QueryOf(sel)) == Some(sel)
  {
    var q := QueryOf(sel);
    match sel
    case ByTag(t) =>
      assert q[..5] == "tag:\"";
      assert q[5..|q| - 1] == t;
    case ByDeck(d) =>
      assert q[0] == 'd' && "tag:\""[0] == 't';
      assert q[..5][0] == q[0];
      assert q[..6] == "deck:\"";
      assert q[6..|q| - 1] == d;
  }

  /** `get_cards(deck_name, tag)` up to the `findCards` request: the query, or the `ValueError`. */
  function CardQuery(deck: Option<string>, tag: Option<string>): (r: Result<string, string>)
    ensures r.Err? <==> !Truthy(tag) && !Truthy(deck)
    ensures r.Err? ==> r.error == MissingSelection
  {
    if Truthy(tag) then Ok(QueryOf(ByTag(tag.value)))
    else if Truthy(deck) then Ok(QueryOf(ByDeck(deck.value)))
    else Err(MissingSelection)
  }

  /**
   * The query selects by the tag whenever a tag is given, and by the deck
   * only when there is no tag; the selected name is never empty.
   */
  lemma CardQuerySelects(deck: Option<string>, tag: Option<string>)
    requires CardQuery(deck, tag).Ok?
    ensures Truthy(tag) ==> ParseQuery(CardQuery(deck, tag).value) == Some(ByTag(tag.value))
    ensures !Truthy(tag) ==> ParseQuery(CardQuery(deck, tag).value) == Some(ByDeck(deck.value))
    ensures ParseQuery(CardQuery(deck, tag).value).Some?
  {
    if Truthy(tag) {
      QueryRoundTrip(ByTag(tag.value));
    } else {
      QueryRoundTrip(ByDeck(deck.value));
    }
  }
}
