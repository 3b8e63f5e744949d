/** The location autocomplete (client/src/components/AutocompleteDropdown.jsx): the list of
    suggestions computed from the loaded locations and the settled query, and the input box
    whose handlers update the query and whether the list is open. The 200 ms debounce is
    not modelled: the suggestions are those of the query once it has settled. */
module Autocomplete {
  import Text
  import Seqs
  import opened Wrappers

  /** `keywords` is either a list, joined with spaces, or a single string. */
  datatype Keywords = KeywordList(words: seq<string>) | KeywordText(text: string)

  /** A location of the static list; an absent name, hub or keywords text is `""`. */
  datatype Location = Location(name: string, hub: string, keywords: Keywords)

  const MinQueryLength := 3
  const MaxSuggestions := 20

  function KeywordString(k: Keywords): string
  {
    match k
    case KeywordList(words) => Text.Join(words, " ")
    case KeywordText(text) => text
  }

  /** The name, the hub or the keywords, lower-cased, contain `q`. */
  predicate LocationMatches(loc: Location, q: string)
  {
    Text.Contains(Text.Lower(loc.name), q)
    || Text.Contains(Text.Lower(loc.hub), q)
    || Text.Contains(Text.Lower(KeywordString(loc.keywords)), q)
  }

  function MatchesText(q: string): Location -> bool
  {
    loc => LocationMatches(loc, q)
  }

  /** Every location matching the lower-cased query, in list order. */
  function Matching(options: seq<Location>, query: string): seq<Location>
  {
    Seqs.Filter(options, MatchesText(Text.Lower(query)))
  }

  /** A query too short to search: empty, or under three characters once trimmed. */
  predicate TooShort(query: string)
  {
    query == "" || |Text.Trim(query)| < MinQueryLength
  }

  /** `filtered`. */
  function Filtered(options: seq<Location>, query: string): (r: seq<Location>)
    ensures |r| <= MaxSuggestions
    ensures TooShort(query) ==> r == []
    ensures !TooShort(query) ==>
              |r| == Seqs.Min(MaxSuggestions, |Matching(options, query)|) && r == Matching(options, query)[..|r|]
  {
    if TooShort(query) then []
    else Seqs.Take(Matching(options, query), MaxSuggestions)
  }

  /** Every suggestion is a loaded location whose name, hub or keywords contain the
      lower-cased (untrimmed) query. */
  lemma SuggestionsMatch(options: seq<Location>, query: string)
    ensures forall loc :: loc in Filtered(options, query) ==> loc in options && LocationMatches(loc, Text.Lower(query))
  {
    var r := Filtered(options, query);
    if !TooShort(query) {
      var all := Matching(options, query);
      forall loc | loc in r ensures loc in options && LocationMatches(loc, Text.Lower(query)) {
        var i :| 0 <= i < |r| && r[i] == loc;
        assert all[i] == loc;
      }
    }
  }

  /** Fewer than twenty matches are all suggested. */
  lemma FewMatchesAllShown(options: seq<Location>, query: string)
    requires !TooShort(query) && |Matching(options, query)| <= MaxSuggestions
    ensures Filtered(options, query) == Matching(options, query)
  {
  }

  /** Surrounding spaces count for the search but not for the length gate: a query whose
      trimmed length is short yields nothing even when its raw length is long. */
  lemma PaddedShortQueryYieldsNothing(options: seq<Location>)
    ensures Filtered(options, "  ab  ") == []
  {
    assert Text.Trim("  ab  ") == "ab" by {
      assert Text.TrimStart("  ab  ") == "ab  ";
      assert Text.TrimEnd("ab  ") == "ab";
    }
  }

  /** The text shown in the input for a selected value: its name, or `""`. */
  function NameOf(value: Option<Location>): string
  {
    if value.Some? then value.value.name else ""
  }

  /** The input box: the typed query and whether the suggestion list is open. */
  class AutocompleteInput {
    var query: string
    var open: bool

    /** The initial state for the selected `value`: its name, closed. */
    constructor (value: Option<Location>)
      ensures query == NameOf(value) && !open
    {
      query := NameOf(value);
      open := false;
    }

    /** The list is drawn when open and there are suggestions for the query. */
    function Shown(options: seq<Location>): seq<Location>
      reads this
    {
      if open then Filtered(options, query) else []
    }

    /** `onChange` of the input: store the text, open iff its trimmed length is at least
        three, and clear the selection (`onChange(null)`) when the text is emptied and a
        handler is present. */
    method Input(next: string, hasOnChange: bool) returns (clearSelection: bool)
      modifies this
      ensures query == next
      ensures open <==> |Text.Trim(next)| >= MinQueryLength
      ensures clearSelection <==> hasOnChange && next == ""
      ensures forall options :: Shown(options) == Filtered(options, next)
    {
      query := next;
      open := |Text.Trim(next)| >= MinQueryLength;
      clearSelection := hasOnChange && next == "";
    }

    /** Focusing the input and clicking outside it close the list. */
    method Close()
      modifies this
      ensures query == old(query) && !open
    {
      open := false;
    }

    /** `handleSelect`: close the list and report the item to `onChange` when a handler is
        present. */
    method Select(item: Location, hasOnChange: bool) returns (selected: Option<Location>)
      modifies this
      ensures query == old(query) && !open
      ensures selected == (if hasOnChange then Some(item) else None)
    {
      open := false;
      selected := if hasOnChange then Some(item) else None;
    }

    /** A new selected `value` from the parent replaces the query with its name. */
    method ValueChanged(value: Option<Location>)
      modifies this
      ensures query == NameOf(value) && open == old(open)
    {
      query := NameOf(value);
    }
  }

  /** Whenever the typed text has suggestions, the input opens for it, so the list drawn
      after typing is exactly the suggestions of the text. */
  lemma SuggestionsOpenTheList(options: seq<Location>, next: string)
    requires Filtered(options, next) != []
    ensures |Text.Trim(next)| >= MinQueryLength
  {
  }
}
