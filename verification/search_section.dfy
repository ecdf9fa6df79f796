/** The home-page search box: case-insensitive station suggestions (at most
    eight, shown only while something is typed and something matches),
    picking a suggestion, and the Track Now button's blank-query check. */
module SearchSection {
  import opened Seqs
  import opened Text
  import RoutePlanner

  /** The names the box suggests from: the line plus the planned extension stop. */
  const SearchStations: seq<string> := [
    "Aluva", "Pulinchode", "Companypady", "Ambattukavu", "Muttom",
    "Kalamassery", "Cusat", "Pathadipalam", "Edapally", "Changampuzha Park",
    "Palarivattom", "JLN Stadium", "Kaloor", "Lissie", "MG Road",
    "Maharajas", "Ernakulam South", "Kadavanthra", "Elamkulam",
    "Vytilla", "Thaikoodam", "Petta", "Devi", "Town Hall", "MG Road Extension"
  ]

  /** Suggestions displayed at most. */
  const MaxSuggestions: nat := 8

  /** The search list is the line followed by the extension stop. */
  lemma SearchListExtendsLine()
    ensures SearchStations == RoutePlanner.Stations + ["MG Road Extension"]
  {
  }

  /** The list has 25 distinct, non-empty names. */
  lemma SearchStationsWellFormed()
    ensures |SearchStations| == 25
    ensures Distinct(SearchStations)
    ensures "" !in SearchStations
  {
    SearchListExtendsLine();
    RoutePlanner.StationsWellFormed();
    assert "MG Road Extension" !in RoutePlanner.Stations;
  }

  /** `filteredStations` over `names` (the component passes `SearchStations`):
      the names containing the query, ignoring case, in list order. */
  function FilteredNames(names: seq<string>, query: string): (r: seq<string>)
    ensures IsSubsequence(r, names)
    ensures forall i :: 0 <= i < |r| ==> Contains(Lower(r[i]), Lower(query))
    ensures forall n :: n in r <==> n in names && MatchesIgnoringCase(n, query)
  {
    Filter(names, (n: string) => MatchesIgnoringCase(n, query))
  }

  /** The empty query matches every name. */
  lemma EmptyQueryMatchesAll(names: seq<string>)
    ensures FilteredNames(names, "") == names
  {
    forall i | 0 <= i < |names|
      ensures MatchesIgnoringCase(names[i], "")
    {
      ContainsEmpty(Lower(names[i]));
    }
    FilterKeepsAll(names, (n: string) => MatchesIgnoringCase(n, ""));
  }

  /** So the empty query matches all 25 names of the box. */
  lemma EmptyQueryMatchesAllStations()
    ensures |FilteredNames(SearchStations, "")| == 25
  {
    EmptyQueryMatchesAll(SearchStations);
  }

  /** The suggestion panel: rendered only for a non-empty query with at least
      one match, and then listing the first eight matches in order. */
  function Suggestions(names: seq<string>, query: string): (r: seq<string>)
    ensures |r| <= MaxSuggestions
    ensures r == [] <==>
      query == "" || forall i :: 0 <= i < |names| ==> !MatchesIgnoringCase(names[i], query)
    ensures query != "" ==>
      |r| == (if |FilteredNames(names, query)| < MaxSuggestions then |FilteredNames(names, query)| else MaxSuggestions)
    ensures r == FilteredNames(names, query)[..|r|]
    ensures IsSubsequence(r, names)
    ensures forall i :: 0 <= i < |r| ==> MatchesIgnoringCase(r[i], query)
  {
    var matches := FilteredNames(names, query);
    if query != "" && |matches| > 0 then
      var shown := if |matches| < MaxSuggestions then |matches| else MaxSuggestions;
      PrefixOfSubsequence(matches, names, shown);
      matches[..shown]
    else
      []
  }

  /** Clicking a suggestion: the query becomes that name, which matches itself,
      so the panel stays open and the name is still among the matches. (A
      suggestion contains the non-empty query, so it is not empty itself.) */
  function PickSuggestion(names: seq<string>, query: string, pick: string): (newQuery: string)
    requires pick in Suggestions(names, query)
    ensures newQuery == pick
    ensures pick in FilteredNames(names, newQuery)
    ensures Suggestions(names, newQuery) != []
  {
    ContainsIffOccurs(Lower(pick), Lower(query));
    ContainsSelf(Lower(pick));
    pick
  }

  /** What Track Now does: start tracking the query as typed, or ask for a station. */
  datatype TrackOutcome = TrackStation(query: string) | AskForStation

  /** `handleTrackNow`: proceeds only when the trimmed query is non-empty. */
  function TrackNow(query: string): (o: TrackOutcome)
    ensures o == AskForStation <==> Blank(query)
    ensures o.TrackStation? ==> o.query == query
  {
    TrimEmptyIffBlank(query);
    if Trim(query) != "" then TrackStation(query) else AskForStation
  }
}
