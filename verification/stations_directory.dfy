/** The station directory: a search box matched case-insensitively against
    station names, a line selector where "All" is a wildcard, the crowd
    badge colour, and the facility chips shown on each card. */
module StationsDirectory {
  import opened Seqs
  import opened Text
  import opened Crowd

  /** A directory entry. Map coordinates are not modelled. */
  datatype Station = Station(
    id: string,
    name: string,
    line: string,
    openTime: string,
    closeTime: string,
    facilities: seq<string>,
    crowdLevel: CrowdLevel,
    parking: bool,
    accessibility: bool)

  /** The options of the line selector; "All" is selected initially. */
  const Lines: seq<string> := ["All", "Blue Line", "Green Line (Extension)"]

  /** The wildcard line option, selected initially. */
  const AllLines: string := Lines[0]

  /** The stations the directory lists. */
  const DirectoryStations: seq<Station> := [
    Station("aluva", "Aluva", "Blue Line", "05:30", "22:00",
            ["Parking", "WiFi", "Restrooms", "Food Court", "ATM"], High, true, true),
    Station("mg-road", "MG Road", "Blue Line", "05:30", "22:00",
            ["WiFi", "Restrooms", "Shopping", "ATM", "Elevators"], High, false, true),
    Station("vytilla", "Vytilla", "Blue Line", "05:30", "22:00",
            ["Parking", "WiFi", "Restrooms", "Bus Terminal", "ATM"], High, true, true),
    Station("palarivattom", "Palarivattom", "Blue Line", "05:30", "22:00",
            ["WiFi", "Restrooms", "Shops", "ATM"], Medium, false, true),
    Station("kalamassery", "Kalamassery", "Blue Line", "05:30", "22:00",
            ["Parking", "WiFi", "Restrooms", "ATM"], Medium, true, true),
    Station("edapally", "Edapally", "Blue Line", "05:30", "22:00",
            ["WiFi", "Restrooms", "Shopping Mall", "ATM", "Food Court"], High, false, true)
  ]

  /** Every listed station is on the Blue Line. */
  lemma DirectoryAllBlueLine()
    ensures forall i :: 0 <= i < |DirectoryStations| ==> DirectoryStations[i].line == "Blue Line"
  {
  }

  /** The line half of the filter: "All" lets every station through. */
  predicate OnSelectedLine(st: Station, selectedLine: string) {
    selectedLine == AllLines || st.line == selectedLine
  }

  /** Both halves of the filter. */
  predicate Shown(st: Station, searchTerm: string, selectedLine: string) {
    MatchesIgnoringCase(st.name, searchTerm) && OnSelectedLine(st, selectedLine)
  }

  /** `filteredStations`: the stations whose lower-cased name contains the
      lower-cased search term and whose line is the selected one, or any line
      when "All" is selected, in listing order. */
  function FilteredStations(stations: seq<Station>, searchTerm: string, selectedLine: string)
    : (r: seq<Station>)
    ensures IsSubsequence(r, stations)
    ensures forall i :: 0 <= i < |r| ==> Contains(Lower(r[i].name), Lower(searchTerm))
    ensures selectedLine != AllLines ==> forall i :: 0 <= i < |r| ==> r[i].line == selectedLine
    ensures selectedLine == AllLines ==>
      forall st :: st in r <==> st in stations && MatchesIgnoringCase(st.name, searchTerm)
    ensures forall st :: st in r <==> st in stations && Shown(st, searchTerm, selectedLine)
  {
    Filter(stations, (st: Station) => Shown(st, searchTerm, selectedLine))
  }

  /** With an empty search term and "All" selected, every station is listed:
      the empty string occurs in every name. */
  lemma EmptySearchShowsAll(stations: seq<Station>)
    ensures FilteredStations(stations, "", AllLines) == stations
  {
    forall i | 0 <= i < |stations|
      ensures Shown(stations[i], "", AllLines)
    {
      ContainsEmpty(Lower(stations[i].name));
    }
    FilterKeepsAll(stations, (st: Station) => Shown(st, "", AllLines));
  }

  /** No listed station is on the extension, so selecting it lists nothing,
      whatever the search term. */
  lemma ExtensionShowsNone(searchTerm: string)
    ensures FilteredStations(DirectoryStations, searchTerm, Lines[2]) == []
  {
    DirectoryAllBlueLine();
    FilterKeepsNone(DirectoryStations, (st: Station) => Shown(st, searchTerm, Lines[2]));
  }

  /** A chip on a station card: a facility name, or the "+n more" summary. */
  datatype Chip = FacilityChip(facility: string) | MoreChip(hidden: nat)

  /** Number of chips with a facility name at most. */
  const MaxFacilityChips: nat := 3

  /** The card's chips: the first three facilities, then "+(n - 3) more" when
      there are more than three. */
  function FacilityChips(facilities: seq<string>): (chips: seq<Chip>)
    ensures |facilities| <= MaxFacilityChips ==> |chips| == |facilities|
    ensures |facilities| > MaxFacilityChips ==> |chips| == MaxFacilityChips + 1
    ensures forall i :: 0 <= i < |chips| && i < MaxFacilityChips ==>
      i < |facilities| && chips[i] == FacilityChip(facilities[i])
    ensures (exists i :: 0 <= i < |chips| && chips[i].MoreChip?) <==> |facilities| > MaxFacilityChips
    ensures |facilities| > MaxFacilityChips ==>
      chips[MaxFacilityChips] == MoreChip(|facilities| - MaxFacilityChips)
  {
    var shown := if |facilities| <= MaxFacilityChips then |facilities| else MaxFacilityChips;
    var named := seq(shown, i requires 0 <= i < shown => FacilityChip(facilities[i]));
    var more := if |facilities| > MaxFacilityChips then [MoreChip(|facilities| - MaxFacilityChips)] else [];
    assert |more| > 0 ==> (named + more)[shown].MoreChip?;
    named + more
  }

  /** How many facilities a row of chips stands for. */
  function Represented(chips: seq<Chip>): nat {
    if |chips| == 0 then 0
    else (match chips[0] case FacilityChip(_) => 1 case MoreChip(n) => n) + Represented(chips[1..])
  }

  lemma {:induction false} RepresentedAppend(a: seq<Chip>, b: seq<Chip>)
    ensures Represented(a + b) == Represented(a) + Represented(b)
  {
    if |a| > 0 {
      assert (a + b)[1..] == a[1..] + b;
      RepresentedAppend(a[1..], b);
    } else {
      assert a + b == b;
    }
  }

  lemma {:induction false} RepresentedFacilityChips(chips: seq<Chip>)
    requires forall i :: 0 <= i < |chips| ==> chips[i].FacilityChip?
    ensures Represented(chips) == |chips|
  {
    if |chips| > 0 {
      RepresentedFacilityChips(chips[1..]);
    }
  }

  /** The chips account for every facility exactly once: shown ones count
      one each and the summary counts the rest. */
  lemma ChipsAccountForAll(facilities: seq<string>)
    ensures Represented(FacilityChips(facilities)) == |facilities|
  {
    var chips := FacilityChips(facilities);
    if |facilities| <= MaxFacilityChips {
      RepresentedFacilityChips(chips);
    } else {
      assert chips == chips[..MaxFacilityChips] + [chips[MaxFacilityChips]];
      RepresentedAppend(chips[..MaxFacilityChips], [chips[MaxFacilityChips]]);
      RepresentedFacilityChips(chips[..MaxFacilityChips]);
    }
  }

  /** `getCrowdColor` of the directory cards. */
  function CrowdColor(level: string): (c: string)
    ensures forall u :: c == LightClass(u) <==> u == BadgeTone(level)
  {
    LightClassSeparatesTones(BadgeTone(level));
    LightClass(BadgeTone(level))
  }

  /** Two badges look the same exactly when their levels fall in the same colour family. */
  lemma CrowdColorSeparatesTones(level: string, other: string)
    ensures CrowdColor(level) == CrowdColor(other) <==> BadgeTone(level) == BadgeTone(other)
  {
  }
}
