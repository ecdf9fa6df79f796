# Kochi Metro locater — a Dafny model of its logic

The web app has four React components that contain real logic. This project
lifts each one into pure Dafny functions over immutable data and proves what
they promise:

- **Route planner** (`RoutePlanner`). The metro line is an ordered list of 24 stations. A
  route between two selected stations is rejected if either box is
  unselected or both boxes name the same station. Otherwise the route is the
  contiguous stretch of the line between them, read backwards when
  travelling towards Aluva. Its fare is `min(10 + 2·hops, 40)` rupees, its
  duration is `12 + 2·hops` minutes, its distance is 1.2 km per hop and it
  has no interchanges. The Swap button exchanges the two boxes.
- **Live tracking** (`LiveTracking`). A fixed seed roster of trains is filtered by the
  selected line. Every ten seconds a tick moves each visible train's ETA by
  a random step, with a floor of one minute, and moves its delay by another
  random step. `Math.floor(Math.random() * 2 - 1)` can only be -1 or 0, so
  the steps are a parameter of type `Step` (-1 or 0), two per train per tick.
  The delay and crowd badges are coloured by fixed rules.
- **Stations directory** (`StationsDirectory`). Stations are matched case-insensitively
  against a search term and filtered by line, where "All" is a wildcard. Each
  card shows at most three facility chips, plus a "+n more" chip.
- **Search box** (`SearchSection`). It shows up to eight case-insensitive suggestions
  from a list of 25 names, lets the user pick one, and has a Track Now
  button that refuses a blank query.

Shared pieces live in their own modules:

- `Seqs` holds `filter`, `indexOf`, `reverse` and the order-preserving
  subsequence relation.
- `Text` holds ASCII lower-casing, `includes` and `trim`.
- `Crowd` holds the crowd-level union, the colour family each level's badge
  gets, and the light-theme badge classes both components use.
- `Wrappers` holds the `Result` type that carries the planner's two
  rejections.

Three behaviours of the code the model follows:

- A tick's random step is -1 or 0, never +1. So ETA and delay never
  increase, and the model proves it.
- `calculateRoute` never rejects a name outside the list; `indexOf` would
  return -1 for it. Both select boxes offer only the placeholder and the
  list's names, so the model takes that value domain as its precondition
  (`Selectable`). The model has only the two rejections the code makes.
- Clicking a line button re-filters the seed, which discards accumulated
  drift. Clicking the line that is already selected does not re-run the
  effect, so that keeps the drifted roster (`SelectRoute`).

## Model

| member | source | states |
|---|---|---|
| RoutePlanner.StationsWellFormed | RoutePlanner.tsx:20-26 | the line lists 24 stations, none twice and none with the empty placeholder name |
| Seqs.IndexOf | RoutePlanner.tsx:43-44 | `indexOf` gives -1 exactly for an absent name, otherwise the position of its first occurrence |
| Seqs.IndexOfInvertsIndexing | RoutePlanner.tsx:43-44 | on a list without duplicates, `indexOf` inverts indexing, so it is a bijection onto the positions |
| RoutePlanner.Hops | RoutePlanner.tsx:54 | the hop count is the distance between the two positions: adding it to the smaller reaches the larger |
| Seqs.Reverse | RoutePlanner.tsx:50-52 | the reversed stretch has the same length, with element i taken from position length-1-i |
| RoutePlanner.Fare | RoutePlanner.tsx:54-55 | the fare is between 10 and 40; it equals the cap 40 exactly when the journey has 15 or more hops; below the cap it is 10 + 2 per hop |
| RoutePlanner.FareMonotone | RoutePlanner.tsx:55 | a journey with more hops never costs less |
| RoutePlanner.Path | RoutePlanner.tsx:45-52 | the stretch has hops+1 stations, starts at the origin's station and ends at the destination's, and runs one station per step forwards or backwards along the line |
| RoutePlanner.PathReversal | RoutePlanner.tsx:45-52 | the stretch for the opposite direction is the reverse of this one |
| RoutePlanner.CalculateRoute | RoutePlanner.tsx:28-69 | an empty box gives MissingStation, also when both are empty; two equal non-empty boxes give SameStation; otherwise the route starts at `from` and ends at `to` with at least two stations; its length is the index difference + 1, along the line in the travel direction; fare is Fare(stations-1); duration is 12 + 2·(stations-1) minutes; distance is 12·(stations-1) tenths of a km; interchanges are 0 |
| RoutePlanner.RouteSymmetry | RoutePlanner.tsx:43-65 | the swapped selection fails for the same reason, or gives the same route backwards with from and to exchanged and equal fare, duration and distance |
| RoutePlanner.RouteByPosition | RoutePlanner.tsx:43-55 | on a line without duplicates, any two different stations at positions i and j get a route of abs(j-i)+1 stations and fare Fare(abs(j-i)) |
| RoutePlanner.EndToEndJourney | RoutePlanner.tsx:54-62 | Aluva to Town Hall passes all 24 stations for the capped fare 40, 58 minutes and 27.6 km |
| RoutePlanner.Swap | RoutePlanner.tsx:71-75 | `swapStations` puts the destination into the origin box and the origin into the destination box |
| RoutePlanner.SwapTwice | RoutePlanner.tsx:71-75 | swapping twice restores the selection |
| RoutePlanner.PressSwap | RoutePlanner.tsx:139-141 | the Swap button does nothing while either box is unselected; otherwise it exchanges the boxes, and it never changes whether a box is unselected |
| RoutePlanner.PressSwapTwice | RoutePlanner.tsx:71-75 | swapping twice restores the original selection |
| Crowd.Name | LiveTracking.tsx:10 | a crowd level is one of the strings Low, Medium, High |
| Crowd.NameInjective | LiveTracking.tsx:10 | different crowd levels have different names |
| LiveTracking.SeedWellFormed | LiveTracking.tsx:17-58 | no two seed trains share an id, every ETA is at least one minute, every train is on the Blue Line |
| LiveTracking.MockTrainDataGoodSeed | LiveTracking.tsx:17-58 | the seed roster meets what the view's invariants need of a seed: unique ids and every ETA at least one minute |
| Seqs.Filter | LiveTracking.tsx:67 | `filter` keeps an element exactly when it is in the input and satisfies the predicate, and keeps every copy of it (each value occurs as often as in the input if it passes, otherwise never); the result is an order-preserving subsequence, never longer than the input |
| LiveTracking.RosterFor | LiveTracking.tsx:67 | the visible roster is an order-preserving subsequence of the roster, every train in it runs on the selection, and a train appears exactly when it is in the roster on that line |
| Seqs.SubsequenceKeepsDistinctBy | LiveTracking.tsx:67 | filtering cannot make two keys collide: a subsequence of a list with distinct keys has distinct keys |
| LiveTracking.BlueLineShowsAll | LiveTracking.tsx:15-67 | selecting the Blue Line shows the whole seed roster |
| LiveTracking.ExtensionShowsNone | LiveTracking.tsx:15-67 | selecting the Green Line (Extension) shows no trains |
| LiveTracking.RosterForEitherAllOrNone | LiveTracking.tsx:17-67 | with this seed, the Blue Line shows every train and any other line shows none |
| LiveTracking.RandomStep | LiveTracking.tsx:74-75 | for a random number in [0, 1) the step is -1 exactly on the lower half and 0 on the upper half, never +1 |
| LiveTracking.TickTrain | LiveTracking.tsx:72-76 | a tick leaves id, route, stations, crowd level and direction alone; the new ETA is at least 1 and at most one below the old; with an old ETA of at least 1 it never rises; a -1 step lowers the ETA by one unless that would go below 1, where it stays at 1; a -1 step lowers the delay by one, also below zero; a zero step keeps the value |
| LiveTracking.Tick | LiveTracking.tsx:72-76 | a tick keeps the roster's length and id order and updates each train with its own draws |
| LiveTracking.Run | LiveTracking.tsx:69-77 | after any run of ticks: only ETA and delay have changed; each delay is at most the original and at least the original minus the number of ticks; ETAs that started at 1 or more stay between 1 and their start; after at least one tick every ETA is at least 1 |
| LiveTracking.DelayColor | LiveTracking.tsx:91-95 | green exactly for delay at most 0, yellow exactly for 1 or 2, red exactly above 2 |
| LiveTracking.DelayColorMonotone | LiveTracking.tsx:91-95 | a larger delay never gets a less severe colour |
| LiveTracking.TickNeverWorsensDelayColor | LiveTracking.tsx:75 | a tick never makes a train's delay colour more severe |
| Crowd.BadgeTone | LiveTracking.tsx:82-89 | Low is green, Medium yellow and High red, each exactly; the grey default is chosen exactly for any other string |
| Crowd.BadgeToneSeparatesLevels | LiveTracking.tsx:82-89 | the three crowd levels get three different colours, none of them the grey default |
| LiveTracking.CrowdColor | LiveTracking.tsx:82-89 | `getCrowdColor` returns the classes of the level's colour family (green for Low, yellow for Medium, red for High, grey otherwise) and of no other family |
| LiveTracking.CrowdColorSeparatesTones | LiveTracking.tsx:82-89 | two train badges get the same classes exactly when their level strings fall in the same colour family |
| LiveTracking.SelectRoute | LiveTracking.tsx:65-80 | after a click the clicked line is selected; re-clicking the selected line changes nothing; another line shows an order-preserving subsequence of the seed holding exactly the seed trains of that line |
| LiveTracking.TickView | LiveTracking.tsx:69-77 | a tick keeps the selection and the number of trains, changes only ETAs and delays, and moves each card's ETA and delay by `TickTrain` with that card's own draws |
| LiveTracking.Open | LiveTracking.tsx:61-67 | once the effect has first run, the Blue Line is selected and the whole seed roster is shown |
| LiveTracking.FreshViewValid | LiveTracking.tsx:65-67 | filtering a seed with unique ids and ETAs of at least 1 for any line gives a valid view |
| LiveTracking.OpenValid | LiveTracking.tsx:61-67 | the view opens on the Blue Line showing the seed roster, every ETA at least 1 |
| LiveTracking.SelectRoutePreservesValid | LiveTracking.tsx:65-67 | for a seed with unique ids and ETAs of at least 1, after a line click, the view still shows drifted copies of exactly the selected line's seed trains with ETAs at least 1 |
| LiveTracking.TickViewPreservesValid | LiveTracking.tsx:72-76 | after a tick, the view still shows drifted copies of exactly the selected line's seed trains with ETAs at least 1 |
| LiveTracking.ValidViewConsistent | LiveTracking.tsx:132-134 | in a reachable view over a seed with unique ids, every train is on the selected line and no card id repeats |
| LiveTracking.ReselectResetsDrift | LiveTracking.tsx:65-80 | leaving a line and selecting it again shows its seed roster, discarding drift |
| StationsDirectory.DirectoryAllBlueLine | StationsDirectory.tsx:22-95 | every directory station is on the Blue Line |
| Text.Lower | StationsDirectory.tsx:100 | lower-casing keeps the length, maps each character on its own and leaves no ASCII capital |
| Text.ContainsIffOccurs | StationsDirectory.tsx:100 | `includes` holds exactly when the needle occurs at some position of the haystack |
| StationsDirectory.FilteredStations | StationsDirectory.tsx:99-103 | the result is an order-preserving subsequence of the stations; every kept name contains the term ignoring case; a line other than All keeps only that line; with All only the name counts; a station is kept exactly when both tests pass |
| StationsDirectory.EmptySearchShowsAll | StationsDirectory.tsx:99-103 | an empty term with All lists every station |
| StationsDirectory.ExtensionShowsNone | StationsDirectory.tsx:97-103 | selecting the Green Line (Extension) lists nothing, whatever the term |
| StationsDirectory.FacilityChips | StationsDirectory.tsx:204-216 | min(3, n) facility chips, the first facilities in order, followed by a "+(n-3) more" chip exactly when n > 3 |
| StationsDirectory.ChipsAccountForAll | StationsDirectory.tsx:204-216 | the chips stand for every facility exactly once: one each for shown ones plus the hidden count |
| StationsDirectory.CrowdColor | StationsDirectory.tsx:105-112 | `getCrowdColor` returns the light classes of the level's colour family (green for Low, yellow for Medium, red for High, grey otherwise) and of no other family |
| StationsDirectory.CrowdColorSeparatesTones | StationsDirectory.tsx:105-112 | two directory badges get the same classes exactly when their level strings fall in the same colour family (green for Low, yellow for Medium, red for High, grey otherwise) |
| SearchSection.SearchListExtendsLine | SearchSection.tsx:10-16 | the search list is the planner's 24-station line in the same order, followed by MG Road Extension |
| SearchSection.SearchStationsWellFormed | SearchSection.tsx:10-16 | the search list has 25 distinct, non-empty names |
| SearchSection.FilteredNames | SearchSection.tsx:18-20 | the matches are an order-preserving subsequence of the names, and a name is kept exactly when it contains the query ignoring case |
| SearchSection.EmptyQueryMatchesAll | SearchSection.tsx:18-20 | the empty query matches every name |
| SearchSection.EmptyQueryMatchesAllStations | SearchSection.tsx:10-20 | the empty query matches all 25 names |
| SearchSection.Suggestions | SearchSection.tsx:143-146 | at most 8 suggestions; none exactly when the query is empty or matches no name; otherwise the first min(8, matches) matches in order, each containing the query |
| SearchSection.PickSuggestion | SearchSection.tsx:146-149 | picking a suggestion makes it the query; it then matches itself, so it stays among the matches and the panel stays open |
| Text.TrimStart | SearchSection.tsx:67 | removes exactly the leading white space, leaving a suffix that starts with a non-space |
| Text.TrimEnd | SearchSection.tsx:67 | removes exactly the trailing white space, leaving a prefix that ends with a non-space |
| Text.Trim | SearchSection.tsx:67 | the result is a contiguous window of the input with only white space before and after it, and when non-empty it starts and ends with a non-space; so it is the input with its leading and trailing white space removed |
| Text.TrimEmptyIffBlank | SearchSection.tsx:67 | trimming leaves nothing exactly when every character is white space |
| SearchSection.TrackNow | SearchSection.tsx:66-73 | Track Now asks for a station exactly when the query is all white space (or empty); otherwise it tracks the query as typed |

## Left out

- Voice search (`SpeechRecognition`, the `window` checks and its callbacks) is browser I/O.
- Alerts are not modelled as output; the two route alerts are the error values of `CalculateRoute`, and the two Track Now alerts are the two `TrackOutcome` values.
- The 1500 ms planning delay, the `isPlanning` spinner, the ten-second `setInterval`, its clearing and the "last updated" `Date` are timing and UI state. The model has no scheduler; one tick is one function call.
- `Math.random` is replaced by explicit draws. `RandomStep` relates a draw to a real number in [0, 1).
- CalculateRoute: the distance is an integer number of tenths of a kilometre, because `toFixed(1)` formatting of a floating-point product is not modelled. The duration is a number of minutes, not the text "N min".
- TickTrain: ETA is a natural number of minutes, because parsing and printing the text "N min" is not modelled.
- Text.Lower: lower-cases ASCII letters only, not the full Unicode mapping of `toLowerCase`.
- Names outside the line's list are excluded by `CalculateRoute`'s precondition, because the select boxes cannot produce them.
- Multi-line routing does not exist in the code (interchanges are always 0), so nothing models it.
- Station coordinates, opening hours, the parking, accessibility and WiFi icons, and the station detail modal are display-only.
- The text of the "+n more" chip is not modelled; the chip carries the number n.
- HeroSection.tsx, Footer.tsx, App.tsx and all JSX and Tailwind rendering are presentational. App.tsx's section switch has no logic worth modelling.
- The view's initial empty roster, which exists before the effect's first run, is not modelled; `Open` is the state after that run.
