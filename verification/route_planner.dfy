/** Route computation over the single metro line: validation of the two
    selected stations, the contiguous stretch of the line between them
    (read backwards when travelling towards the start of the line), and the
    fare, duration, distance and interchange figures derived from the number
    of hops. */
module RoutePlanner {
  import opened Wrappers
  import opened Seqs

  /** The line, in track order from Aluva to Town Hall. */
  const Stations: seq<string> := [
    "Aluva", "Pulinchode", "Companypady", "Ambattukavu", "Muttom",
    "Kalamassery", "Cusat", "Pathadipalam", "Edapally", "Changampuzha Park",
    "Palarivattom", "JLN Stadium", "Kaloor", "Lissie", "MG Road",
    "Maharajas", "Ernakulam South", "Kadavanthra", "Elamkulam",
    "Vytilla", "Thaikoodam", "Petta", "Devi", "Town Hall"
  ]

  /** Fare policy, in rupees: a base fare plus a per-hop fare, capped. */
  const BaseFare: nat := 10
  const FarePerHop: nat := 2
  const FareCap: nat := 40

  /** Journey time, in minutes: a fixed boarding allowance plus a per-hop time. */
  const BaseMinutes: nat := 12
  const MinutesPerHop: nat := 2

  /** Average spacing between neighbouring stations, in tenths of a kilometre (1.2 km). */
  const TenthsKmPerHop: nat := 12

  /** The two select boxes; "" is the unselected placeholder option. */
  datatype Selection = Selection(from: string, to: string)

  /** The planned journey. Distance is kept in tenths of a kilometre. */
  datatype RouteResult = RouteResult(
    from: string,
    to: string,
    durationMinutes: nat,
    fare: nat,
    distanceTenthsKm: nat,
    stations: seq<string>,
    interchanges: nat)

  /** The two rejections, each shown to the user as an alert. */
  datatype RouteError = MissingStation | SameStation

  /** The line has 24 stations and none is listed twice. */
  lemma StationsWellFormed()
    ensures |Stations| == 24
    ensures Distinct(Stations)
    ensures "" !in Stations
  {
    StationsApart0();
    StationsApart1();
    StationsApart2();
    StationsApart3();
    StationsApart4();
    StationsApart5();
    DistinctFromThirds(Stations, 8, 16);
  }

  // The line's names are distinct in each third and between thirds; one
  // obligation per pair keeps each proof small.

  lemma StationsApart0()
    ensures DistinctAcross(Stations, 0, 8, 0, 8)
  {
  }

  lemma StationsApart1()
    ensures DistinctAcross(Stations, 0, 8, 8, 16)
  {
  }

  lemma StationsApart2()
    ensures DistinctAcross(Stations, 0, 8, 16, 24)
  {
  }

  lemma StationsApart3()
    ensures DistinctAcross(Stations, 8, 16, 8, 16)
  {
  }

  lemma StationsApart4()
    ensures DistinctAcross(Stations, 8, 16, 16, 24)
  {
  }

  lemma StationsApart5()
    ensures DistinctAcross(Stations, 16, 24, 16, 24)
  {
  }

  /** A value the select boxes can hold: the placeholder or a station of the line. */
  predicate Selectable(line: seq<string>, name: string) {
    name == "" || name in line
  }

  /** `Math.abs(toIndex - fromIndex)`: the number of hops between two positions. */
  function Hops(fromIndex: int, toIndex: int): (h: nat)
    ensures fromIndex + h == toIndex || toIndex + h == fromIndex
  {
    if fromIndex <= toIndex then toIndex - fromIndex else fromIndex - toIndex
  }

  /** `Math.min(10 + distance * 2, 40)`. */
  function Fare(hops: nat): (f: nat)
    ensures BaseFare <= f <= FareCap
    ensures f == FareCap <==> hops >= 15
    ensures f < FareCap ==> f == BaseFare + FarePerHop * hops
  {
    if BaseFare + FarePerHop * hops < FareCap then BaseFare + FarePerHop * hops else FareCap
  }

  /** A longer journey never costs less. */
  lemma FareMonotone(a: nat, b: nat)
    requires a <= b
    ensures Fare(a) <= Fare(b)
  {
  }

  /** `p` walks along `line` from position `start`, one station per step, forwards. */
  predicate RunsForward(p: seq<string>, line: seq<string>, start: int) {
    0 <= start && start + |p| <= |line|
    && forall k :: 0 <= k < |p| ==> p[k] == line[start + k]
  }

  /** `p` walks along `line` from position `start`, one station per step, backwards. */
  predicate RunsBackward(p: seq<string>, line: seq<string>, start: int) {
    start < |line| && 0 <= start - |p| + 1
    && forall k :: 0 <= k < |p| ==> p[k] == line[start - k]
  }

  /** The stretch of `line` between two positions, inclusive, ordered so that
      it starts at `fromIndex`: the slice between the smaller and the larger
      index, reversed when `fromIndex` is the larger. */
  function Path(line: seq<string>, fromIndex: nat, toIndex: nat): (p: seq<string>)
    requires fromIndex < |line| && toIndex < |line|
    ensures |p| == Hops(fromIndex, toIndex) + 1
    ensures p[0] == line[fromIndex] && p[|p| - 1] == line[toIndex]
    ensures fromIndex <= toIndex ==> RunsForward(p, line, fromIndex)
    ensures fromIndex >= toIndex ==> RunsBackward(p, line, fromIndex)
  {
    var lo := if fromIndex <= toIndex then fromIndex else toIndex;
    var hi := if fromIndex <= toIndex then toIndex else fromIndex;
    var between := line[lo..hi + 1];
    if fromIndex > toIndex then Reverse(between) else between
  }

  /** Travelling the other way visits the same stations in reverse order. */
  lemma PathReversal(line: seq<string>, a: nat, b: nat)
    requires a < |line| && b < |line|
    ensures Path(line, b, a) == Reverse(Path(line, a, b))
  {
    var p, q := Path(line, a, b), Path(line, b, a);
    assert |q| == |Reverse(p)|;
    forall k | 0 <= k < |q|
      ensures q[k] == Reverse(p)[k]
    {
      if a <= b {
        assert q[k] == line[b - k];
      } else {
        assert q[k] == line[b + k];
      }
    }
  }

  /** `calculateRoute` on `line` (the component passes `Stations`): the alert
      branches, then the route between the two stations' positions on the line. */
  function CalculateRoute(line: seq<string>, sel: Selection): (r: Result<RouteResult, RouteError>)
    requires Selectable(line, sel.from) && Selectable(line, sel.to)
    ensures r == Failure(MissingStation) <==> sel.from == "" || sel.to == ""
    ensures r == Failure(SameStation) <==> sel.from != "" && sel.to != "" && sel.from == sel.to
    ensures r.Success? ==>
      var route := r.value;
      var fi := IndexOf(line, sel.from);
      var ti := IndexOf(line, sel.to);
      && 0 <= fi < |line| && 0 <= ti < |line|
      && route.from == sel.from && route.to == sel.to
      && |route.stations| >= 2
      && route.stations[0] == sel.from
      && route.stations[|route.stations| - 1] == sel.to
      && |route.stations| == Hops(fi, ti) + 1
      && (if fi < ti then RunsForward(route.stations, line, fi)
          else RunsBackward(route.stations, line, fi))
      && route.fare == Fare(|route.stations| - 1)
      && route.durationMinutes == BaseMinutes + MinutesPerHop * (|route.stations| - 1)
      && route.distanceTenthsKm == TenthsKmPerHop * (|route.stations| - 1)
      && route.interchanges == 0
  {
    if sel.from == "" || sel.to == "" then Failure(MissingStation)
    else if sel.from == sel.to then Failure(SameStation)
    else
      var fi := IndexOf(line, sel.from);
      var ti := IndexOf(line, sel.to);
      var hops := Hops(fi, ti);
      Success(RouteResult(
        sel.from,
        sel.to,
        BaseMinutes + MinutesPerHop * hops,
        Fare(hops),
        TenthsKmPerHop * hops,
        Path(line, fi, ti),
        0))
  }

  /** `swapStations`: exchange the two selections. */
  function Swap(sel: Selection): (r: Selection)
    ensures r.from == sel.to && r.to == sel.from
  {
    Selection(sel.to, sel.from)
  }

  /** Swapping twice restores the selection. */
  lemma SwapTwice(sel: Selection)
    ensures Swap(Swap(sel)) == sel
  {
  }

  /** The Swap button: disabled, so nothing happens, while either box is unselected. */
  function PressSwap(sel: Selection): (r: Selection)
    ensures sel.from == "" || sel.to == "" ==> r == sel
    ensures sel.from != "" && sel.to != "" ==> r.from == sel.to && r.to == sel.from
    ensures (r.from == "" || r.to == "") <==> (sel.from == "" || sel.to == "")
  {
    if sel.from == "" || sel.to == "" then sel else Swap(sel)
  }

  /** Swapping twice restores the original selection. */
  lemma PressSwapTwice(sel: Selection)
    ensures PressSwap(PressSwap(sel)) == sel
  {
  }

  /** The route result for the opposite journey. */
  function Mirror(route: RouteResult): RouteResult {
    route.(from := route.to, to := route.from, stations := Reverse(route.stations))
  }

  /** Symmetry: planning the swapped selection rejects it for the same reason,
      or yields the same journey backwards at the same fare, duration and
      distance. */
  lemma {:induction false} RouteSymmetry(line: seq<string>, sel: Selection)
    requires Selectable(line, sel.from) && Selectable(line, sel.to)
    ensures CalculateRoute(line, sel).Failure? <==> CalculateRoute(line, Swap(sel)).Failure?
    ensures CalculateRoute(line, sel).Failure? ==>
      CalculateRoute(line, Swap(sel)).error == CalculateRoute(line, sel).error
    ensures CalculateRoute(line, sel).Success? ==>
      CalculateRoute(line, Swap(sel)).value == Mirror(CalculateRoute(line, sel).value)
  {
    if CalculateRoute(line, sel).Success? {
      var fi := IndexOf(line, sel.from);
      var ti := IndexOf(line, sel.to);
      PathReversal(line, fi, ti);
    }
  }

  /** On a line that lists no station twice (and has no unnamed station),
      the route between the stations at positions `i` and `j` has exactly
      `|j - i|` hops, whatever their names. */
  lemma RouteByPosition(line: seq<string>, i: nat, j: nat)
    requires Distinct(line) && "" !in line
    requires i < |line| && j < |line| && i != j
    ensures CalculateRoute(line, Selection(line[i], line[j])).Success?
    ensures |CalculateRoute(line, Selection(line[i], line[j])).value.stations| == Hops(i, j) + 1
    ensures CalculateRoute(line, Selection(line[i], line[j])).value.fare == Fare(Hops(i, j))
  {
    IndexOfInvertsIndexing(line, i);
    IndexOfInvertsIndexing(line, j);
  }

  /** The end-to-end journey: 23 hops, so the fare is capped at 40 and the
      journey takes 58 minutes over 27.6 km. */
  lemma EndToEndJourney()
    ensures
      var r := CalculateRoute(Stations, Selection("Aluva", "Town Hall"));
      && r.Success?
      && |r.value.stations| == 24
      && r.value.fare == 40
      && r.value.durationMinutes == 58
      && r.value.distanceTenthsKm == 276
  {
    StationsWellFormed();
    RouteByPosition(Stations, 0, 23);
  }
}
