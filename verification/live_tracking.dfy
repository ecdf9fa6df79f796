/** The live fleet view: a fixed seed roster filtered by the selected line,
    and the ten-second tick that nudges every visible train's ETA and delay
    by a random step while leaving every other field alone. The random
    source is an explicit argument: each train draws two steps per tick. */
module LiveTracking {
  import opened Seqs
  import opened Crowd

  /** A train's live status. The source keeps the ETA as the text "N min";
      here it is the number N. */
  datatype TrainStatus = TrainStatus(
    id: string,
    route: string,
    currentStation: string,
    nextStation: string,
    delay: int,
    crowdLevel: CrowdLevel,
    etaMinutes: nat,
    direction: string)

  /** The two line buttons. */
  const Routes: seq<string> := ["Blue Line", "Green Line (Extension)"]

  /** The line selected when the view opens: the first button. */
  const DefaultRoute: string := Routes[0]

  /** The fixed roster every session starts from. */
  const MockTrainData: seq<TrainStatus> := [
    TrainStatus("ML-001", "Blue Line", "MG Road", "Lissie", 0, Medium, 2, "Towards Tripunithura"),
    TrainStatus("ML-002", "Blue Line", "Vytilla", "Thaikoodam", 1, Low, 4, "Towards Aluva"),
    TrainStatus("ML-003", "Blue Line", "Kalamassery", "Cusat", -1, High, 1, "Towards Tripunithura"),
    TrainStatus("ML-004", "Blue Line", "Palarivattom", "JLN Stadium", 2, Medium, 3, "Towards Aluva")
  ]

  /** The card ids, one per train, in roster order. */
  function Ids(trains: seq<TrainStatus>): (ids: seq<string>)
    ensures |ids| == |trains|
    ensures forall i :: 0 <= i < |trains| ==> ids[i] == trains[i].id
  {
    seq(|trains|, i requires 0 <= i < |trains| => trains[i].id)
  }

  /** The seed roster names every train once and promises every train at least a minute away. */
  lemma SeedWellFormed()
    ensures DistinctBy(MockTrainData, TrainId)
    ensures forall i :: 0 <= i < |MockTrainData| ==> MockTrainData[i].etaMinutes >= 1
    ensures forall i :: 0 <= i < |MockTrainData| ==> MockTrainData[i].route == "Blue Line"
  {
  }

  /** The route filter of the effect: the trains of `roster` running on
      `route`, in roster order. */
  function RosterFor(roster: seq<TrainStatus>, route: string): (r: seq<TrainStatus>)
    ensures IsSubsequence(r, roster)
    ensures forall i :: 0 <= i < |r| ==> r[i].route == route
    ensures forall t :: t in r <==> t in roster && t.route == route
  {
    Filter(roster, (t: TrainStatus) => t.route == route)
  }

  /** Every seed train runs on the Blue Line, so that selection shows the whole roster. */
  lemma BlueLineShowsAll()
    ensures RosterFor(MockTrainData, "Blue Line") == MockTrainData
  {
    SeedWellFormed();
    FilterKeepsAll(MockTrainData, (t: TrainStatus) => t.route == "Blue Line");
  }

  /** No seed train runs on the extension, the second line button: the view
      shows its empty-roster message. */
  lemma ExtensionShowsNone()
    ensures RosterFor(MockTrainData, Routes[1]) == []
  {
    FilterKeepsNone(MockTrainData, (t: TrainStatus) => t.route == Routes[1]);
  }

  /** With the seed as it is, any line shows either the whole roster or nothing. */
  lemma RosterForEitherAllOrNone(route: string)
    ensures route == "Blue Line" ==> RosterFor(MockTrainData, route) == MockTrainData
    ensures route != "Blue Line" ==> RosterFor(MockTrainData, route) == []
  {
    if route == "Blue Line" {
      BlueLineShowsAll();
    } else {
      FilterKeepsNone(MockTrainData, (t: TrainStatus) => t.route == route);
    }
  }

  /** The value of `Math.floor(Math.random() * 2 - 1)`: never +1. */
  type Step = s: int | -1 <= s <= 0

  /** The step drawn from a random number `r` in [0, 1): -1 on the lower half, 0 on the upper. */
  function RandomStep(r: real): (s: Step)
    requires 0.0 <= r < 1.0
    ensures s == -1 <==> r < 0.5
    ensures s == 0 <==> r >= 0.5
  {
    (r * 2.0 - 1.0).Floor
  }

  /** The two independent draws one train gets on one tick. */
  datatype Draw = Draw(etaStep: Step, delayStep: Step)

  /** Everything but the ETA and the delay is the same in `u` as in `t`. */
  predicate SameExceptTiming(u: TrainStatus, t: TrainStatus) {
    u == t.(etaMinutes := u.etaMinutes, delay := u.delay)
  }

  /** One train's update on a tick: ETA moves by the step but never below 1,
      delay moves by the step with no floor. */
  function TickTrain(t: TrainStatus, d: Draw): (u: TrainStatus)
    ensures SameExceptTiming(u, t)
    ensures u.etaMinutes >= 1
    ensures t.etaMinutes >= 1 ==> u.etaMinutes <= t.etaMinutes
    ensures u.etaMinutes >= t.etaMinutes - 1
    ensures t.delay - 1 <= u.delay <= t.delay
    ensures d.etaStep == 0 ==> u.etaMinutes == (if t.etaMinutes == 0 then 1 else t.etaMinutes)
    ensures d.delayStep == 0 ==> u.delay == t.delay
    ensures d.etaStep == -1 ==> u.etaMinutes == (if t.etaMinutes <= 1 then 1 else t.etaMinutes - 1)
    ensures d.delayStep == -1 ==> u.delay == t.delay - 1
  {
    var eta := t.etaMinutes + d.etaStep;
    t.(etaMinutes := if eta < 1 then 1 else eta, delay := t.delay + d.delayStep)
  }

  /** A tick over the visible roster: every train updated with its own draws,
      none added, removed or reordered. */
  function Tick(trains: seq<TrainStatus>, draws: seq<Draw>): (r: seq<TrainStatus>)
    requires |draws| == |trains|
    ensures |r| == |trains|
    ensures Ids(r) == Ids(trains)
    ensures forall i :: 0 <= i < |r| ==> r[i] == TickTrain(trains[i], draws[i])
  {
    seq(|trains|, i requires 0 <= i < |trains| => TickTrain(trains[i], draws[i]))
  }

  /** Draws for a run of ticks: one draw per train per tick. */
  predicate DrawsFit(rounds: seq<seq<Draw>>, n: nat) {
    forall k :: 0 <= k < |rounds| ==> |rounds[k]| == n
  }

  /** The roster after a run of ticks. */
  function Run(trains: seq<TrainStatus>, rounds: seq<seq<Draw>>): (r: seq<TrainStatus>)
    requires DrawsFit(rounds, |trains|)
    ensures |r| == |trains|
    ensures forall i :: 0 <= i < |r| ==> SameExceptTiming(r[i], trains[i])
    ensures forall i :: 0 <= i < |r| ==> trains[i].delay - |rounds| <= r[i].delay <= trains[i].delay
    ensures forall i :: 0 <= i < |r| && trains[i].etaMinutes >= 1 ==> 1 <= r[i].etaMinutes <= trains[i].etaMinutes
    ensures |rounds| > 0 ==> forall i :: 0 <= i < |r| ==> r[i].etaMinutes >= 1
    decreases |rounds|
  {
    if |rounds| == 0 then trains
    else Run(Tick(trains, rounds[0]), rounds[1..])
  }

  /** `getDelayColor`: green when on time or early, yellow up to two minutes late, red beyond. */
  function DelayColor(delay: int): (c: string)
    ensures c == "text-green-600" <==> delay <= 0
    ensures c == "text-yellow-600" <==> 1 <= delay <= 2
    ensures c == "text-red-600" <==> delay > 2
  {
    if delay <= 0 then "text-green-600"
    else if delay <= 2 then "text-yellow-600"
    else "text-red-600"
  }

  /** How bad a delay colour is: 0 green, 1 yellow, 2 red. */
  function Severity(c: string): nat {
    if c == "text-green-600" then 0 else if c == "text-yellow-600" then 1 else 2
  }

  /** A later delay never gets a better colour. */
  lemma DelayColorMonotone(a: int, b: int)
    requires a <= b
    ensures Severity(DelayColor(a)) <= Severity(DelayColor(b))
  {
  }

  /** Since a tick never increases the delay, it never turns a train's delay colour worse. */
  lemma TickNeverWorsensDelayColor(t: TrainStatus, d: Draw)
    ensures Severity(DelayColor(TickTrain(t, d).delay)) <= Severity(DelayColor(t.delay))
  {
    DelayColorMonotone(TickTrain(t, d).delay, t.delay);
  }

  /** The dark-theme classes a train card's crowd badge adds. */
  function DarkClass(t: Tone): string {
    match t
    case Green => "dark:bg-green-900/20 dark:text-green-400"
    case Yellow => "dark:bg-yellow-900/20 dark:text-yellow-400"
    case Red => "dark:bg-red-900/20 dark:text-red-400"
    case Gray => "dark:bg-gray-700 dark:text-gray-400"
  }

  /** A train card's badge classes: the directory's classes plus dark-theme ones. */
  function CardClass(t: Tone): string {
    LightClass(t) + " " + DarkClass(t)
  }

  /** No other tone has the same card classes: the light part already differs. */
  lemma CardClassSeparatesTones(t: Tone)
    ensures forall u :: CardClass(u) == CardClass(t) <==> u == t
  {
    LightClassMarksTone(t);
    assert CardClass(t)[7] == LightClass(t)[7];
    forall u | u != t
      ensures CardClass(u) != CardClass(t)
    {
      LightClassMarksTone(u);
      assert CardClass(u)[7] == LightClass(u)[7];
    }
  }

  /** `getCrowdColor` of the train cards. */
  function CrowdColor(level: string): (c: string)
    ensures forall u :: c == CardClass(u) <==> u == BadgeTone(level)
  {
    CardClassSeparatesTones(BadgeTone(level));
    CardClass(BadgeTone(level))
  }

  /** Two badges look the same exactly when their levels fall in the same colour family. */
  lemma CrowdColorSeparatesTones(level: string, other: string)
    ensures CrowdColor(level) == CrowdColor(other) <==> BadgeTone(level) == BadgeTone(other)
  {
  }

  /** The view's state: the selected line and the trains on display. */
  datatype Tracking = Tracking(selectedRoute: string, trains: seq<TrainStatus>)

  /** The view once its effect has run for the default line. */
  function Open(): (r: Tracking)
    ensures r.selectedRoute == DefaultRoute
    ensures r.trains == MockTrainData
  {
    BlueLineShowsAll();
    Tracking(DefaultRoute, RosterFor(MockTrainData, DefaultRoute))
  }

  /** Clicking a line button; `roster` is the seed the effect filters (the
      component uses `MockTrainData`). The effect depends only on the selected
      line, so clicking the line already selected re-runs nothing and keeps
      the drifted trains; any other line is re-filtered from the seed,
      discarding drift. */
  function SelectRoute(roster: seq<TrainStatus>, s: Tracking, route: string): (r: Tracking)
    ensures r.selectedRoute == route
    ensures route == s.selectedRoute ==> r == s
    ensures route != s.selectedRoute ==>
      && IsSubsequence(r.trains, roster)
      && forall t :: t in r.trains <==> t in roster && t.route == route
  {
    if route == s.selectedRoute then s else Tracking(route, RosterFor(roster, route))
  }

  /** One timer tick on the displayed trains. */
  function TickView(s: Tracking, draws: seq<Draw>): (r: Tracking)
    requires |draws| == |s.trains|
    ensures r.selectedRoute == s.selectedRoute
    ensures |r.trains| == |s.trains|
    ensures forall i :: 0 <= i < |r.trains| ==> SameExceptTiming(r.trains[i], s.trains[i])
    ensures forall i :: 0 <= i < |r.trains| ==> r.trains[i] == TickTrain(s.trains[i], draws[i])
  {
    s.(trains := Tick(s.trains, draws))
  }

  /** The train's id, as a key. */
  function TrainId(t: TrainStatus): string {
    t.id
  }

  /** What a seed roster must satisfy: unique ids and every ETA at least a minute. */
  predicate GoodSeed(roster: seq<TrainStatus>) {
    && DistinctBy(roster, TrainId)
    && forall i :: 0 <= i < |roster| ==> roster[i].etaMinutes >= 1
  }

  /** The roster every session starts from is a good seed. */
  lemma MockTrainDataGoodSeed()
    ensures GoodSeed(MockTrainData)
  {
    SeedWellFormed();
  }

  /** What every reachable view satisfies: the trains on display are the
      seed trains of the selected line, in seed order, each with only its ETA
      and delay drifted, and every ETA is at least one minute. */
  predicate Valid(roster: seq<TrainStatus>, s: Tracking) {
    var seed := RosterFor(roster, s.selectedRoute);
    && |s.trains| == |seed|
    && (forall i :: 0 <= i < |seed| ==> SameExceptTiming(s.trains[i], seed[i]))
    && (forall i :: 0 <= i < |s.trains| ==> s.trains[i].etaMinutes >= 1)
  }

  /** A freshly filtered view of a good seed is valid. */
  lemma FreshViewValid(roster: seq<TrainStatus>, route: string)
    requires GoodSeed(roster)
    ensures Valid(roster, Tracking(route, RosterFor(roster, route)))
  {
    var seed := RosterFor(roster, route);
    forall i | 0 <= i < |seed|
      ensures seed[i].etaMinutes >= 1
    {
      assert seed[i] in roster;
    }
  }

  /** The view starts valid. */
  lemma OpenValid()
    ensures Valid(MockTrainData, Open())
  {
    MockTrainDataGoodSeed();
    FreshViewValid(MockTrainData, DefaultRoute);
  }

  /** Selecting a line keeps the view valid. */
  lemma SelectRoutePreservesValid(roster: seq<TrainStatus>, s: Tracking, route: string)
    requires GoodSeed(roster)
    requires Valid(roster, s)
    ensures Valid(roster, SelectRoute(roster, s, route))
  {
    if route != s.selectedRoute {
      FreshViewValid(roster, route);
    }
  }

  /** A tick keeps the view valid. */
  lemma TickViewPreservesValid(roster: seq<TrainStatus>, s: Tracking, draws: seq<Draw>)
    requires Valid(roster, s)
    requires |draws| == |s.trains|
    ensures Valid(roster, TickView(s, draws))
  {
    var seed := RosterFor(roster, s.selectedRoute);
    var r := TickView(s, draws);
    forall i | 0 <= i < |seed|
      ensures SameExceptTiming(r.trains[i], seed[i])
    {
      assert SameExceptTiming(r.trains[i], s.trains[i]);
    }
  }

  /** In a valid view over a good seed every train runs on the selected line
      and no id is shown twice. */
  lemma ValidViewConsistent(roster: seq<TrainStatus>, s: Tracking)
    requires GoodSeed(roster)
    requires Valid(roster, s)
    ensures forall i :: 0 <= i < |s.trains| ==> s.trains[i].route == s.selectedRoute
    ensures DistinctBy(s.trains, TrainId)
  {
    var seed := RosterFor(roster, s.selectedRoute);
    SubsequenceKeepsDistinctBy(seed, roster, TrainId);
    forall i, j | 0 <= i < j < |s.trains|
      ensures TrainId(s.trains[i]) != TrainId(s.trains[j])
    {
      assert SameExceptTiming(s.trains[i], seed[i]) && SameExceptTiming(s.trains[j], seed[j]);
    }
  }

  /** Leaving a line and coming back shows its seed trains again, whatever
      drift the ticks had accumulated. */
  lemma ReselectResetsDrift(roster: seq<TrainStatus>, s: Tracking, other: string)
    requires other != s.selectedRoute
    ensures SelectRoute(roster, SelectRoute(roster, s, other), s.selectedRoute).trains
      == RosterFor(roster, s.selectedRoute)
  {
  }
}
