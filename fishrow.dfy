/** One row of the fish table and the choice of how the table is drawn. */
module FishRow {
  import opened Uptime

  /** A bait: its display name and the handle of its icon. */
  datatype Bait = Bait(name: string, icon: nat)

  /** The projection of a fish that the table reads. `nextUptime` is what the uptime
      calculator returned for this frame; `spots` are the ids of its fishing spots. */
  datatype Fish = Fish(
    id: nat,
    name: string,
    icon: nat,
    bait: seq<Bait>,
    spots: seq<nat>,
    fishingSpot: string,
    territory: string,
    uptimeString: string,
    nextUptime: Window,
    hasUptimeDependency: bool)

  /** The bait column: a placeholder when no bait is known, else the first bait. */
  datatype BaitCell = UnknownBait | BaitShown(icon: nat, name: string)

  function DrawBait(bait: seq<Bait>): (c: BaitCell)
    ensures c.UnknownBait? <==> |bait| == 0
    ensures c.BaitShown? ==> c.name == bait[0].name && c.icon == bait[0].icon
  {
    if |bait| > 0 then BaitShown(bait[0].icon, bait[0].name) else UnknownBait
  }

  /** The events a row can send to the gatherer. */
  datatype Action = FishAction(fish: nat) | CopyBait(name: string) | SpotAction(spot: nat)

  /** The column order of the cells that send each kind of event. */
  function ColumnOf(a: Action): nat
  {
    match a
    case FishAction(_) => 0
    case CopyBait(_) => 1
    case SpotAction(_) => 2
  }

  /** Which of the row's three selectable cells were clicked this frame. */
  datatype Clicks = Clicks(name: bool, bait: bool, spot: bool)

  /** A click on the fishing spot of a fish without fishing spots: `First()` throws. */
  predicate Throws(f: Fish, clicks: Clicks)
  {
    clicks.spot && |f.spots| == 0
  }

  /** The events sent, in order, and whether the row threw on asking a fish with no
      fishing spot for its first one (the events before that were already sent). */
  datatype RowEvents = RowEvents(actions: seq<Action>, noFishingSpot: bool)

  function RowActions(f: Fish, clicks: Clicks): (r: RowEvents)
    ensures r.noFishingSpot <==> Throws(f, clicks)
    ensures forall a :: a in r.actions && a.FishAction? ==> a.fish == f.id
    ensures FishAction(f.id) in r.actions <==> clicks.name
    ensures forall a :: a in r.actions && a.CopyBait? ==>
      clicks.bait && |f.bait| > 0 && a.name == f.bait[0].name
    ensures (exists a :: a in r.actions && a.CopyBait?) <==> clicks.bait && |f.bait| > 0
    ensures forall a :: a in r.actions && a.SpotAction? ==>
      clicks.spot && |f.spots| > 0 && a.spot == f.spots[0]
    ensures (exists a :: a in r.actions && a.SpotAction?) <==> clicks.spot && |f.spots| > 0
    ensures |r.actions| == (if clicks.name then 1 else 0)
                         + (if clicks.bait && |f.bait| > 0 then 1 else 0)
                         + (if clicks.spot && |f.spots| > 0 then 1 else 0)
    ensures forall i, j :: 0 <= i < j < |r.actions| ==> ColumnOf(r.actions[i]) < ColumnOf(r.actions[j])
  {
    var nameActions := if clicks.name then [FishAction(f.id)] else [];
    var baitActions := if clicks.bait && |f.bait| > 0 then [CopyBait(f.bait[0].name)] else [];
    var spotActions := if clicks.spot && |f.spots| > 0 then [SpotAction(f.spots[0])] else [];
    var actions := nameActions + baitActions + spotActions;
    assert clicks.bait && |f.bait| > 0 ==> actions[|nameActions|] == CopyBait(f.bait[0].name);
    assert clicks.spot && |f.spots| > 0 ==> actions[|actions| - 1] == SpotAction(f.spots[0]);
    RowEvents(actions, Throws(f, clicks))
  }

  /** What one row shows, column by column. */
  datatype Row = Row(
    icon: nat,
    name: string,
    uptime: Cell,
    uptimeString: string,
    bait: BaitCell,
    fishingSpot: string,
    territory: string)

  /** One row: the uptime cell comes from the fish's next uptime and dependency flag,
      the bait cell from its bait list, the other columns from its own fields. */
  function DrawFish(f: Fish, now: int): (r: Row)
    ensures r.uptime == DrawUptime(f.nextUptime, f.hasUptimeDependency, now)
    ensures r.uptime.AlwaysUp? <==> f.nextUptime.Always?
    ensures r.bait == DrawBait(f.bait)
    ensures r.bait.UnknownBait? <==> |f.bait| == 0
    ensures r.name == f.name && r.fishingSpot == f.fishingSpot && r.territory == f.territory
    ensures r.icon == f.icon && r.uptimeString == f.uptimeString
  {
    Row(f.icon, f.name, DrawUptime(f.nextUptime, f.hasUptimeDependency, now),
        f.uptimeString, DrawBait(f.bait), f.fishingSpot, f.territory)
  }

  /** The index of the first row whose spot click throws, or the length of the
      list when none does. */
  function FirstThrow(fish: seq<Fish>, clicks: seq<Clicks>): (n: nat)
    requires |clicks| == |fish|
    ensures n <= |fish|
    ensures forall k :: 0 <= k < n ==> !Throws(fish[k], clicks[k])
    ensures n < |fish| ==> Throws(fish[n], clicks[n])
  {
    if |fish| == 0 then 0
    else if Throws(fish[0], clicks[0]) then 0
    else 1 + FirstThrow(fish[1..], clicks[1..])
  }

  /** The events sent by the first `n` rows, in row order. */
  function ActionsOf(fish: seq<Fish>, clicks: seq<Clicks>, n: nat): seq<Action>
    requires |clicks| == |fish| && n <= |fish|
  {
    if n == 0 then [] else ActionsOf(fish, clicks, n - 1) + RowActions(fish[n - 1], clicks[n - 1]).actions
  }

  /** The rows of the first `n` fish, in list order. */
  function RowsOf(fish: seq<Fish>, now: int, n: nat): seq<Row>
    requires n <= |fish|
  {
    if n == 0 then [] else RowsOf(fish, now, n - 1) + [DrawFish(fish[n - 1], now)]
  }

  /** Row `k` of the first `n` rows is the row of fish `k`. */
  lemma {:induction false} RowsOfAt(fish: seq<Fish>, now: int, n: nat)
    requires n <= |fish|
    ensures |RowsOf(fish, now, n)| == n
    ensures forall k :: 0 <= k < n ==> RowsOf(fish, now, n)[k] == DrawFish(fish[k], now)
  {
    if n > 0 {
      RowsOfAt(fish, now, n - 1);
    }
  }

  /** Drawing row `i` of a loop that has not thrown yet extends the rows and the
      events by that row's, and throws exactly at the first throwing row. */
  lemma DrawStep(fish: seq<Fish>, clicks: seq<Clicks>, now: int, i: nat)
    requires |clicks| == |fish| && i < |fish| && i <= FirstThrow(fish, clicks)
    ensures RowsOf(fish, now, i + 1) == RowsOf(fish, now, i) + [DrawFish(fish[i], now)]
    ensures ActionsOf(fish, clicks, i + 1) == ActionsOf(fish, clicks, i) + RowActions(fish[i], clicks[i]).actions
    ensures RowActions(fish[i], clicks[i]).noFishingSpot ==> i == FirstThrow(fish, clicks)
    ensures !RowActions(fish[i], clicks[i]).noFishingSpot ==> i + 1 <= FirstThrow(fish, clicks)
  {
  }

  /** The direct drawing path: one row per fish, in the order of the list. A row
      whose spot click throws is the last one drawn: the exception leaves the loop,
      and `aborted` reports that it also leaves the rest of the tab. */
  method DrawAllRows(fish: seq<Fish>, clicks: seq<Clicks>, now: int)
    returns (rows: seq<Row>, actions: seq<Action>, aborted: bool)
    requires |clicks| == |fish|
    ensures aborted <==> FirstThrow(fish, clicks) < |fish|
    ensures |rows| == if aborted then FirstThrow(fish, clicks) + 1 else |fish|
    ensures forall i :: 0 <= i < |rows| ==> rows[i] == DrawFish(fish[i], now)
    ensures actions == ActionsOf(fish, clicks, |rows|)
  {
    rows, actions, aborted := [], [], false;
    var i := 0;
    while i < |fish| && !aborted
      invariant 0 <= i <= |fish|
      invariant |rows| == i
      invariant rows == RowsOf(fish, now, i)
      invariant actions == ActionsOf(fish, clicks, i)
      invariant !aborted ==> i <= FirstThrow(fish, clicks)
      invariant aborted ==> i == FirstThrow(fish, clicks) + 1
    {
      DrawStep(fish, clicks, now, i);
      rows := rows + [DrawFish(fish[i], now)];
      var events := RowActions(fish[i], clicks[i]);
      actions := actions + events.actions;
      aborted := events.noFishingSpot;
      i := i + 1;
    }
    RowsOfAt(fish, now, i);
  }

  /** The number of rows the child window can show: its height over the text
      height, rounded up, plus one. */
  function LineHeight(windowHeight: real, textHeight: real): (n: int)
    requires textHeight > 0.0
    ensures (n - 2) as real < windowHeight / textHeight <= (n - 1) as real
  {
    var x := windowHeight / textHeight;
    -((-x).Floor) + 1
  }

  datatype DrawPath = Direct | Clipped

  /** The drawing decision and whether BeginTable was called while deciding it: the
      table is only begun when the list is short, and a short list whose table
      could not be begun is handed to the clipped path as well. */
  datatype Strategy = Strategy(path: DrawPath, triedTable: bool)

  function ChooseDraw(count: nat, lineHeight: int, beginTable: bool): (s: Strategy)
    ensures s.triedTable <==> count < lineHeight + 5
    ensures s.path == Direct <==> count < lineHeight + 5 && beginTable
  {
    if count < lineHeight + 5 then
      Strategy(if beginTable then Direct else Clipped, true)
    else
      Strategy(Clipped, false)
  }

  /** A list that takes the clipped path because of its length keeps taking it when
      it grows. */
  lemma LongListsStayClipped(count: nat, more: nat, lineHeight: int, beginTable: bool)
    requires count <= more
    requires count >= lineHeight + 5
    ensures ChooseDraw(more, lineHeight, beginTable).path == Clipped
    ensures !ChooseDraw(more, lineHeight, beginTable).triedTable
  {
  }
}
