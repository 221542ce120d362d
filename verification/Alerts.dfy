/** Attention levels of a stock row and the low-stock alerts a reservation emits. */
module Alerts {
  import opened Base
  import opened Inventory

  datatype Level = Healthy | LowStock | OutOfStock

  datatype Alert = Alert(level: Level, stock: Option<int>, threshold: Option<int>)

  function LevelOf(row: StockRow): Level {
    if !row.tracked then Healthy
    else if row.stock.GetOr(0) <= 0 then OutOfStock
    else if row.threshold.Some? && row.stock.Some? && row.stock.value <= row.threshold.value then LowStock
    else Healthy
  }

  /** An alert is emitted when the level gets worse. */
  predicate ShouldEmit(previous: Level, next: Level) {
    !next.Healthy? && (previous.Healthy? || (previous.LowStock? && next.OutOfStock?))
  }

  /** The alert built from the row before and after one decrement, if any. */
  function BuildAlert(previous: StockRow, next: StockRow): Option<Alert> {
    if ShouldEmit(LevelOf(previous), LevelOf(next))
    then Some(Alert(LevelOf(next), next.stock, next.threshold))
    else None
  }

  /** `now` is `before` after decrements only. */
  ghost predicate Lowered(before: StockTable, now: StockTable) {
    && before.Keys == now.Keys
    && forall r :: r in before ==> LoweredRow(before[r], now[r])
  }

  ghost predicate LoweredRow(before: StockRow, now: StockRow) {
    && now == before.(stock := now.stock)
    && (now.stock == before.stock
        || (now.stock.Some? && before.stock.Some? && now.stock.value <= before.stock.value))
  }

  /** Variant combinations never raise alerts; menu items and options do. */
  ghost predicate NeedsAlert(before: StockTable, now: StockTable, r: Resource) {
    !r.Variant? && r in before && r in now && ShouldEmit(LevelOf(before[r]), LevelOf(now[r]))
  }

  /**
   * The alerts match the difference between two states: one per menu item or option whose level is
   * worse than it was, carrying the present level. The stock it quotes is the one that first
   * reached that level, which later lines may have lowered further.
   */
  ghost predicate AlertsMatch(before: StockTable, now: StockTable, alerts: map<Resource, Alert>) {
    && Lowered(before, now)
    && (forall r :: r in alerts <==> NeedsAlert(before, now, r))
    && (forall r :: r in alerts ==> AlertDescribes(alerts[r], now[r]))
  }

  ghost predicate AlertDescribes(alert: Alert, row: StockRow) {
    && alert.level == LevelOf(row)
    && alert.threshold == row.threshold
    && alert.stock.Some? && row.stock.Some? && row.stock.value <= alert.stock.value
    && LevelOf(row.(stock := alert.stock)) == alert.level
  }

  function Record(alerts: map<Resource, Alert>, r: Resource, alert: Option<Alert>): map<Resource, Alert> {
    if alert.Some? then alerts[r := alert.value] else alerts
  }

  lemma NothingEmittedAtStart(stock: StockTable)
    ensures AlertsMatch(stock, stock, map[])
  {
  }

  /** Emitting after each decrement keeps the alerts equal to the difference since the start. */
  lemma StepwiseAlertsMatchEndpoints(
      before: StockTable, now: StockTable, alerts: map<Resource, Alert>, r: Resource, quantity: nat)
    requires AlertsMatch(before, now, alerts) && CanDecrement(now, r, quantity)
    ensures var next := Increment(now, r, -(quantity as int));
      AlertsMatch(before, next, if r.Variant? then alerts else Record(alerts, r, BuildAlert(now[r], next[r])))
  {
    var next := Increment(now, r, -(quantity as int));
    var recorded := if r.Variant? then alerts else Record(alerts, r, BuildAlert(now[r], next[r]));
    assert LoweredRow(now[r], next[r]) && LoweredRow(before[r], now[r]);
    forall x | x in before ensures LoweredRow(before[x], next[x]) {
      assert LoweredRow(before[x], now[x]);
    }
    forall x ensures x in recorded <==> NeedsAlert(before, next, x) {
      assert x in alerts <==> NeedsAlert(before, now, x);
    }
    forall x | x in recorded ensures AlertDescribes(recorded[x], next[x]) {
      if x in alerts { assert AlertDescribes(alerts[x], now[x]); }
    }
  }

  /** Running out: some was left, and none is. */
  predicate RunsOut(stock: int, left: int) {
    stock > 0 >= left
  }

  /** Running low: what is left is positive and at the threshold or under it, and was over it. */
  predicate RunsLow(stock: int, left: int, threshold: Option<int>) {
    threshold.Some? && 0 < left <= threshold.value < stock
  }

  /** One decrement of a tracked row: an alert comes exactly when stock runs out or low, and quotes what is left. */
  lemma AlertComesExactlyOnCrossing(row: StockRow, quantity: nat)
    requires row.tracked && row.stock.Some?
    ensures var left := row.stock.value - quantity;
      var alert := BuildAlert(row, row.(stock := Some(left)));
      && (alert == Some(Alert(OutOfStock, Some(left), row.threshold)) <==> RunsOut(row.stock.value, left))
      && (alert == Some(Alert(LowStock, Some(left), row.threshold)) <==> RunsLow(row.stock.value, left, row.threshold))
      && (alert.None? <==> !RunsOut(row.stock.value, left) && !RunsLow(row.stock.value, left, row.threshold))
  {
  }

  /** Over a whole order: one alert for each tracked menu item or option that ran out or low. */
  lemma OrderAlertsTellCrossings(before: StockTable, now: StockTable, alerts: map<Resource, Alert>, r: Resource)
    requires AlertsMatch(before, now, alerts)
    ensures r in alerts <==> (
      && !r.Variant? && r in before && r in now && before[r].tracked && before[r].stock.Some? && now[r].stock.Some?
      && (RunsOut(before[r].stock.value, now[r].stock.value)
          || RunsLow(before[r].stock.value, now[r].stock.value, before[r].threshold)))
    ensures r in alerts ==> (alerts[r].level == if now[r].stock.GetOr(0) <= 0 then OutOfStock else LowStock)
  {
    assert r in alerts <==> NeedsAlert(before, now, r);
    if r in before {
      assert LoweredRow(before[r], now[r]);
    }
    if r in alerts {
      assert AlertDescribes(alerts[r], now[r]);
    }
  }

  /** An alert that quotes the present stock still does after another decrement exactly when the level worsens again. */
  lemma QuoteStaysCurrentExactly(now: StockTable, alerts: map<Resource, Alert>, r: Resource, quantity: nat)
    requires quantity > 0 && CanDecrement(now, r, quantity) && r in alerts && alerts[r].stock == now[r].stock
    ensures var next := Increment(now, r, -(quantity as int));
      var recorded := Record(alerts, r, BuildAlert(now[r], next[r]));
      recorded[r].stock == next[r].stock <==> ShouldEmit(LevelOf(now[r]), LevelOf(next[r]))
  {
  }
}
