/** The dashboard (app/Http/Controllers/DashboardController.php): headline
    counts, attack types grouped over the last 30 days, a 7-day histogram,
    severities grouped with their colours, system health and the five most
    recent alerts, with fixed placeholder series that stand in for empty
    results. Timestamps are integer seconds; a calendar day is the number of
    whole days since the epoch. */
module Dashboard {
  import opened Common
  import opened Users
  import opened Alerts
  import NetworkLogs
  import MLModels

  const SecondsPerDay: int := 86400

  /** The calendar day of a timestamp (floor division, also before the epoch). */
  function DayOf(t: int): int {
    t / SecondsPerDay
  }

  // ---------------------------------------------------------------------------
  // Headline counts

  datatype Stats = Stats(
    totalLogs: nat,
    totalAlerts: nat,
    criticalAlerts: nat,
    pendingLogs: nat,
    activeModels: nat,
    totalUsers: nat)

  function IsCritical(a: Alert): bool {
    a.severity == "critical"
  }

  function IsPending(l: NetworkLogs.NetworkLog): bool {
    l.status == "pending"
  }

  function SeverityOf(a: Alert): string {
    a.severity
  }

  function StatusOf(l: NetworkLogs.NetworkLog): string {
    l.status
  }

  function ComputeStats(alerts: seq<Alert>, logs: seq<NetworkLogs.NetworkLog>, models: seq<MLModels.MLModel>, users: seq<User>): (s: Stats)
    ensures s.totalAlerts == |alerts| && s.totalLogs == |logs|
    ensures s.activeModels == |models| && s.totalUsers == |users|
    ensures s.criticalAlerts <= s.totalAlerts
    ensures s.pendingLogs <= s.totalLogs
    ensures s.criticalAlerts == 0 <==> forall a :: a in alerts ==> a.severity != "critical"
    ensures s.pendingLogs == 0 <==> forall l :: l in logs ==> l.status != "pending"
    ensures s.criticalAlerts == multiset(Column(alerts, SeverityOf))["critical"]
    ensures s.pendingLogs == multiset(Column(logs, StatusOf))["pending"]
  {
    var critical := Filter(alerts, IsCritical);
    var pending := Filter(logs, IsPending);
    FilterCountsValue(alerts, SeverityOf, "critical", IsCritical);
    FilterCountsValue(logs, StatusOf, "pending", IsPending);
    assert |critical| > 0 ==> critical[0] in critical;
    assert |pending| > 0 ==> pending[0] in pending;
    Stats(|logs|, |alerts|, |critical|, |pending|, |models|, |users|)
  }

  // ---------------------------------------------------------------------------
  // Attack types of the last 30 days: GROUP BY attack_type ORDER BY count DESC

  const ThirtyDays: int := 30 * SecondsPerDay

  /** The chart's stand-in when no alert falls in the window. */
  const AttackTypePlaceholder: seq<(string, nat)> :=
    [("DDoS", 15), ("Port Scan", 12), ("SQL Injection", 8), ("XSS", 5), ("Brute Force", 10)]

  function InLastThirtyDays(now: int): Alert -> bool {
    (a: Alert) => a.detectedAt >= now - ThirtyDays
  }

  /** The attack_type column of the alerts detected in the last 30 days. */
  function RecentAttackTypes(alerts: seq<Alert>, now: int): (types: seq<string>)
    ensures forall t :: t in types <==> exists a :: a in alerts && a.detectedAt >= now - ThirtyDays && a.attackType == t
  {
    var recent := Filter(alerts, InLastThirtyDays(now));
    var types := seq(|recent|, i requires 0 <= i < |recent| => recent[i].attackType);
    assert forall t :: t in types ==> exists a :: a in recent && a.attackType == t by {
      forall t | t in types
        ensures exists a :: a in recent && a.attackType == t
      {
        var i :| 0 <= i < |types| && types[i] == t;
        assert recent[i] in recent;
      }
    }
    assert forall a :: a in recent ==> a.attackType in types by {
      forall a | a in recent
        ensures a.attackType in types
      {
        var i :| 0 <= i < |recent| && recent[i] == a;
        assert types[i] == a.attackType;
      }
    }
    types
  }

  function CountOf(e: (string, nat)): int {
    e.1
  }

  /** One (name, value) entry per distinct recent attack type, its value the
      number of recent alerts of that type, largest first, the values summing
      to the number of recent alerts; the placeholder when there are none. */
  function AttackTypeDistribution(alerts: seq<Alert>, now: int): (r: seq<(string, nat)>)
    ensures var types := RecentAttackTypes(alerts, now);
      && (types == [] ==> r == AttackTypePlaceholder)
      && (types != [] ==>
            && NoDup(KeysOf(r))
            && (forall t :: t in KeysOf(r) <==> t in types)
            && (forall i :: 0 <= i < |r| ==> r[i].1 == multiset(types)[r[i].0])
            && SortedDesc(r, CountOf)
            && SumCounts(r) == |types|)
  {
    var types := RecentAttackTypes(alerts, now);
    if types == [] then AttackTypePlaceholder
    else
      SortedGroups(types);
      SortDesc(Tally(types), CountOf)
  }

  /** Sorting the groups by count keeps them one per value, with their counts. */
  lemma SortedGroups(xs: seq<string>)
    ensures var r := SortDesc(Tally(xs), CountOf);
      && NoDup(KeysOf(r))
      && (forall t :: t in KeysOf(r) <==> t in xs)
      && (forall i :: 0 <= i < |r| ==> r[i].1 == multiset(xs)[r[i].0])
      && SortedDesc(r, CountOf)
      && SumCounts(r) == |xs|
  {
    var groups := Tally(xs);
    var sorted := SortDesc(groups, CountOf);
    PermutedCounts(groups, sorted);
    forall i | 0 <= i < |sorted|
      ensures sorted[i].1 == multiset(xs)[sorted[i].0]
    {
      assert sorted[i] in multiset(groups);
      var p := IndexOf(groups, sorted[i]);
      assert groups[p].1 == multiset(xs)[groups[p].0];
    }
  }

  // ---------------------------------------------------------------------------
  // Alerts per day over the last 7 days

  datatype DayCount = DayCount(day: int, count: nat)

  /** The chart's stand-in counts, oldest day first. */
  const PlaceholderCounts: seq<nat> := [5, 8, 12, 7, 15, 10, 6]

  function OnDay(day: int): Alert -> bool {
    (a: Alert) => DayOf(a.detectedAt) == day
  }

  function DetectionDay(a: Alert): int {
    DayOf(a.detectedAt)
  }

  function InDays(lo: int, hi: int): Alert -> bool {
    (a: Alert) => lo <= DayOf(a.detectedAt) < hi
  }

  /** `whereDate('detected_at', day)->count()` */
  function CountOnDay(alerts: seq<Alert>, day: int): nat {
    |Filter(alerts, OnDay(day))|
  }

  /** The number of alerts detected on the days lo .. hi-1. */
  function CountInDays(alerts: seq<Alert>, lo: int, hi: int): nat {
    |Filter(alerts, InDays(lo, hi))|
  }

  /** Widening the range by one day adds that day's alerts. */
  lemma {:induction false} CountInDaysGrow(alerts: seq<Alert>, lo: int, hi: int)
    requires lo <= hi
    ensures CountInDays(alerts, lo, hi + 1) == CountInDays(alerts, lo, hi) + CountOnDay(alerts, hi)
    decreases |alerts|
  {
    if alerts != [] {
      var init, last := alerts[..|alerts| - 1], alerts[|alerts| - 1];
      assert alerts == init + [last];
      FilterSnoc(init, last, InDays(lo, hi + 1));
      FilterSnoc(init, last, InDays(lo, hi));
      FilterSnoc(init, last, OnDay(hi));
      CountInDaysGrow(init, lo, hi);
    }
  }

  /** The placeholder series: the same seven days with fixed counts. */
  function PlaceholderSeries(today: int): (series: seq<DayCount>)
    ensures |series| == 7
    ensures forall i :: 0 <= i < 7 ==> series[i] == DayCount(today - 6 + i, PlaceholderCounts[i])
  {
    seq(7, i requires 0 <= i < 7 => DayCount(today - 6 + i, PlaceholderCounts[i]))
  }

  /** The real series: one entry per day from six days ago to today. */
  function DaySeries(alerts: seq<Alert>, today: int): (series: seq<DayCount>)
    ensures |series| == 7
    ensures forall i :: 0 <= i < 7 ==> series[i] == DayCount(today - 6 + i, CountOnDay(alerts, today - 6 + i))
  {
    seq(7, i requires 0 <= i < 7 => DayCount(today - 6 + i, CountOnDay(alerts, today - 6 + i)))
  }

  /** `$alertsOverTime->sum('count')` */
  function SeriesTotal(series: seq<DayCount>): nat
    decreases |series|
  {
    if series == [] then 0 else SeriesTotal(series[..|series| - 1]) + series[|series| - 1].count
  }

  /** A series whose entries count the alerts of consecutive days from `lo`
      adds up to the alerts of those days. */
  lemma {:induction false} SeriesTotalCounts(alerts: seq<Alert>, lo: int, series: seq<DayCount>)
    requires forall i :: 0 <= i < |series| ==> series[i].count == CountOnDay(alerts, lo + i)
    ensures SeriesTotal(series) == CountInDays(alerts, lo, lo + |series|)
    decreases |series|
  {
    if series == [] {
      FilterNone(alerts, InDays(lo, lo));
    } else {
      var init := series[..|series| - 1];
      SeriesTotalCounts(alerts, lo, init);
      CountInDaysGrow(alerts, lo, lo + |init|);
    }
  }

  /** The seven counts of the real series add up to the alerts of the week,
      so `sum('count')` is zero exactly when no alert falls on those days. */
  lemma DaySeriesTotal(alerts: seq<Alert>, today: int)
    ensures SeriesTotal(DaySeries(alerts, today)) == CountInDays(alerts, today - 6, today + 1)
  {
    SeriesTotalCounts(alerts, today - 6, DaySeries(alerts, today));
  }

  /** The `alertsOverTime` loop: one entry per day from six days ago to
      today with that day's count, and the running total the page then
      compares with zero. */
  method DailyCounts(alerts: seq<Alert>, today: int) returns (series: seq<DayCount>, total: nat)
    ensures series == DaySeries(alerts, today)
    ensures total == CountInDays(alerts, today - 6, today + 1)
  {
    var first := today - 6;
    series, total := [], 0;
    var day := first;
    FilterNone(alerts, InDays(first, first));
    while day <= today
      invariant first <= day <= today + 1
      invariant |series| == day - first
      invariant forall i :: 0 <= i < |series| ==> series[i] == DayCount(first + i, CountOnDay(alerts, first + i))
      invariant total == CountInDays(alerts, first, day)
    {
      var count := CountOnDay(alerts, day);
      CountInDaysGrow(alerts, first, day);
      series := series + [DayCount(day, count)];
      total := total + count;
      day := day + 1;
    }
  }

  /** The series the page shows: the seven real counts, or the placeholder
      when they add up to zero, which happens exactly when no alert falls on
      those days. */
  method AlertsOverTime(alerts: seq<Alert>, now: int) returns (series: seq<DayCount>)
    ensures series == if CountInDays(alerts, DayOf(now) - 6, DayOf(now) + 1) == 0
                      then PlaceholderSeries(DayOf(now)) else DaySeries(alerts, DayOf(now))
  {
    var daily, total := DailyCounts(alerts, DayOf(now));
    // `$alertsOverTime->sum('count') == 0`
    series := if total == 0 then PlaceholderSeries(DayOf(now)) else daily;
  }

  // ---------------------------------------------------------------------------
  // Severities: GROUP BY severity, with ucfirst labels and colours

  /** `getSeverityColor`: the colour of a severity, whatever its case. */
  function SeverityColor(severity: string): (c: string)
    ensures c == "#ef4444" <==> ToLower(severity) == "critical"
    ensures c == "#f97316" <==> ToLower(severity) == "high"
    ensures c == "#eab308" <==> ToLower(severity) == "medium"
    ensures c == "#22c55e" <==> ToLower(severity) == "low"
    ensures c == "#6b7280" <==> ToLower(severity) !in Severities
  {
    var s := ToLower(severity);
    if s == "critical" then "#ef4444"
    else if s == "high" then "#f97316"
    else if s == "medium" then "#eab308"
    else if s == "low" then "#22c55e"
    else "#6b7280"
  }

  /** The colour of a severity is that of its lower-case form. */
  lemma SeverityColorIgnoresCase(severity: string)
    ensures SeverityColor(severity) == SeverityColor(ToLower(severity))
  {
    ToLowerIdempotent(severity);
  }

  /** Upper- and mixed-case spellings of the four levels, and an unknown word. */
  lemma SeverityColorSpellings()
    ensures SeverityColor("CRITICAL") == "#ef4444"
    ensures SeverityColor("High") == "#f97316"
    ensures SeverityColor("mEdIuM") == "#eab308"
    ensures SeverityColor("LOW") == "#22c55e"
    ensures SeverityColor("unknown") == "#6b7280"
  {
    assert ToLower("CRITICAL") == "critical";
    assert ToLower("High") == "high";
    assert ToLower("mEdIuM") == "medium";
    assert ToLower("LOW") == "low";
    assert ToLower("unknown") == "unknown";
  }

  datatype SeverityEntry = SeverityEntry(severity: string, count: nat, color: string)

  /** The chart's stand-in when there are no alerts at all. */
  const SeverityPlaceholder: seq<SeverityEntry> := [
    SeverityEntry("Critical", 5, "#ef4444"),
    SeverityEntry("High", 12, "#f97316"),
    SeverityEntry("Medium", 18, "#eab308"),
    SeverityEntry("Low", 8, "#22c55e")]

  /** The placeholder's labels and colours are the ones the four stored
      severities would get. */
  lemma SeverityPlaceholderMatchesLabels()
    ensures SeverityPlaceholder[0] == SeverityEntry(Ucfirst("critical"), 5, SeverityColor("critical"))
    ensures SeverityPlaceholder[1] == SeverityEntry(Ucfirst("high"), 12, SeverityColor("high"))
    ensures SeverityPlaceholder[2] == SeverityEntry(Ucfirst("medium"), 18, SeverityColor("medium"))
    ensures SeverityPlaceholder[3] == SeverityEntry(Ucfirst("low"), 8, SeverityColor("low"))
  {
    assert ToLower("critical") == "critical" && Ucfirst("critical") == "Critical";
    assert ToLower("high") == "high" && Ucfirst("high") == "High";
    assert ToLower("medium") == "medium" && Ucfirst("medium") == "Medium";
    assert ToLower("low") == "low" && Ucfirst("low") == "Low";
  }

  /** The distinct severities present, in the order their groups come back. */
  function SeverityGroups(alerts: seq<Alert>): (ks: seq<string>)
    ensures NoDup(ks)
    ensures forall s :: s in ks <==> exists a :: a in alerts && a.severity == s
  {
    var sevs := Column(alerts, SeverityOf);
    assert forall s :: s in sevs <==> exists a :: a in alerts && a.severity == s by {
      forall s | s in sevs
        ensures exists a :: a in alerts && a.severity == s
      {
        var i :| 0 <= i < |sevs| && sevs[i] == s;
        assert alerts[i] in alerts;
      }
      forall a | a in alerts
        ensures a.severity in sevs
      {
        var i :| 0 <= i < |alerts| && alerts[i] == a;
        assert sevs[i] == a.severity;
      }
    }
    KeysOf(Tally(sevs))
  }

  function TotalCount(entries: seq<SeverityEntry>): nat
    decreases |entries|
  {
    if entries == [] then 0 else TotalCount(entries[..|entries| - 1]) + entries[|entries| - 1].count
  }

  function EntriesOf(groups: seq<(string, nat)>): (r: seq<SeverityEntry>)
    ensures |r| == |groups|
    ensures forall i :: 0 <= i < |r| ==> r[i] == SeverityEntry(Ucfirst(groups[i].0), groups[i].1, SeverityColor(groups[i].0))
  {
    seq(|groups|, i requires 0 <= i < |groups| => SeverityEntry(Ucfirst(groups[i].0), groups[i].1, SeverityColor(groups[i].0)))
  }

  lemma {:induction false} TotalCountOfEntries(groups: seq<(string, nat)>)
    ensures TotalCount(EntriesOf(groups)) == SumCounts(groups)
    decreases |groups|
  {
    if groups != [] {
      var n := |groups| - 1;
      assert EntriesOf(groups)[..n] == EntriesOf(groups[..n]);
      TotalCountOfEntries(groups[..n]);
    }
  }

  /** One entry per distinct severity, labelled with ucfirst and coloured,
      counting the alerts of that severity; the counts add up to the number
      of alerts. The placeholder when there are no alerts. */
  function SeverityDistribution(alerts: seq<Alert>): (r: seq<SeverityEntry>)
    ensures alerts == [] ==> r == SeverityPlaceholder
    ensures alerts != [] ==>
      var ks := SeverityGroups(alerts);
      && |r| == |ks|
      && (forall i :: 0 <= i < |r| ==>
            r[i] == SeverityEntry(Ucfirst(ks[i]), multiset(Column(alerts, SeverityOf))[ks[i]], SeverityColor(ks[i])))
      && TotalCount(r) == |alerts|
  {
    if alerts == [] then SeverityPlaceholder
    else
      var groups := Tally(Column(alerts, SeverityOf));
      TotalCountOfEntries(groups);
      EntriesOf(groups)
  }

  // ---------------------------------------------------------------------------
  // System health

  datatype SystemHealth = SystemHealth(
    modelsActive: nat,
    logsProcessedToday: nat,
    alertsToday: nat,
    avgProcessingTime: string)

  function CreatedOn(day: int): NetworkLogs.NetworkLog -> bool {
    (l: NetworkLogs.NetworkLog) => DayOf(l.createdAt) == day
  }

  function CreationDay(l: NetworkLogs.NetworkLog): int {
    DayOf(l.createdAt)
  }

  function ComputeSystemHealth(alerts: seq<Alert>, logs: seq<NetworkLogs.NetworkLog>, models: seq<MLModels.MLModel>, now: int): (h: SystemHealth)
    ensures h.modelsActive == |models|
    ensures h.logsProcessedToday <= |logs|
    ensures h.logsProcessedToday == multiset(Column(logs, CreationDay))[DayOf(now)]
    ensures h.alertsToday == CountOnDay(alerts, DayOf(now))
    ensures h.alertsToday == multiset(Column(alerts, DetectionDay))[DayOf(now)]
    ensures h.avgProcessingTime == "2.3s"
  {
    FilterCountsValue(logs, CreationDay, DayOf(now), CreatedOn(DayOf(now)));
    FilterCountsValue(alerts, DetectionDay, DayOf(now), OnDay(DayOf(now)));
    SystemHealth(|models|, |Filter(logs, CreatedOn(DayOf(now)))|, CountOnDay(alerts, DayOf(now)), "2.3s")
  }

  // ---------------------------------------------------------------------------
  // The five most recent alerts

  datatype RecentAlert = RecentAlert(
    id: nat,
    attackType: string,
    severity: string,
    detectedAt: int,
    description: Option<string>,
    modelName: string)

  /** `$alert->mlModel->name ?? 'Unknown'` */
  function ModelName(models: seq<MLModels.MLModel>, id: nat): (name: string)
    ensures (exists m :: m in models && m.id == id) ==> name == models[MLModels.IndexOfModel(models, id)].name
    ensures (forall m :: m in models ==> m.id != id) ==> name == "Unknown"
  {
    var k := MLModels.IndexOfModel(models, id);
    if k < |models| then models[k].name else "Unknown"
  }

  function Project(a: Alert, models: seq<MLModels.MLModel>): RecentAlert {
    RecentAlert(a.id, a.attackType, a.severity, a.detectedAt, a.description, ModelName(models, a.mlModelId))
  }

  function DetectedAt(a: Alert): int {
    a.detectedAt
  }

  /** Which alerts the list shows, by id. */
  predicate Shown(r: seq<RecentAlert>, a: Alert) {
    exists j :: 0 <= j < |r| && r[j].id == a.id
  }

  function ProjectAll(top: seq<Alert>, models: seq<MLModels.MLModel>): (r: seq<RecentAlert>)
    ensures |r| == |top|
    ensures forall i :: 0 <= i < |r| ==> r[i] == Project(top[i], models)
    ensures forall i :: 0 <= i < |r| ==> r[i].id == top[i].id && r[i].detectedAt == top[i].detectedAt
  {
    seq(|top|, i requires 0 <= i < |top| => Project(top[i], models))
  }

  /** The alerts chosen by `orderBy('detected_at', 'desc')->limit(5)`. */
  function Newest(alerts: seq<Alert>): seq<Alert> {
    TopByDesc(alerts, DetectedAt, 5)
  }

  /** Each entry comes from a stored alert. */
  lemma NewestAreStored(alerts: seq<Alert>)
    ensures forall i :: 0 <= i < |Newest(alerts)| ==> Newest(alerts)[i] in alerts
  {
    var top := Newest(alerts);
    forall i | 0 <= i < |top|
      ensures top[i] in alerts
    {
      assert top[i] in multiset(top);
    }
  }

  /** Newest first. */
  predicate NewestFirst(r: seq<RecentAlert>) {
    forall i, j :: 0 <= i < j < |r| ==> r[i].detectedAt >= r[j].detectedAt
  }

  /** Every entry is the projection of a stored alert. */
  predicate ProjectsStored(r: seq<RecentAlert>, alerts: seq<Alert>, models: seq<MLModels.MLModel>) {
    forall i :: 0 <= i < |r| ==> exists a :: a in alerts && r[i] == Project(a, models)
  }

  /** The rows project distinct stored alerts: a sub-multiset of the store,
      so no stored alert is listed twice. */
  ghost predicate FromDistinctAlerts(r: seq<RecentAlert>, alerts: seq<Alert>, models: seq<MLModels.MLModel>) {
    exists top :: multiset(top) <= multiset(alerts) && r == ProjectAll(top, models)
  }

  /** No alert whose id is not shown is newer than a shown one. */
  predicate NoNewerUnshown(r: seq<RecentAlert>, alerts: seq<Alert>) {
    forall a, i :: a in alerts && !Shown(r, a) && 0 <= i < |r| ==> a.detectedAt <= r[i].detectedAt
  }

  /** An alert that `Newest` leaves out is no newer than any it keeps. */
  lemma LeftOutAreOlder(alerts: seq<Alert>)
    ensures var top := Newest(alerts);
      forall a, i :: a in alerts && a !in top && 0 <= i < |top| ==> a.detectedAt <= top[i].detectedAt
  {
    var top := Newest(alerts);
    forall a, i | a in alerts && a !in top && 0 <= i < |top|
      ensures a.detectedAt <= top[i].detectedAt
    {
      assert a in multiset(alerts) - multiset(top);
      assert DetectedAt(a) <= DetectedAt(top[i]);
    }
  }

  /** An alert whose id the list does not show is no newer than any shown. */
  lemma UnshownAreOlder(alerts: seq<Alert>, models: seq<MLModels.MLModel>)
    ensures NoNewerUnshown(ProjectAll(Newest(alerts), models), alerts)
  {
    var top := Newest(alerts);
    LeftOutAreOlder(alerts);
    KeptAreShown(top, models);
  }

  /** Every alert `Newest` keeps appears in the list. */
  lemma KeptAreShown(top: seq<Alert>, models: seq<MLModels.MLModel>)
    ensures forall a :: a in top ==> Shown(ProjectAll(top, models), a)
  {
    var r := ProjectAll(top, models);
    forall a | a in top
      ensures Shown(r, a)
    {
      var j := IndexOf(top, a);
      assert r[j].id == a.id;
    }
  }

  lemma RecentOrdered(alerts: seq<Alert>, models: seq<MLModels.MLModel>)
    ensures NewestFirst(ProjectAll(Newest(alerts), models))
  {
    var top := Newest(alerts);
    var r := ProjectAll(top, models);
    forall i, j | 0 <= i < j < |r|
      ensures r[i].detectedAt >= r[j].detectedAt
    {
      assert DetectedAt(top[i]) >= DetectedAt(top[j]);
    }
  }

  lemma RecentFromStore(alerts: seq<Alert>, models: seq<MLModels.MLModel>)
    ensures ProjectsStored(ProjectAll(Newest(alerts), models), alerts, models)
  {
    var top := Newest(alerts);
    var r := ProjectAll(top, models);
    NewestAreStored(alerts);
    forall i | 0 <= i < |r|
      ensures exists a :: a in alerts && r[i] == Project(a, models)
    {
      assert top[i] in alerts && r[i] == Project(top[i], models);
    }
  }

  /** At most five alerts, newest first, each one projected from a stored
      alert; no alert left out is newer than one shown. */
  function RecentAlerts(alerts: seq<Alert>, models: seq<MLModels.MLModel>): (r: seq<RecentAlert>)
    ensures |r| == Min(5, |alerts|)
    ensures NewestFirst(r)
    ensures ProjectsStored(r, alerts, models)
    ensures NoNewerUnshown(r, alerts)
    ensures FromDistinctAlerts(r, alerts, models)
  {
    assert multiset(Newest(alerts)) <= multiset(alerts);
    RecentOrdered(alerts, models);
    RecentFromStore(alerts, models);
    UnshownAreOlder(alerts, models);
    ProjectAll(Newest(alerts), models)
  }

  // ---------------------------------------------------------------------------
  // The page

  datatype Snapshot = Snapshot(
    stats: Stats,
    attackTypeDistribution: seq<(string, nat)>,
    alertsOverTime: seq<DayCount>,
    severityDistribution: seq<SeverityEntry>,
    systemHealth: SystemHealth,
    recentAlerts: seq<RecentAlert>)

  /** `index`: everything the dashboard shows, read at time `now`. */
  method Index(alerts: seq<Alert>, logs: seq<NetworkLogs.NetworkLog>, models: seq<MLModels.MLModel>, users: seq<User>, now: int)
    returns (page: Snapshot)
    ensures page.stats == ComputeStats(alerts, logs, models, users)
    ensures page.attackTypeDistribution == AttackTypeDistribution(alerts, now)
    ensures page.severityDistribution == SeverityDistribution(alerts)
    ensures page.systemHealth == ComputeSystemHealth(alerts, logs, models, now)
    ensures page.recentAlerts == RecentAlerts(alerts, models)
    ensures page.systemHealth.modelsActive == page.stats.activeModels
    ensures |page.alertsOverTime| == 7
    ensures CountInDays(alerts, DayOf(now) - 6, DayOf(now) + 1) > 0 ==>
      page.alertsOverTime[6].count == page.systemHealth.alertsToday
    ensures page.alertsOverTime == if CountInDays(alerts, DayOf(now) - 6, DayOf(now) + 1) == 0
                                   then PlaceholderSeries(DayOf(now)) else DaySeries(alerts, DayOf(now))
  {
    var stats := ComputeStats(alerts, logs, models, users);
    var attackTypes := AttackTypeDistribution(alerts, now);
    var overTime := AlertsOverTime(alerts, now);
    var severities := SeverityDistribution(alerts);
    var health := ComputeSystemHealth(alerts, logs, models, now);
    var recent := RecentAlerts(alerts, models);
    page := Snapshot(stats, attackTypes, overTime, severities, health, recent);
  }

  /** With nothing stored, every chart shows its placeholder. */
  lemma EmptyStoreShowsPlaceholders(now: int)
    ensures AttackTypeDistribution([], now) == AttackTypePlaceholder
    ensures SeverityDistribution([]) == SeverityPlaceholder
    ensures CountInDays([], DayOf(now) - 6, DayOf(now) + 1) == 0
    ensures RecentAlerts([], []) == []
  {
  }
}
