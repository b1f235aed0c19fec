/**
 * What `showInfo` hands to its charts: the XP line chart (labels and data
 * points) and, for each skill, a heading and the two slices of its doughnut.
 */
module Charts {
  import opened Strings
  import opened Activity

  /** A line chart's category labels and its data points, matched by position. */
  datatype LineChart<D> = LineChart(labels: seq<D>, data: seq<int>)

  /** The line chart as the page builds it: the day-boundary labels against every `xp` value. */
  function XpChartAsWritten<D>(dates: seq<D>, xp: Dict<D>): (c: LineChart<D>)
    ensures c.labels == dates && c.data == xp.values
  {
    LineChart(dates, xp.values)
  }

  /**
   * With days in runs and the oldest transaction kept, the chart as written
   * has one data point more than it has labels: the labels are the `xp` days
   * but the last, and the unlabelled point is the final total.
   */
  lemma FinalDayUnlabelled<D>(ts: seq<Transaction>, dayOf: string -> D)
    requires DaysContiguous(ts, dayOf)
    requires ts != [] && !Excluded(ts[0])
    ensures var xp := XpOf(ts, dayOf);
      var c := XpChartAsWritten(DayScan(ts, Day(ts[0], dayOf), dayOf).0, xp);
      && |c.labels| + 1 == |c.data|
      && c.labels == xp.keys[..|xp.keys| - 1]
      && c.data[|c.data| - 1] == CountedSum(ts)
  {
    var xp := XpOf(ts, dayOf);
    var (dates, last) := DayScan(ts, Day(ts[0], dayOf), dayOf);
    DatesMissFinalDay(ts, dayOf);
    assert (dates + [last])[..|dates|] == dates;
    var m := LastKeptExists(ts, 0);
    LastKeyIsLastKeptDay(ts, dayOf, m);
  }

  /** A concrete case: two days of XP give one label and two points. */
  lemma TwoDaysOneLabel()
    ensures var ts := [Transaction(10, "d1", 1, "/x"), Transaction(20, "d2", 2, "/x")];
      var dayOf := (s: string) => s;
      XpChartAsWritten(DayScan(ts, "d1", dayOf).0, XpOf(ts, dayOf)) == LineChart(["d1"], [10, 30])
  {
    var ts := [Transaction(10, "d1", 1, "/x"), Transaction(20, "d2", 2, "/x")];
    var dayOf := (s: string) => s;
    var head := ts[..1];
    assert head == [ts[0]] && head[..0] == [] && ts[..|ts| - 1] == head;
    assert !Excluded(ts[0]) && !Excluded(ts[1]);
    var one := Dict(["d1"], [10]);
    assert XpOf(head, dayOf) == one by {
      var none: Dict<string> := Dict([], []);
      assert XpOf(head, dayOf) == none.Put("d1", 10);
      assert none.keys + ["d1"] == ["d1"] && none.values + [10] == [10];
    }
    assert XpOf(ts, dayOf).values == [10, 30] by {
      assert CountedSum(head) == 10;
      assert "d2" !in one.keys;
      assert XpOf(ts, dayOf) == one.Put("d2", 30);
    }
    assert DayScan(ts, "d1", dayOf).0 == ["d1"] by {
      assert DayScan(head, "d1", dayOf) == ([], "d1");
      assert "d2" != "d1";
    }
  }

  /**
   * The chart as written in general: its labels are the runs of the oldest
   * transaction's day followed by the kept days, all but the last, while its
   * points are the values under the runs of the kept days alone. An excluded
   * oldest transaction on a day of its own thus adds a leading label that is
   * no `xp` day, and every point after it is shown under the previous day.
   */
  lemma LabelsAsWritten<D>(ts: seq<Transaction>, dayOf: string -> D)
    requires DaysContiguous(ts, dayOf) && ts != []
    ensures var runs := Runs([Day(ts[0], dayOf)] + KeptDays(ts, dayOf));
      var xp := XpOf(ts, dayOf);
      var c := XpChartAsWritten(DayScan(ts, Day(ts[0], dayOf), dayOf).0, xp);
      && |runs| >= 1
      && c.labels == runs[..|runs| - 1]
      && c.data == xp.values
      && xp.keys == Runs(KeptDays(ts, dayOf))
  {
    DatesCount(ts, Day(ts[0], dayOf), dayOf);
    XpKeysAreRuns(ts, dayOf);
  }

  /**
   * A concrete case: an excluded oldest transaction on day P before 10 XP on
   * day K gives the single point 10 the label P, a day whose XP counts for
   * nothing.
   */
  lemma ExcludedOldestMislabels()
    ensures var ts := [Transaction(5, "P", 1, "piscine-go/a"), Transaction(10, "K", 2, "/x")];
      var dayOf := (s: string) => s;
      && XpChartAsWritten(DayScan(ts, "P", dayOf).0, XpOf(ts, dayOf)) == LineChart(["P"], [10])
      && "P" !in XpOf(ts, dayOf).keys
  {
    var ts := [Transaction(5, "P", 1, "piscine-go/a"), Transaction(10, "K", 2, "/x")];
    var dayOf := (s: string) => s;
    assert StartsWith(ts[0].path, ExcludedTrack) by {
      assert ts[0].path[..|ExcludedTrack|] == ExcludedTrack;
    }
    StartsWithContains(ts[0].path, ExcludedTrack);
    assert !Excluded(ts[1]);
    assert ts[..1] == [ts[0]] && ts[..1][..0] == [];
    var none: Dict<string> := Dict([], []);
    assert XpOf(ts[..1], dayOf) == none;
    assert DayScan(ts[..1], "P", dayOf) == ([], "P");
    assert "K" != "P";
    assert XpOf(ts, dayOf) == none.Put("K", 10);
    assert none.keys + ["K"] == ["K"] && none.values + [10] == [10];
  }

  /** The line chart with one label per `xp` day: the days in insertion order against their values. */
  function XpChart<D>(xp: Dict<D>): (c: LineChart<D>)
    requires xp.Valid()
    ensures |c.labels| == |c.data| == |xp.keys|
    ensures forall i :: 0 <= i < |c.labels| ==> c.labels[i] == xp.keys[i] && c.data[i] == xp.values[i]
  {
    LineChart(xp.keys, xp.values)
  }

  /** With no key listed twice, each position holds the value stored under its key. */
  lemma DistinctStores<K>(d: Dict<K>, i: nat)
    requires d.Valid() && Distinct(d.keys) && i < |d.keys|
    ensures d.Stores(d.keys[i], d.values[i])
  {
  }

  /**
   * The corrected chart labels every point: each kept day has a label, each
   * point is the value stored under its label, and with days in runs the
   * labels are the kept days' runs and the last point is the total, on the
   * day of the last kept transaction.
   */
  lemma XpChartLabelsEveryPoint<D>(ts: seq<Transaction>, dayOf: string -> D)
    ensures var c := XpChart(XpOf(ts, dayOf));
      && |c.labels| == |c.data|
      && (forall i :: 0 <= i < |ts| && !Excluded(ts[i]) ==> Day(ts[i], dayOf) in c.labels)
      && (forall i :: 0 <= i < |c.labels| ==> XpOf(ts, dayOf).Stores(c.labels[i], c.data[i]))
    ensures DaysContiguous(ts, dayOf) ==> XpChart(XpOf(ts, dayOf)).labels == Runs(KeptDays(ts, dayOf))
    ensures forall m :: (DaysContiguous(ts, dayOf) && 0 <= m < |ts| && !Excluded(ts[m])
      && (forall j :: m < j < |ts| ==> Excluded(ts[j]))) ==>
      var c := XpChart(XpOf(ts, dayOf));
      c.labels != [] && c.labels[|c.labels| - 1] == Day(ts[m], dayOf) && c.data[|c.data| - 1] == CountedSum(ts)
  {
    var xp := XpOf(ts, dayOf);
    forall i | 0 <= i < |ts| && !Excluded(ts[i]) ensures Day(ts[i], dayOf) in xp.keys {
      XpHasKeptDays(ts, dayOf, i);
    }
    XpDistinct(ts, dayOf);
    forall i | 0 <= i < |xp.keys| ensures xp.Stores(xp.keys[i], xp.values[i]) {
      DistinctStores(xp, i);
    }
    if DaysContiguous(ts, dayOf) {
      XpKeysAreRuns(ts, dayOf);
    }
    forall m | DaysContiguous(ts, dayOf) && 0 <= m < |ts| && !Excluded(ts[m])
      && (forall j :: m < j < |ts| ==> Excluded(ts[j]))
      ensures xp.keys != [] && xp.keys[|xp.keys| - 1] == Day(ts[m], dayOf) && xp.values[|xp.values| - 1] == CountedSum(ts)
    {
      LastKeyIsLastKeptDay(ts, dayOf, m);
    }
  }

  // ---------------------------------------------------------------------
  // Skill panels
  // ---------------------------------------------------------------------

  /** The display names of the known skill keys. */
  const SkillNames: map<string, string> := map[
    "html" := "HTML",
    "css" := "CSS",
    "js" := "JS",
    "sql" := "SQL",
    "go" := "Go",
    "unix" := "Unix",
    "tcp" := "TCP/IP",
    "sys-admin" := "SysAdmin",
    "front-end" := "Front-End",
    "back-end" := "Back-End",
    "docker" := "Docker",
    "algo" := "Algorithms",
    "prog" := "Elementary Programming",
    "game" := "Game"]

  /** A heading shows a known skill's display name, and otherwise the key itself. */
  function SkillLabel(key: string): (shown: string)
    ensures key in SkillNames ==> shown == SkillNames[key] && shown != ""
    ensures shown == key <==> key !in SkillNames
  {
    if key in SkillNames && SkillNames[key] != "" then SkillNames[key] else key
  }

  /** The two doughnut slices of a skill: its amount and what is left of 100. */
  function DoughnutSlices(value: int): (r: seq<int>)
    ensures |r| == 2 && r[0] == value && r[0] + r[1] == 100
    ensures 0 <= value <= 100 ==> 0 <= r[1] <= 100
  {
    [value, 100 - value]
  }

  /** What the page draws for one skill: the canvas id, the heading and the doughnut slices. */
  datatype SkillPanel = SkillPanel(id: string, heading: string, slices: seq<int>)

  /** The loop over `Object.entries(skills)`: one panel per key, in key order. */
  method SkillPanels(skills: Dict<string>) returns (panels: seq<SkillPanel>)
    requires skills.Valid()
    ensures |panels| == |skills.keys|
    ensures forall i :: 0 <= i < |panels| ==>
      && panels[i].id == skills.keys[i]
      && panels[i].heading == SkillLabel(skills.keys[i])
      && panels[i].slices == DoughnutSlices(skills.values[i])
    // an object lists each key once, so no two panels share a canvas id
    ensures Distinct(skills.keys) ==> forall i, j :: 0 <= i < j < |panels| ==> panels[i].id != panels[j].id
  {
    panels := [];
    for i := 0 to |skills.keys|
      invariant |panels| == i
      invariant forall j :: 0 <= j < i ==>
        panels[j] == SkillPanel(skills.keys[j], SkillLabel(skills.keys[j]), DoughnutSlices(skills.values[j]))
    {
      var key, value := skills.keys[i], skills.values[i];
      panels := panels + [SkillPanel(key, SkillLabel(key), DoughnutSlices(value))];
    }
  }
}
