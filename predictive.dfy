/** The compliance checks of the predictive inspector: a panel's circuit count and
    continuous loading, and the recorded voltage drop of every feeder. */
module Predictive {
  import opened Optional
  import opened Sums
  import opened Records
  import Database

  const MaxCircuits: nat := 42
  const ContinuousLoadLimit: real := 80.0
  const FeederDropLimit: real := 3.0
  const HighDropLimit: real := 5.0
  const FeederArticle: string := "NEC 210.19(A) / 215.2(A)(1)"

  /** The violations a panel can carry, each with the figure its message embeds. */
  datatype PanelViolation =
    | TooManyCircuits(circuitCount: nat)         // NEC 408.36
    | ContinuousLoadExceeded(utilization: real)  // NEC 408.30

  datatype PanelCompliance =
    | PanelChecked(
        panelName: string,
        circuitCount: nat,
        utilizationPercent: real,
        busRating: real,
        compliant: bool,
        violations: seq<PanelViolation>)
    | PanelNotFound(panelName: string)

  /** The circuits with their `load_watts` dropped, so that only `load_va` counts. */
  function NoWatts(circuits: seq<Circuit>): (r: seq<Circuit>)
    ensures |r| == |circuits|
    ensures forall i :: 0 <= i < |r| ==> r[i] == circuits[i].(loadWatts := None)
  {
    seq(|circuits|, i requires 0 <= i < |circuits| => circuits[i].(loadWatts := None))
  }

  /** With the watts dropped, the watts-fallback sum is the `load_va`-only sum. */
  lemma {:induction false} NoWattsSum(circuits: seq<Circuit>)
    ensures SumReal(NoWatts(circuits), Database.ConnectedVa) == SumReal(circuits, Database.RecordedVa)
  {
    if |circuits| > 0 {
      var init := circuits[..|circuits| - 1];
      assert NoWatts(circuits)[..|circuits| - 1] == NoWatts(init);
      NoWattsSum(init);
    }
  }

  /** Utilization as the compliance check computes it: `load_va` only, and the phase
      count read from the `phases` key. It is the panel-utilization tool's figure for the
      same panel with `phases` in place of `phase` and the watts of every circuit dropped. */
  function ComplianceUtilization(panel: Panel, circuits: seq<Circuit>): (u: real)
    ensures u == Database.PanelUtilization("", panel.(phase := panel.phases), NoWatts(circuits)).utilizationPercent
    ensures panel.phase == panel.phases && (forall i :: 0 <= i < |circuits| ==> circuits[i].loadVa.Some?) ==>
      u == Database.PanelUtilization("", panel, circuits).utilizationPercent
    ensures Database.CapacityVa(panel.busRating.GetOr(Database.DefaultBusRating),
                                panel.voltage.GetOr(Database.DefaultVoltage),
                                panel.phases.GetOr(Database.DefaultPhases)) <= 0.0 ==>
      u == 0.0
  {
    var capacity := Database.CapacityVa(panel.busRating.GetOr(Database.DefaultBusRating),
                                        panel.voltage.GetOr(Database.DefaultVoltage),
                                        panel.phases.GetOr(Database.DefaultPhases));
    assert Database.TotalPanelLoad(circuits) == SumReal(NoWatts(circuits), Database.ConnectedVa) by {
      NoWattsSum(circuits);
    }
    Database.Utilization(Database.TotalPanelLoad(circuits), capacity)
  }

  /** Checks the named panel (matched ignoring case); `circuitsOf` fetches a panel's circuits. */
  function CheckPanelCompliance(panels: seq<Panel>, circuitsOf: Panel -> seq<Circuit>, panelName: string)
    : (r: PanelCompliance)
    ensures r.PanelNotFound? <==> forall j :: 0 <= j < |panels| ==> !NameMatches(panels[j], panelName)
    ensures r.PanelNotFound? ==> r.panelName == panelName
    ensures r.PanelChecked? ==> r.panelName == panelName
    ensures r.PanelChecked? ==> (TooManyCircuits(r.circuitCount) in r.violations <==> r.circuitCount > MaxCircuits)
    ensures r.PanelChecked? ==>
      (ContinuousLoadExceeded(r.utilizationPercent) in r.violations <==> r.utilizationPercent > ContinuousLoadLimit)
    ensures r.PanelChecked? ==> (r.compliant <==> r.violations == [])
    ensures r.PanelChecked? ==> |r.violations| <= 2
    ensures r.PanelChecked? ==> forall v :: v in r.violations ==>
      v == TooManyCircuits(r.circuitCount) || v == ContinuousLoadExceeded(r.utilizationPercent)
    ensures r.PanelChecked? ==>
      exists i :: 0 <= i < |panels| && NameMatches(panels[i], panelName)
        && (forall j :: 0 <= j < i ==> !NameMatches(panels[j], panelName))
        && r.circuitCount == |circuitsOf(panels[i])|
        && r.utilizationPercent == ComplianceUtilization(panels[i], circuitsOf(panels[i]))
        && r.busRating == panels[i].busRating.GetOr(Database.DefaultBusRating)
    ensures r.PanelChecked? ==>
      |r.violations| == (if r.circuitCount > MaxCircuits then 1 else 0)
                        + (if r.utilizationPercent > ContinuousLoadLimit then 1 else 0)
    ensures r.PanelChecked? && |r.violations| == 2 ==> r.violations[0].TooManyCircuits?
  {
    match FindPanel(panels, panelName)
    case None => PanelNotFound(panelName)
    case Some(i) =>
      var panel := panels[i];
      var circuits := circuitsOf(panel);
      var count := |circuits|;
      var utilization := ComplianceUtilization(panel, circuits);
      var violations :=
        (if count > MaxCircuits then [TooManyCircuits(count)] else [])
        + (if utilization > ContinuousLoadLimit then [ContinuousLoadExceeded(utilization)] else []);
      PanelChecked(panelName, count, utilization, panel.busRating.GetOr(Database.DefaultBusRating), |violations| == 0, violations)
  }

  /** The two calculators read different phase keys: a panel recorded with `phase` = 3
      only is three-phase to the utilization tool and single-phase to the compliance
      check, so the two report different utilizations for the same load. */
  lemma PhaseKeysDisagree()
    ensures var panel := Panel(Some("LP"), None, Some(100.0), Some(208.0), Some(3), None, None, None, None);
      var circuits := [Circuit(Some(20800.0), None, None, None, None, None, None)];
      ComplianceUtilization(panel, circuits) == 100.0
      && Database.PanelUtilization("p", panel, circuits).utilizationPercent < 100.0
  {
    var c := Circuit(Some(20800.0), None, None, None, None, None, None);
    SumRealSingleton(c, Database.RecordedVa);
    SumRealSingleton(c, Database.ConnectedVa);
  }

  // ---------------------------------------------------------------------------
  // Feeder voltage drop

  datatype Severity = High | Medium

  datatype FeederViolation = FeederViolation(
    feeder: string,
    voltageDrop: real,
    limit: real,
    article: string,
    severity: Severity)

  /** A feeder's recorded drop, 0 if absent. */
  function RecordedDrop(f: Feeder): real { f.voltageDropPercent.GetOr(0.0) }

  /** The violation one feeder contributes, if its drop is over the limit. */
  function FeederReport(f: Feeder): seq<FeederViolation>
  {
    var drop := RecordedDrop(f);
    if drop > FeederDropLimit then
      [FeederViolation(f.name.GetOr("Unknown"), drop, FeederDropLimit, FeederArticle,
                       if drop > HighDropLimit then High else Medium)]
    else []
  }

  /** The violations of a feeder list, in feeder order: at most one per feeder, each over
      the 3 % limit, carrying the limit 3.0 and the fixed article, and High exactly above 5 %. */
  function FeederViolations(feeders: seq<Feeder>): (r: seq<FeederViolation>)
    ensures |r| <= |feeders|
    ensures forall k :: 0 <= k < |r| ==>
      && r[k].voltageDrop > FeederDropLimit && r[k].limit == 3.0 && r[k].article == FeederArticle
      && (r[k].severity == High <==> r[k].voltageDrop > HighDropLimit)
  {
    if |feeders| == 0 then []
    else FeederViolations(feeders[..|feeders| - 1]) + FeederReport(feeders[|feeders| - 1])
  }

  /** Checks every feeder in turn, appending a violation for each drop over 3 %. */
  method CheckVoltageDropCompliance(feeders: seq<Feeder>) returns (violations: seq<FeederViolation>)
    ensures violations == FeederViolations(feeders)
  {
    violations := [];
    var i := 0;
    while i < |feeders|
      invariant 0 <= i <= |feeders|
      invariant violations == FeederViolations(feeders[..i])
    {
      var feeder := feeders[i];
      var vdrop := feeder.voltageDropPercent.GetOr(0.0);
      if vdrop > 3.0 {
        violations := violations + [FeederViolation(
          feeder.name.GetOr("Unknown"), vdrop, 3.0, FeederArticle,
          if vdrop > 5.0 then High else Medium)];
      }
      assert feeders[..i + 1][..i] == feeders[..i];
      i := i + 1;
    }
    assert feeders[..i] == feeders;
  }

  /** The check works feeder by feeder: the list for a concatenation is the two lists
      concatenated, so order is kept and each feeder is reported on its own. */
  lemma {:induction false} FeederViolationsConcat(a: seq<Feeder>, b: seq<Feeder>)
    ensures FeederViolations(a + b) == FeederViolations(a) + FeederViolations(b)
    decreases |b|
  {
    if |b| == 0 {
      assert a + b == a;
    } else {
      assert (a + b)[..|a + b| - 1] == a + b[..|b| - 1];
      FeederViolationsConcat(a, b[..|b| - 1]);
    }
  }

  /** A single feeder is reported exactly when its drop is over 3 %; the entry carries the
      3.0 limit and the fixed article, and is High exactly when the drop is over 5 %. */
  lemma SingleFeeder(f: Feeder)
    ensures |FeederViolations([f])| == (if RecordedDrop(f) > FeederDropLimit then 1 else 0)
    ensures RecordedDrop(f) > FeederDropLimit ==> FeederViolations([f]) == [FeederViolation(
      f.name.GetOr("Unknown"), RecordedDrop(f), 3.0, FeederArticle,
      if RecordedDrop(f) > HighDropLimit then High else Medium)]
  {
    assert [f][..0] == [];
  }

  /** The feeders over the 3 % limit, in feeder order. */
  function ReportedFeeders(feeders: seq<Feeder>): (r: seq<Feeder>)
    ensures forall k :: 0 <= k < |r| ==> RecordedDrop(r[k]) > FeederDropLimit && r[k] in feeders
    ensures forall k :: 0 <= k < |feeders| && RecordedDrop(feeders[k]) > FeederDropLimit ==> feeders[k] in r
  {
    if |feeders| == 0 then []
    else
      var init := feeders[..|feeders| - 1];
      var last := feeders[|feeders| - 1];
      assert feeders == init + [last];
      ReportedFeeders(init) + (if RecordedDrop(last) > FeederDropLimit then [last] else [])
  }

  /** One violation per feeder over the limit, in feeder order: the k-th violation names
      the k-th such feeder and carries its recorded drop. */
  lemma {:induction false} ViolationsFollowReportedFeeders(feeders: seq<Feeder>)
    ensures |FeederViolations(feeders)| == |ReportedFeeders(feeders)|
    ensures forall k :: 0 <= k < |FeederViolations(feeders)| ==>
      FeederViolations(feeders)[k].feeder == ReportedFeeders(feeders)[k].name.GetOr("Unknown")
      && FeederViolations(feeders)[k].voltageDrop == RecordedDrop(ReportedFeeders(feeders)[k])
  {
    if |feeders| > 0 {
      ViolationsFollowReportedFeeders(feeders[..|feeders| - 1]);
    }
  }

  /** A feeder with no recorded drop counts as 0 % and is not reported. */
  lemma MissingDropNotReported(name: Option<string>)
    ensures FeederViolations([Feeder(name, None)]) == []
  {
    assert [Feeder(name, None)][..0] == [];
  }

  /** 4.2 % is reported at Medium severity against the 3.0 limit. */
  lemma FeederScenario()
    ensures FeederViolations([Feeder(Some("F1"), Some(4.2))])
      == [FeederViolation("F1", 4.2, 3.0, FeederArticle, Medium)]
  {
    SingleFeeder(Feeder(Some("F1"), Some(4.2)));
  }
}
