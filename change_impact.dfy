/** The arithmetic of the change-impact analyzer: the K-factor voltage-drop calculator
    over a fixed conductor table, and the total current of a proposed change. */
module ChangeImpact {
  import opened Optional
  import opened Sums
  import opened Records

  /** Circular-mil cross-sections of the listed copper conductor sizes. */
  const ConductorCmil: map<string, real> := map[
    "#14" := 4110.0, "#12" := 6530.0, "#10" := 10380.0, "#8" := 16510.0,
    "#6" := 26240.0, "#4" := 41740.0, "#3" := 52620.0, "#2" := 66360.0,
    "#1" := 83690.0, "#1/0" := 105600.0, "#2/0" := 133100.0, "#3/0" := 167800.0,
    "#4/0" := 211600.0]

  /** The listed sizes from smallest to largest, in the table's own order. */
  const ConductorSizes: seq<string> :=
    ["#14", "#12", "#10", "#8", "#6", "#4", "#3", "#2", "#1", "#1/0", "#2/0", "#3/0", "#4/0"]

  /** Area used for a designator the table does not list: that of #1/0. */
  const DefaultCmil: real := 105600.0

  /** K for copper, in ohm-cmil per foot. */
  const CopperK: real := 12.9

  /** The circular mils of a conductor designator, defaulting rather than failing. */
  function CircularMils(size: string): (cmil: real)
    ensures cmil > 0.0
    ensures size in ConductorCmil ==> cmil == ConductorCmil[size]
    ensures size !in ConductorCmil ==> cmil == DefaultCmil
  {
    if size in ConductorCmil then ConductorCmil[size] else DefaultCmil
  }

  /** The sizes listed are exactly the table's keys. */
  lemma ConductorSizesAreTableKeys()
    ensures forall s :: s in ConductorCmil <==> s in ConductorSizes
  {
  }

  /** The table strictly increases from #14 to #4/0. */
  lemma CmilStrictlyIncreasing(i: nat, j: nat)
    requires i < j < |ConductorSizes|
    ensures CircularMils(ConductorSizes[i]) < CircularMils(ConductorSizes[j])
  {
    var cm := seq(|ConductorSizes|, k requires 0 <= k < |ConductorSizes| => ConductorCmil[ConductorSizes[k]]);
    assert cm == [4110.0, 6530.0, 10380.0, 16510.0, 26240.0, 41740.0, 52620.0, 66360.0,
                  83690.0, 105600.0, 133100.0, 167800.0, 211600.0];
    assert cm[i] < cm[j];
  }

  /** Percentage voltage drop of a run, K x I x L / cmil volts over the system voltage.
      The voltage is divided without a guard, so it must not be zero. */
  function VoltageDropPercent(size: string, lengthFeet: real, loadAmps: real, voltage: real): (drop: real)
    requires voltage != 0.0
    ensures lengthFeet == 0.0 || loadAmps == 0.0 ==> drop == 0.0
    ensures lengthFeet >= 0.0 && loadAmps >= 0.0 && voltage > 0.0 ==> drop >= 0.0
  {
    var cm := CircularMils(size);
    DropSign(loadAmps, lengthFeet, cm, voltage);
    CopperK * loadAmps * lengthFeet / cm / voltage * 100.0
  }

  /** The sign of K x I x L / cmil / V x 100: zero without current or length, and
      non-negative for non-negative current and length over a positive voltage. */
  lemma DropSign(loadAmps: real, lengthFeet: real, cm: real, voltage: real)
    requires cm > 0.0 && voltage != 0.0
    ensures lengthFeet == 0.0 || loadAmps == 0.0 ==>
      CopperK * loadAmps * lengthFeet / cm / voltage * 100.0 == 0.0
    ensures lengthFeet >= 0.0 && loadAmps >= 0.0 && voltage > 0.0 ==>
      CopperK * loadAmps * lengthFeet / cm / voltage * 100.0 >= 0.0
  {
    var n := CopperK * loadAmps * lengthFeet;
    if lengthFeet == 0.0 || loadAmps == 0.0 {
      assert n == 0.0;
    }
    if lengthFeet >= 0.0 && loadAmps >= 0.0 && voltage > 0.0 {
      MulMonotone(CopperK, 0.0, loadAmps);
      MulMonotone(CopperK * loadAmps, 0.0, lengthFeet);
      DivMonotone(0.0, n, cm);
      DivMonotone(0.0, n / cm, voltage);
      MulMonotone(100.0, 0.0, n / cm / voltage);
    }
  }

  /** No length or no current means no drop. */
  lemma NoRunNoDrop(size: string, lengthFeet: real, loadAmps: real, voltage: real)
    requires voltage != 0.0
    requires lengthFeet == 0.0 || loadAmps == 0.0
    ensures VoltageDropPercent(size, lengthFeet, loadAmps, voltage) == 0.0
  {
  }

  /** The drop is K x I x L x 100 over cmil x V, whatever the division order. */
  lemma VoltageDropClosedForm(size: string, lengthFeet: real, loadAmps: real, voltage: real)
    requires voltage != 0.0
    ensures VoltageDropPercent(size, lengthFeet, loadAmps, voltage)
      == CopperK * loadAmps * lengthFeet * 100.0 / (CircularMils(size) * voltage)
  {
    var cm := CircularMils(size);
    var n := CopperK * loadAmps * lengthFeet;
    assert n / cm / voltage == n / (cm * voltage);
  }

  /** A longer run or a larger current never gives a smaller drop. */
  lemma VoltageDropMonotone(size: string, l1: real, l2: real, i1: real, i2: real, voltage: real)
    requires 0.0 <= l1 <= l2 && 0.0 <= i1 <= i2 && voltage > 0.0
    ensures VoltageDropPercent(size, l1, i1, voltage) <= VoltageDropPercent(size, l2, i2, voltage)
  {
    var d := CircularMils(size) * voltage;
    VoltageDropClosedForm(size, l1, i1, voltage);
    VoltageDropClosedForm(size, l2, i2, voltage);
    MulMonotone(CopperK, i1, i2);
    MulMonotone(CopperK * i2, l1, l2);
    var k1, k2 := CopperK * i1, CopperK * i2;
    MulMonotone(l1, k1, k2);
    var n1 := CopperK * i1 * l1 * 100.0;
    var n2 := CopperK * i2 * l2 * 100.0;
    assert k1 * l1 <= k2 * l2;
    MulMonotone(100.0, k1 * l1, k2 * l2);
    assert n1 <= n2;
    assert d > 0.0;
    DivMonotone(n1, n2, d);
  }

  /** The drop is inversely proportional to the voltage: k times the voltage, 1/k the drop. */
  lemma VoltageDropInverseInVoltage(size: string, lengthFeet: real, loadAmps: real, voltage: real, k: real)
    requires voltage != 0.0 && k != 0.0
    ensures VoltageDropPercent(size, lengthFeet, loadAmps, k * voltage) * k
      == VoltageDropPercent(size, lengthFeet, loadAmps, voltage)
  {
    var v := CopperK * loadAmps * lengthFeet / CircularMils(size);
    assert v / (k * voltage) * k == v / voltage;
  }

  /** For a fixed run, a larger listed conductor never gives a larger drop. */
  lemma LargerConductorNoLargerDrop(i: nat, j: nat, lengthFeet: real, loadAmps: real, voltage: real)
    requires i < j < |ConductorSizes|
    requires lengthFeet >= 0.0 && loadAmps >= 0.0 && voltage > 0.0
    ensures VoltageDropPercent(ConductorSizes[j], lengthFeet, loadAmps, voltage)
      <= VoltageDropPercent(ConductorSizes[i], lengthFeet, loadAmps, voltage)
  {
    var small, large := CircularMils(ConductorSizes[i]), CircularMils(ConductorSizes[j]);
    CmilStrictlyIncreasing(i, j);
    var n := CopperK * loadAmps * lengthFeet;
    assert n >= 0.0;
    DivAntitone(n, small, large);
    DivMonotone(n / large, n / small, voltage);
  }

  /** An unknown designator is computed as #1/0. */
  lemma UnknownConductorIsOneOught(lengthFeet: real, loadAmps: real, voltage: real)
    requires voltage != 0.0
    ensures VoltageDropPercent("#weird", lengthFeet, loadAmps, voltage)
      == VoltageDropPercent("#1/0", lengthFeet, loadAmps, voltage)
  {
  }

  /** #6 copper, 100 ft, 40 A at 240 V: 12.9 x 40 x 100 / 26240 V, about 0.8194 %, which
      the tool reports as 0.82. */
  lemma VoltageDropScenario()
    ensures 0.8193 < VoltageDropPercent("#6", 100.0, 40.0, 240.0) < 0.8194
  {
    assert CircularMils("#6") == 26240.0;
    VoltageDropClosedForm("#6", 100.0, 40.0, 240.0);
  }

  /** The current a proposed entry adds: amps (0 if absent) times quantity (1 if absent). */
  function EntryAmps(load: ProposedLoad): real
  {
    load.amps.GetOr(0.0) * load.quantity.GetOr(1.0)
  }

  /** Total additional current of a proposed change; never negative when no entry is. */
  function TotalAdditionalAmps(loads: seq<ProposedLoad>): (total: real)
    ensures |loads| == 0 ==> total == 0.0
    ensures (forall i :: 0 <= i < |loads| ==> EntryAmps(loads[i]) >= 0.0) ==> total >= 0.0
  {
    assert (forall i :: 0 <= i < |loads| ==> EntryAmps(loads[i]) >= 0.0) ==> SumReal(loads, EntryAmps) >= 0.0 by {
      if forall i :: 0 <= i < |loads| ==> EntryAmps(loads[i]) >= 0.0 {
        SumRealNonNegative(loads, EntryAmps);
      }
    }
    SumReal(loads, EntryAmps)
  }

  /** Nothing proposed adds nothing, and the total is additive over concatenation. */
  lemma TotalAdditionalAmpsAdditive(a: seq<ProposedLoad>, b: seq<ProposedLoad>)
    ensures TotalAdditionalAmps([]) == 0.0
    ensures TotalAdditionalAmps(a + b) == TotalAdditionalAmps(a) + TotalAdditionalAmps(b)
  {
    SumRealConcat(a, b, EntryAmps);
  }

  /** Three 50 A chargers add 150 A; an entry with no quantity counts once. */
  lemma TotalAdditionalAmpsScenario()
    ensures TotalAdditionalAmps([ProposedLoad(None, Some(50.0), Some(3.0)),
                                 ProposedLoad(None, Some(20.0), None)]) == 170.0
  {
    var a, b := ProposedLoad(None, Some(50.0), Some(3.0)), ProposedLoad(None, Some(20.0), None);
    assert [a, b] == [a] + [b];
    TotalAdditionalAmpsAdditive([a], [b]);
    SumRealSingleton(a, EntryAmps);
    SumRealSingleton(b, EntryAmps);
  }
}
