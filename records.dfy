/** The rows the engine reads, as already fetched from the datastore. Every column that
    the code reads with `.get(key, default)` is an `Option`; the default is applied where
    the code applies it. */
module Records {
  import opened Optional
  import opened Text

  /** A row of the `projects` table: the building's service entrance. */
  datatype Project = Project(
    serviceSize: Option<real>,  // amps, default 200
    voltage: Option<real>,      // volts, default 240
    phases: Option<int>)        // default 1

  /** A row of the `panels` table. The phase count is stored under two keys that
      different callers read: `phase` (panel utilization) and `phases` (compliance
      check, panel info). */
  datatype Panel = Panel(
    name: Option<string>,
    panelType: Option<string>,
    busRating: Option<real>,
    voltage: Option<real>,
    phase: Option<int>,
    phases: Option<int>,
    spaces: Option<int>,
    mainBreakerRating: Option<real>,
    location: Option<string>)

  /** A row of the `circuits` table. */
  datatype Circuit = Circuit(
    loadVa: Option<real>,
    loadWatts: Option<real>,
    pole: Option<int>,
    breakerAmps: Option<real>,
    description: Option<string>,
    loadType: Option<string>,
    panelId: Option<string>)

  /** A row of the `feeders` table; only the recorded drop and the name are read. */
  datatype Feeder = Feeder(
    name: Option<string>,
    voltageDropPercent: Option<real>)

  /** One entry of a proposed change, e.g. three 50 A EV chargers. */
  datatype ProposedLoad = ProposedLoad(
    loadType: Option<string>,
    amps: Option<real>,
    quantity: Option<real>)

  /** A panel's stored name, compared case-insensitively (an absent name reads as ""). */
  predicate NameMatches(p: Panel, name: string)
  {
    Lower(p.name.GetOr("")) == Lower(name)
  }

  /** Index of the first panel whose name equals `name` ignoring case. */
  function FindPanel(panels: seq<Panel>, name: string): (r: Option<nat>)
    ensures r.Some? ==> r.value < |panels| && NameMatches(panels[r.value], name)
    ensures r.Some? ==> forall j :: 0 <= j < r.value ==> !NameMatches(panels[j], name)
    ensures r.None? <==> forall j :: 0 <= j < |panels| ==> !NameMatches(panels[j], name)
  {
    if |panels| == 0 then None
    else if NameMatches(panels[0], name) then Some(0)
    else
      match FindPanel(panels[1..], name)
      case None => None
      case Some(i) => Some(i + 1)
  }

  /** The lookup ignores the case of the name asked for. */
  lemma FindPanelIgnoresCase(panels: seq<Panel>, name: string)
    ensures FindPanel(panels, name) == FindPanel(panels, Lower(name))
  {
    LowerIdempotent(name);
    FindPanelSameKey(panels, name, Lower(name));
  }

  lemma {:induction false} FindPanelSameKey(panels: seq<Panel>, a: string, b: string)
    requires Lower(a) == Lower(b)
    ensures FindPanel(panels, a) == FindPanel(panels, b)
  {
    if |panels| > 0 {
      FindPanelSameKey(panels[1..], a, b);
    }
  }
}
