/** The lookups of the RFI drafter: the NEC article table searched by topic keyword,
    and a panel's specification looked up by name. */
module RfiDrafter {
  import opened Optional
  import opened Text
  import opened Records

  /** Topic keywords and their NEC articles, in the order they are searched. */
  const NecReferences: seq<(string, seq<string>)> := [
    ("grounding", ["250.50", "250.52", "250.53", "250.66"]),
    ("bonding", ["250.92", "250.94", "250.96"]),
    ("panel", ["408.30", "408.36", "408.40"]),
    ("panel sizing", ["408.30", "408.36"]),
    ("service", ["230.42", "230.79", "230.90"]),
    ("feeder", ["215.2", "215.3", "215.10"]),
    ("voltage drop", ["210.19(A)", "215.2(A)(1)"]),
    ("conductor sizing", ["310.16", "240.4(D)"]),
    ("egc", ["250.122", "250.118"]),
    ("grounding electrode", ["250.50", "250.52", "250.53"]),
    ("transformer", ["450.3", "450.4", "450.5"]),
    ("ev charging", ["625.40", "625.42", "625.44"]),
    ("solar", ["690.8", "690.12", "690.15"]),
    ("emergency", ["700.12", "700.16", "700.27"])]

  /** The articles of the first keyword, in table order, that occurs in the lower-cased
      topic; none when no keyword occurs. */
  function LookupNecArticle(topic: string): (articles: seq<string>)
    ensures articles == [] <==> forall j :: 0 <= j < |NecReferences| ==> !Contains(NecReferences[j].0, Lower(topic))
    ensures articles != [] ==>
      exists i :: 0 <= i < |NecReferences| && articles == NecReferences[i].1
        && Contains(NecReferences[i].0, Lower(topic))
        && forall j :: 0 <= j < i ==> !Contains(NecReferences[j].0, Lower(topic))
  {
    assert forall i :: 0 <= i < |NecReferences| ==> NecReferences[i].1 != [];
    match FirstKey(NecReferences, Lower(topic))
    case None => []
    case Some(i) => NecReferences[i].1
  }

  /** The result does not depend on the case of the topic. */
  lemma LookupIgnoresCase(topic: string)
    ensures LookupNecArticle(topic) == LookupNecArticle(Lower(topic))
  {
    LowerIdempotent(topic);
  }

  /** "panel sizing" contains "panel", which comes first, so its own entry is never
      returned; likewise "grounding electrode" behind "grounding". */
  lemma ShadowedEntriesNeverReturned(topic: string)
    ensures FirstKey(NecReferences, Lower(topic)) != Some(3)
    ensures FirstKey(NecReferences, Lower(topic)) != Some(9)
  {
    assert NecReferences[2].0 == "panel" && NecReferences[3].0 == "panel sizing";
    assert StartsWith("panel", "panel sizing");
    ShadowedKey(NecReferences, 2, 3, Lower(topic));
    assert NecReferences[0].0 == "grounding" && NecReferences[9].0 == "grounding electrode";
    assert StartsWith("grounding", "grounding electrode");
    ShadowedKey(NecReferences, 0, 9, Lower(topic));
  }

  lemma GroundingNotInPanelSizing(t: string)
    requires t == "panel sizing"
    ensures !Contains(NecReferences[0].0, t)
  {
    assert NecReferences[0].0 == "grounding";
    MissingChar("grounding", t, 1);
  }

  lemma BondingNotInPanelSizing(t: string)
    requires t == "panel sizing"
    ensures !Contains(NecReferences[1].0, t)
  {
    assert NecReferences[1].0 == "bonding";
    MissingChar("bonding", t, 0);
  }

  lemma PanelInPanelSizing(t: string)
    requires t == "panel sizing"
    ensures Contains(NecReferences[2].0, t)
  {
    assert NecReferences[2].0 == "panel";
    assert StartsWith("panel", t);
  }

  lemma ThirdKeyFirst(t: string)
    requires !Contains(NecReferences[0].0, t) && !Contains(NecReferences[1].0, t)
    requires Contains(NecReferences[2].0, t)
    ensures FirstKey(NecReferences, t) == Some(2)
  {
    FirstKeyIs(NecReferences, t, 2);
  }

  /** "panel sizing" gets the three "panel" articles, not its own two. */
  lemma PanelSizingLookup()
    ensures LookupNecArticle("panel sizing") == ["408.30", "408.36", "408.40"]
  {
    var t := "panel sizing";
    LowerOfLowerCase(t);
    GroundingNotInPanelSizing(t);
    BondingNotInPanelSizing(t);
    PanelInPanelSizing(t);
    ThirdKeyFirst(t);
  }

  lemma GroundingInGroundingElectrode(t: string)
    requires t == "grounding electrode"
    ensures Contains(NecReferences[0].0, t)
  {
    assert NecReferences[0].0 == "grounding";
    assert StartsWith("grounding", t);
  }

  /** "grounding electrode" gets the four "grounding" articles, not its own three. */
  lemma GroundingElectrodeLookup()
    ensures LookupNecArticle("grounding electrode") == ["250.50", "250.52", "250.53", "250.66"]
  {
    var t := "grounding electrode";
    LowerOfLowerCase(t);
    GroundingInGroundingElectrode(t);
    FirstKeyIs(NecReferences, t, 0);
  }

  /** The answer of `get_panel_info`: the panel's fields with defaults, or not found. */
  datatype PanelInfo =
    | PanelInfo(
        name: Option<string>,
        panelType: Option<string>,
        ratingAmps: real,
        voltage: real,
        phases: int,
        mainBreakerAmps: real,
        location: string)
    | PanelInfoNotFound(panelName: string)

  /** A panel's specification; absent fields read as rating 0 A, 240 V, one phase (from
      the `phases` key), main breaker 0 A and location "Not specified". */
  function InfoOf(p: Panel): PanelInfo
  {
    PanelInfo(p.name, p.panelType, p.busRating.GetOr(0.0), p.voltage.GetOr(240.0),
              p.phases.GetOr(1), p.mainBreakerRating.GetOr(0.0), p.location.GetOr("Not specified"))
  }

  /** The specification of the first panel whose name equals `panelName` ignoring case. */
  function GetPanelInfo(panels: seq<Panel>, panelName: string): (r: PanelInfo)
    ensures r.PanelInfoNotFound? <==> forall j :: 0 <= j < |panels| ==> !NameMatches(panels[j], panelName)
    ensures r.PanelInfoNotFound? ==> r.panelName == panelName
    ensures r.PanelInfo? ==>
      exists i :: 0 <= i < |panels| && NameMatches(panels[i], panelName)
        && (forall j :: 0 <= j < i ==> !NameMatches(panels[j], panelName))
        && r == InfoOf(panels[i])
  {
    match FindPanel(panels, panelName)
    case None => PanelInfoNotFound(panelName)
    case Some(i) => InfoOf(panels[i])
  }

  /** A panel stored as "MDP" with no other fields is found as "mdp" and reported with
      every default. */
  lemma PanelInfoDefaults()
    ensures GetPanelInfo([Panel(Some("MDP"), None, None, None, None, None, None, None, None)], "mdp")
      == PanelInfo(Some("MDP"), None, 0.0, 240.0, 1, 0.0, "Not specified")
  {
    var p := Panel(Some("MDP"), None, None, None, None, None, None, None, None);
    assert Lower("MDP") == "mdp";
    LowerOfLowerCase("mdp");
    assert NameMatches(p, "mdp");
  }
}
