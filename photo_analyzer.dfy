/** The NEC requirements table of the photo analyzer, searched by equipment type. */
module PhotoAnalyzer {
  import opened Optional
  import opened Text

  datatype NecRequirements = NecRequirements(articles: seq<string>, keyRequirements: seq<string>)

  /** Equipment keywords and their requirements, in the order they are searched. */
  const EquipmentRequirements: seq<(string, NecRequirements)> := [
    ("panel", NecRequirements(
      ["408.30", "408.36", "408.40", "110.26"],
      ["Max 42 poles per panel (408.36)",
       "80% max continuous load (408.30)",
       "Working clearance 3ft min (110.26)",
       "Proper labeling required (408.4)"])),
    ("service_entrance", NecRequirements(
      ["230.70", "230.79", "230.90", "230.95"],
      ["Disconnect must be readily accessible (230.70)",
       "Rating must match service conductors (230.79)",
       "Overload protection required (230.90)",
       "Proper grounding required (250.24)"])),
    ("transformer", NecRequirements(
      ["450.3", "450.4", "450.5"],
      ["Overcurrent protection required (450.3)",
       "Disconnecting means required (450.4)",
       "Grounding required (450.5)"])),
    ("grounding", NecRequirements(
      ["250.50", "250.52", "250.53", "250.66"],
      ["Grounding electrode system required (250.50)",
       "Proper electrode types (250.52)",
       "GEC sizing per 250.66",
       "Bonding jumpers properly sized (250.102)"])),
    ("conduit", NecRequirements(
      ["300.4", "314.16", "352.10"],
      ["Protection against physical damage (300.4)",
       "Proper fill calculations (314.16)",
       "Proper support and securement (352.30)"]))]

  /** The answer when no keyword matches. */
  const NoRequirementsFound: NecRequirements :=
    NecRequirements([], ["No specific requirements found for this equipment type"])

  /** The requirements of the first keyword, in table order, that occurs in the
      lower-cased equipment type; the fallback when none does. */
  function GetNecRequirements(equipmentType: string): (r: NecRequirements)
    ensures |r.keyRequirements| > 0
    ensures r == NoRequirementsFound <==>
      forall j :: 0 <= j < |EquipmentRequirements| ==> !Contains(EquipmentRequirements[j].0, Lower(equipmentType))
    ensures r.articles == [] <==> r == NoRequirementsFound
    ensures r != NoRequirementsFound ==>
      exists i :: 0 <= i < |EquipmentRequirements| && r == EquipmentRequirements[i].1
        && Contains(EquipmentRequirements[i].0, Lower(equipmentType))
        && forall j :: 0 <= j < i ==> !Contains(EquipmentRequirements[j].0, Lower(equipmentType))
  {
    assert forall i :: 0 <= i < |EquipmentRequirements| ==>
      EquipmentRequirements[i].1.articles != [] && EquipmentRequirements[i].1.keyRequirements != [];
    match FirstKey(EquipmentRequirements, Lower(equipmentType))
    case None => NoRequirementsFound
    case Some(i) => EquipmentRequirements[i].1
  }

  /** The result does not depend on the case of the equipment type. */
  lemma RequirementsIgnoreCase(equipmentType: string)
    ensures GetNecRequirements(equipmentType) == GetNecRequirements(Lower(equipmentType))
  {
    LowerIdempotent(equipmentType);
  }

  /** "panel" is searched first: any type that mentions it, whatever else it mentions
      (grounding, say), gets the panel requirements. */
  lemma PanelComesFirst(equipmentType: string)
    requires Contains("panel", Lower(equipmentType))
    ensures GetNecRequirements(equipmentType) == EquipmentRequirements[0].1
  {
  }

  lemma PanelGroundingIsPanel()
    ensures GetNecRequirements("Panel grounding") == EquipmentRequirements[0].1
  {
    var t := Lower("Panel grounding");
    assert t[..5] == "panel";
    PanelComesFirst("Panel grounding");
  }

  /** Each keyword has a character that "service entrance" lacks. */
  lemma NoKeyInServiceEntrance(t: string, j: nat)
    requires t == "service entrance" && j < |EquipmentRequirements|
    ensures !Contains(EquipmentRequirements[j].0, t)
  {
    var key := EquipmentRequirements[j].0;
    if j == 0 {
      KeyMissesServiceEntrance(key, t, 0);
    } else if j == 1 {
      KeyMissesServiceEntrance(key, t, 7);
    } else if j == 2 {
      KeyMissesServiceEntrance(key, t, 5);
    } else if j == 3 {
      KeyMissesServiceEntrance(key, t, 0);
    } else {
      KeyMissesServiceEntrance(key, t, 1);
    }
  }

  /** A keyword whose `i`-th character is one of 'p', '_', 'f', 'g' or 'o' cannot occur
      in "service entrance". */
  lemma KeyMissesServiceEntrance(key: string, t: string, i: nat)
    requires t == "service entrance" && i < |key|
    requires key[i] == 'p' || key[i] == '_' || key[i] == 'f' || key[i] == 'g' || key[i] == 'o'
    ensures !Contains(key, t)
  {
    MissingChar(key, t, i);
  }

  lemma PanelNotInServiceEntrance(t: string)
    requires t == "service_entrance"
    ensures !Contains(EquipmentRequirements[0].0, t)
  {
    assert EquipmentRequirements[0].0 == "panel";
    MissingChar("panel", t, 0);
  }

  lemma ServiceEntranceIsKey(t: string)
    requires t == "service_entrance"
    ensures Contains(EquipmentRequirements[1].0, t)
  {
    assert EquipmentRequirements[1].0 == t;
    ContainsSelf(t);
  }

  lemma SecondKeyFirst(t: string)
    requires !Contains(EquipmentRequirements[0].0, t) && Contains(EquipmentRequirements[1].0, t)
    ensures FirstKey(EquipmentRequirements, t) == Some(1)
  {
    FirstKeyIs(EquipmentRequirements, t, 1);
  }

  lemma NoKeyMatches(t: string)
    requires t == "service entrance"
    ensures forall j :: 0 <= j < |EquipmentRequirements| ==> !Contains(EquipmentRequirements[j].0, t)
  {
    forall j | 0 <= j < |EquipmentRequirements|
      ensures !Contains(EquipmentRequirements[j].0, t)
    {
      NoKeyInServiceEntrance(t, j);
    }
  }

  /** The keyword is "service_entrance" with an underscore, so "service entrance" with a
      space matches nothing and gets the fallback. */
  lemma ServiceEntranceWithSpace()
    ensures GetNecRequirements("service entrance") == NoRequirementsFound
  {
    LowerOfLowerCase("service entrance");
    NoKeyMatches("service entrance");
  }

  lemma ServiceEntranceWithUnderscore()
    ensures GetNecRequirements("service_entrance") == EquipmentRequirements[1].1
  {
    var u := "service_entrance";
    LowerOfLowerCase(u);
    PanelNotInServiceEntrance(u);
    ServiceEntranceIsKey(u);
    SecondKeyFirst(u);
  }
}
