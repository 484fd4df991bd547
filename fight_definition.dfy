/** The encounter name table of battle/FightDefinition.cpp: a bijection between
    21 upper-case names and encounter values, the parser that throws on any
    other name, the printer that answers "UNKNOWN" for an encounter outside the
    table, and FightDefinition::fromJson over an abstract JSON value. */
module FightDefinition {
  import opened Wrappers
  import opened MonsterEncounters

  /** The exceptions the source throws: std::invalid_argument with its
      message, and the JSON library's type error when a field has the wrong type. */
  datatype Error = InvalidArgument(message: string) | TypeError

  const ENCOUNTER_MAP: map<string, MonsterEncounter> := map[
    "INVALID" := INVALID,
    "CULTIST" := CULTIST,
    "JAW_WORM" := JAW_WORM,
    "TWO_LOUSE" := TWO_LOUSE,
    "SMALL_SLIMES" := SMALL_SLIMES,
    "BLUE_SLAVER" := BLUE_SLAVER,
    "GREMLIN_GANG" := GREMLIN_GANG,
    "LOOTER" := LOOTER,
    "LARGE_SLIME" := LARGE_SLIME,
    "LOTS_OF_SLIMES" := LOTS_OF_SLIMES,
    "EXORDIUM_THUGS" := EXORDIUM_THUGS,
    "EXORDIUM_WILDLIFE" := EXORDIUM_WILDLIFE,
    "RED_SLAVER" := RED_SLAVER,
    "THREE_LOUSE" := THREE_LOUSE,
    "TWO_FUNGI_BEASTS" := TWO_FUNGI_BEASTS,
    "GREMLIN_NOB" := GREMLIN_NOB,
    "LAGAVULIN" := LAGAVULIN,
    "THREE_SENTRIES" := THREE_SENTRIES,
    "SLIME_BOSS" := SLIME_BOSS,
    "THE_GUARDIAN" := THE_GUARDIAN,
    "HEXAGHOST" := HEXAGHOST
  ]

  const REVERSE_ENCOUNTER_MAP: map<MonsterEncounter, string> := map[
    INVALID := "INVALID",
    CULTIST := "CULTIST",
    JAW_WORM := "JAW_WORM",
    TWO_LOUSE := "TWO_LOUSE",
    SMALL_SLIMES := "SMALL_SLIMES",
    BLUE_SLAVER := "BLUE_SLAVER",
    GREMLIN_GANG := "GREMLIN_GANG",
    LOOTER := "LOOTER",
    LARGE_SLIME := "LARGE_SLIME",
    LOTS_OF_SLIMES := "LOTS_OF_SLIMES",
    EXORDIUM_THUGS := "EXORDIUM_THUGS",
    EXORDIUM_WILDLIFE := "EXORDIUM_WILDLIFE",
    RED_SLAVER := "RED_SLAVER",
    THREE_LOUSE := "THREE_LOUSE",
    TWO_FUNGI_BEASTS := "TWO_FUNGI_BEASTS",
    GREMLIN_NOB := "GREMLIN_NOB",
    LAGAVULIN := "LAGAVULIN",
    THREE_SENTRIES := "THREE_SENTRIES",
    SLIME_BOSS := "SLIME_BOSS",
    THE_GUARDIAN := "THE_GUARDIAN",
    HEXAGHOST := "HEXAGHOST"
  ]

  /** Exact, case-sensitive lookup; any other string is an invalid argument. */
  function ParseMonsterEncounter(s: string): (r: Result<MonsterEncounter, Error>)
    ensures r.Ok? <==> s in ENCOUNTER_MAP.Keys
    ensures r.Err? ==> r.error == InvalidArgument("Unknown monster encounter: " + s)
  {
    if s in ENCOUNTER_MAP then Ok(ENCOUNTER_MAP[s])
    else Err(InvalidArgument("Unknown monster encounter: " + s))
  }

  function MonsterEncounterToString(e: MonsterEncounter): (s: string)
    ensures e in REVERSE_ENCOUNTER_MAP ==> s == REVERSE_ENCOUNTER_MAP[e]
    ensures e !in REVERSE_ENCOUNTER_MAP ==> s == "UNKNOWN"
  {
    if e in REVERSE_ENCOUNTER_MAP then REVERSE_ENCOUNTER_MAP[e] else "UNKNOWN"
  }

  /** Every listed name parses, and printing the result gives the name back. */
  lemma NameRoundTrip(s: string)
    requires s in ENCOUNTER_MAP
    ensures ParseMonsterEncounter(s).Ok?
    ensures MonsterEncounterToString(ParseMonsterEncounter(s).value) == s
  {
  }

  /** Every encounter in the table prints to a name that parses back to it. */
  lemma EncounterRoundTrip(e: MonsterEncounter)
    requires e in REVERSE_ENCOUNTER_MAP
    ensures ParseMonsterEncounter(MonsterEncounterToString(e)) == Ok(e)
  {
  }

  /** Two different listed names never parse to the same encounter. */
  lemma ParseIsInjective(s1: string, s2: string)
    requires s1 in ENCOUNTER_MAP && s2 in ENCOUNTER_MAP
    requires ParseMonsterEncounter(s1) == ParseMonsterEncounter(s2)
    ensures s1 == s2
  {
    NameRoundTrip(s1);
    NameRoundTrip(s2);
  }

  /** Exactly the encounters with their own constructor are in the table; one
      outside it prints "UNKNOWN", a name no encounter parses from. */
  lemma UnmappedEncounterIsUnknown(e: MonsterEncounter)
    ensures e in REVERSE_ENCOUNTER_MAP <==> !e.OtherEncounter?
    ensures e.OtherEncounter? ==> MonsterEncounterToString(e) == "UNKNOWN"
    ensures ParseMonsterEncounter("UNKNOWN").Err?
  {
    assert forall k :: k in ENCOUNTER_MAP ==> k[0] != 'U';
    assert "UNKNOWN" !in ENCOUNTER_MAP by {
      assert "UNKNOWN"[0] == 'U';
    }
  }

  /** Matching is case-sensitive: a lower-case name is rejected. */
  lemma ParseIsCaseSensitive()
    ensures ParseMonsterEncounter("CULTIST") == Ok(CULTIST)
    ensures ParseMonsterEncounter("cultist") == Err(InvalidArgument("Unknown monster encounter: cultist"))
  {
    assert forall k :: k in ENCOUNTER_MAP ==> k[0] != 'c';
    assert "cultist" !in ENCOUNTER_MAP by {
      assert "cultist"[0] == 'c';
    }
    assert "Unknown monster encounter: " + "cultist" == "Unknown monster encounter: cultist";
  }

  /** The JSON values fromJson can meet, with objects as maps from keys to values. */
  datatype Json =
    | JNull
    | JBool(b: bool)
    | JNumber(n: int)
    | JString(s: string)
    | JArray(items: seq<Json>)
    | JObject(fields: map<string, Json>)

  datatype FightDef = FightDef(fightType: MonsterEncounter, description: string)

  /** FightDefinition::fromJson: `fight_type` is required and must be a string
      naming an encounter; `description` defaults to the empty string, and a
      present one must be a string. A value that is not an object contains no
      field, so it fails like a missing `fight_type`. */
  function FromJson(j: Json): (r: Result<FightDef, Error>)
    ensures (!j.JObject? || "fight_type" !in j.fields) ==>
      r == Err(InvalidArgument("JSON must contain 'fight_type' field"))
    ensures r.Ok? ==>
      && j.JObject? && "fight_type" in j.fields && j.fields["fight_type"].JString?
      && ParseMonsterEncounter(j.fields["fight_type"].s) == Ok(r.value.fightType)
    ensures r.Ok? ==> "description" in j.fields ==> j.fields["description"].JString?
    ensures r.Ok? ==> r.value.description == if "description" in j.fields then j.fields["description"].s else ""
    ensures j.JObject? && "fight_type" in j.fields && !j.fields["fight_type"].JString? ==> r == Err(TypeError)
  {
    if !j.JObject? || "fight_type" !in j.fields then
      Err(InvalidArgument("JSON must contain 'fight_type' field"))
    else
      match j.fields["fight_type"]
      case JString(name) =>
        (match ParseMonsterEncounter(name)
         case Err(e) => Err(e)
         case Ok(e) =>
           if "description" !in j.fields then Ok(FightDef(e, ""))
           else match j.fields["description"]
             case JString(d) => Ok(FightDef(e, d))
             case _ => Err(TypeError))
      case _ => Err(TypeError)
  }
}
