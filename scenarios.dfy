/** Building a run from a scenario (include/utils/scenarios.h): name lookups in
    the enum name tables, the deck-entry rules (a trailing '+' upgrades,
    STRIKE and DEFEND are legacy names, unknown cards are dropped), the
    encounter lookup, and the relic list with its counter overrides. The JSON
    document is taken already read into the Scenario datatype. */
module Scenarios {
  import opened Wrappers
  import opened Cards
  import opened Relics
  import opened MonsterEncounters
  import opened Characters
  import opened Decimal
  import opened GameRules
  import opened GameContext2

  /** The enum name tables (cardEnumStrings, relicEnumNames,
      monsterEncounterEnumNames), each with the cast from a position in the
      table to the enum value at that ordinal. */
  datatype Tables = Tables(
    cardNames: seq<string>, cardOf: nat -> CardId,
    relicNames: seq<string>, relicOf: nat -> RelicId,
    encounterNames: seq<string>, encounterOf: nat -> MonsterEncounter)

  /** `initial_state` of a scenario; `relics` and `relic_counters` may be
      absent, and the counters are listed in the document's iteration order. */
  datatype InitialState = InitialState(
    playerHp: int, playerMaxHp: int, encounter: string, deck: seq<string>,
    relics: Option<seq<string>>, relicCounters: Option<seq<(string, int)>>)

  datatype Scenario = Scenario(seed: int, ascension: int, floor: int, initialState: InitialState)

  // ---------------------------------------------------------------------
  // Name lookups

  /** The position of the first entry equal to `name`, or |names| when none is. */
  function NameIndex(names: seq<string>, name: string): (i: nat)
    ensures i <= |names|
    ensures i < |names| ==> names[i] == name
    ensures forall j :: 0 <= j < i ==> names[j] != name
  {
    if names == [] then 0
    else if names[0] == name then 0
    else 1 + NameIndex(names[1..], name)
  }

  /** The linear search the lookups share. */
  method FindName(names: seq<string>, name: string) returns (i: nat)
    ensures i == NameIndex(names, name)
  {
    i := 0;
    while i < |names| && names[i] != name
      invariant i <= |names|
      invariant forall j :: 0 <= j < i ==> names[j] != name
    {
      i := i + 1;
    }
    NameIndexIsFirst(names, name, i);
  }

  /** NameIndex is the only position that is a match with no match before it (or the end). */
  lemma {:induction false} NameIndexIsFirst(names: seq<string>, name: string, i: nat)
    requires i <= |names|
    requires i < |names| ==> names[i] == name
    requires forall j :: 0 <= j < i ==> names[j] != name
    ensures NameIndex(names, name) == i
  {
    if names != [] && names[0] != name {
      NameIndexIsFirst(names[1..], name, i - 1);
    }
  }

  function CardIdFromName(t: Tables, name: string): CardId
  {
    var i := NameIndex(t.cardNames, name);
    if i < |t.cardNames| then t.cardOf(i) else CardId.INVALID
  }

  function RelicIdFromName(t: Tables, name: string): RelicId
  {
    var i := NameIndex(t.relicNames, name);
    if i < |t.relicNames| then t.relicOf(i) else RelicId.INVALID
  }

  method GetCardIdFromName(t: Tables, name: string) returns (id: CardId)
    ensures id == CardIdFromName(t, name)
  {
    var i := FindName(t.cardNames, name);
    if i < |t.cardNames| {
      return t.cardOf(i);
    }
    return CardId.INVALID;
  }

  method GetRelicIdFromName(t: Tables, name: string) returns (id: RelicId)
    ensures id == RelicIdFromName(t, name)
  {
    var i := FindName(t.relicNames, name);
    if i < |t.relicNames| {
      return t.relicOf(i);
    }
    return RelicId.INVALID;
  }

  /** A name found in the table gives the enum value of its first occurrence; any other name gives INVALID. */
  lemma CardLookup(t: Tables, name: string)
    ensures name !in t.cardNames ==> CardIdFromName(t, name) == CardId.INVALID
    ensures forall i :: 0 <= i < |t.cardNames| && t.cardNames[i] == name && name !in t.cardNames[..i] ==>
      CardIdFromName(t, name) == t.cardOf(i)
  {
    forall i | 0 <= i < |t.cardNames| && t.cardNames[i] == name && name !in t.cardNames[..i]
      ensures CardIdFromName(t, name) == t.cardOf(i)
    {
      assert forall j :: 0 <= j < i ==> t.cardNames[j] != name by {
        forall j | 0 <= j < i ensures t.cardNames[j] != name {
          assert t.cardNames[..i][j] == t.cardNames[j];
        }
      }
      NameIndexIsFirst(t.cardNames, name, i);
    }
  }

  lemma RelicLookup(t: Tables, name: string)
    ensures name !in t.relicNames ==> RelicIdFromName(t, name) == RelicId.INVALID
    ensures forall i :: 0 <= i < |t.relicNames| && t.relicNames[i] == name && name !in t.relicNames[..i] ==>
      RelicIdFromName(t, name) == t.relicOf(i)
  {
    forall i | 0 <= i < |t.relicNames| && t.relicNames[i] == name && name !in t.relicNames[..i]
      ensures RelicIdFromName(t, name) == t.relicOf(i)
    {
      assert forall j :: 0 <= j < i ==> t.relicNames[j] != name by {
        forall j | 0 <= j < i ensures t.relicNames[j] != name {
          assert t.relicNames[..i][j] == t.relicNames[j];
        }
      }
      NameIndexIsFirst(t.relicNames, name, i);
    }
  }

  // ---------------------------------------------------------------------
  // Deck entries

  /** One trailing '+' is removed and marks the card upgraded. */
  function StripUpgrade(entry: string): (string, bool)
  {
    if |entry| > 0 && entry[|entry| - 1] == '+' then (entry[..|entry| - 1], true)
    else (entry, false)
  }

  /** The legacy names STRIKE and DEFEND stand for the Ironclad's cards. */
  function LegacyName(name: string): string
  {
    if name == "STRIKE" then "STRIKE_RED"
    else if name == "DEFEND" then "DEFEND_RED"
    else name
  }

  /** The card a deck entry adds, if any: the '+' is stripped first, then the legacy name is mapped. */
  function CardFromEntry(t: Tables, entry: string): Option<Card>
  {
    var st := StripUpgrade(entry);
    var id := CardIdFromName(t, LegacyName(st.0));
    if id == CardId.INVALID then None else Some(Card(id, st.1))
  }

  /** The deck built from the entries, in order, unknown entries dropped. */
  function DeckFromEntries(t: Tables, entries: seq<string>): seq<Card>
  {
    if entries == [] then []
    else
      var last := entries[|entries| - 1];
      DeckFromEntries(t, entries[..|entries| - 1])
        + (match CardFromEntry(t, last) case Some(c) => [c] case None => [])
  }

  /** Exactly one trailing '+' is removed: `name + "+"` looks up `name` itself
      (even when it ends in '+' too) and gives the upgraded card. */
  lemma UpgradeSuffix(t: Tables, name: string)
    ensures StripUpgrade(name + "+") == (name, true)
    ensures CardFromEntry(t, name + "+") ==
      var id := CardIdFromName(t, LegacyName(name));
      if id == CardId.INVALID then None else Some(Card(id, true))
    ensures !(|name| > 0 && name[|name| - 1] == '+') ==>
      CardFromEntry(t, name + "+") ==
        (match CardFromEntry(t, name) case Some(c) => Some(c.(upgraded := true)) case None => None)
  {
    assert (name + "+")[..|name + "+"| - 1] == name;
  }

  /** STRIKE+ is an upgraded STRIKE_RED, because the '+' is stripped before the legacy names apply. */
  lemma LegacyStrikeUpgraded(t: Tables)
    requires CardIdFromName(t, "STRIKE_RED") != CardId.INVALID
    ensures CardFromEntry(t, "STRIKE+") == Some(Card(CardIdFromName(t, "STRIKE_RED"), true))
    ensures CardFromEntry(t, "STRIKE") == Some(Card(CardIdFromName(t, "STRIKE_RED"), false))
  {
    assert "STRIKE+" == "STRIKE" + "+";
    UpgradeSuffix(t, "STRIKE");
  }

  lemma LegacyDefendUpgraded(t: Tables)
    requires CardIdFromName(t, "DEFEND_RED") != CardId.INVALID
    ensures CardFromEntry(t, "DEFEND+") == Some(Card(CardIdFromName(t, "DEFEND_RED"), true))
    ensures CardFromEntry(t, "DEFEND") == Some(Card(CardIdFromName(t, "DEFEND_RED"), false))
  {
    assert "DEFEND+" == "DEFEND" + "+";
    UpgradeSuffix(t, "DEFEND");
  }

  /** The deck of a concatenation is the concatenation of the decks: entries are handled independently and in order. */
  lemma {:induction false} DeckOfConcat(t: Tables, a: seq<string>, b: seq<string>)
    ensures DeckFromEntries(t, a + b) == DeckFromEntries(t, a) + DeckFromEntries(t, b)
  {
    if b == [] {
      assert a + b == a;
    } else {
      assert (a + b)[..|a + b| - 1] == a + b[..|b| - 1];
      DeckOfConcat(t, a, b[..|b| - 1]);
    }
  }

  /** Every card in the built deck is a valid card named by some entry; there are
      never more cards than entries, and entries that name no card add nothing. */
  lemma {:induction false} DeckCardsComeFromEntries(t: Tables, entries: seq<string>)
    ensures |DeckFromEntries(t, entries)| <= |entries|
    ensures forall c :: c in DeckFromEntries(t, entries) ==>
      c.id != CardId.INVALID && exists e :: e in entries && CardFromEntry(t, e) == Some(c)
    ensures (forall e :: e in entries ==> CardFromEntry(t, e).None?) ==> DeckFromEntries(t, entries) == []
  {
    if entries != [] {
      var init := entries[..|entries| - 1];
      DeckCardsComeFromEntries(t, init);
      forall e | e in init ensures e in entries {
        var k :| 0 <= k < |init| && init[k] == e;
        assert entries[k] == e;
      }
    }
  }

  // ---------------------------------------------------------------------
  // Relics

  /** The relics after the scenario's relic list: each known name is appended with counter 0. */
  function AddScenarioRelics(t: Tables, relics: seq<RelicInstance>, names: seq<string>): seq<RelicInstance>
  {
    if names == [] then relics
    else
      var id := RelicIdFromName(t, names[|names| - 1]);
      var before := AddScenarioRelics(t, relics, names[..|names| - 1]);
      if id != RelicId.INVALID then before + [RelicInstance(id, 0)] else before
  }

  /** One counter override: it applies only to a valid relic already held, and only to its first instance. */
  function ApplyCounter(t: Tables, relics: seq<RelicInstance>, entry: (string, int)): seq<RelicInstance>
  {
    var id := RelicIdFromName(t, entry.0);
    if id != RelicId.INVALID && HasRelic(relics, id) then SetRelicValue(relics, id, entry.1) else relics
  }

  function ApplyCounters(t: Tables, relics: seq<RelicInstance>, counters: seq<(string, int)>): seq<RelicInstance>
  {
    if counters == [] then relics
    else ApplyCounter(t, ApplyCounters(t, relics, counters[..|counters| - 1]), counters[|counters| - 1])
  }

  function ScenarioRelics(t: Tables, relics: seq<RelicInstance>, init: InitialState): seq<RelicInstance>
  {
    var added := if init.relics.Some? then AddScenarioRelics(t, relics, init.relics.value) else relics;
    if init.relicCounters.Some? then ApplyCounters(t, added, init.relicCounters.value) else added
  }

  /** The held relics stay in front; every added relic is valid and starts at 0; unknown names add nothing. */
  lemma {:induction false} AddedRelicsStartAtZero(t: Tables, relics: seq<RelicInstance>, names: seq<string>)
    ensures var r := AddScenarioRelics(t, relics, names);
      && |relics| <= |r| <= |relics| + |names|
      && r[..|relics|] == relics
      && (forall i :: |relics| <= i < |r| ==> r[i].data == 0 && r[i].id != RelicId.INVALID)
      && ((forall n :: n in names ==> RelicIdFromName(t, n) == RelicId.INVALID) ==> r == relics)
  {
    if names != [] {
      var init := names[..|names| - 1];
      AddedRelicsStartAtZero(t, relics, init);
      forall n | n in init ensures n in names {
        var k :| 0 <= k < |init| && init[k] == n;
        assert names[k] == n;
      }
    }
  }

  /** An override of a held, valid relic sets the first instance's counter and touches nothing else;
      any other override changes nothing. */
  lemma CounterOverride(t: Tables, relics: seq<RelicInstance>, entry: (string, int))
    ensures var id := RelicIdFromName(t, entry.0);
      var r := ApplyCounter(t, relics, entry);
      && |r| == |relics|
      && (forall i :: 0 <= i < |r| ==> r[i].id == relics[i].id)
      && (id == RelicId.INVALID || !HasRelic(relics, id) ==> r == relics)
      && (id != RelicId.INVALID && HasRelic(relics, id) ==>
            var k := FirstRelicIndex(relics, id);
            && r[k] == RelicInstance(id, entry.1)
            && forall i :: 0 <= i < |r| && i != k ==> r[i] == relics[i])
  {
  }

  /** Overrides never add, remove or reorder relics. */
  lemma {:induction false} CountersKeepRelicIds(t: Tables, relics: seq<RelicInstance>, counters: seq<(string, int)>)
    ensures |ApplyCounters(t, relics, counters)| == |relics|
    ensures forall i :: 0 <= i < |relics| ==> ApplyCounters(t, relics, counters)[i].id == relics[i].id
  {
    if counters != [] {
      CountersKeepRelicIds(t, relics, counters[..|counters| - 1]);
      CounterOverride(t, ApplyCounters(t, relics, counters[..|counters| - 1]), counters[|counters| - 1]);
    }
  }

  // ---------------------------------------------------------------------
  // Snapshot text of a relic

  /** The seven relics whose counter the snapshot shows. */
  predicate HasSnapshotCounter(id: RelicId)
  {
    id in {HAPPY_FLOWER, INCENSE_BURNER, INK_BOTTLE, INSERTER, NUNCHAKU, PEN_NIB, SUNDIAL}
  }

  /** The counter formatRelicsForSnapshot reads for a relic; `counterOf` is the player's counter field for it. */
  function SnapshotCounter(id: RelicId, counterOf: RelicId -> int): int
  {
    if HasSnapshotCounter(id) then counterOf(id) else 0
  }

  function RelicSnapshotText(name: string, id: RelicId, counterOf: RelicId -> int): string
  {
    var counter := SnapshotCounter(id, counterOf);
    name + (if counter > 0 then "(" + IntToDecimal(counter) + ")" else "")
  }

  /** A "(n)" suffix appears exactly for the seven relics with a positive counter, and it shows that counter. */
  lemma CounterSuffix(name: string, id: RelicId, counterOf: RelicId -> int)
    ensures RelicSnapshotText(name, id, counterOf) != name <==> HasSnapshotCounter(id) && counterOf(id) > 0
    ensures HasSnapshotCounter(id) && counterOf(id) > 0 ==>
      RelicSnapshotText(name, id, counterOf) == name + "(" + NatToDecimal(counterOf(id)) + ")"
  {
    if RelicSnapshotText(name, id, counterOf) != name {
      assert |RelicSnapshotText(name, id, counterOf)| > |name|;
    }
  }

  // ---------------------------------------------------------------------
  // Card kinds used by the snapshot text

  predicate IsAttackCard(id: CardId)
  {
    id == STRIKE_RED || id == BASH || id == STRIKE_GREEN || id == STRIKE_BLUE || id == STRIKE_PURPLE
  }

  predicate IsDefendCard(id: CardId)
  {
    id == DEFEND_RED || id == DEFEND_GREEN || id == DEFEND_BLUE || id == DEFEND_PURPLE
  }

  /** No card is both; the attack cards are exactly the four Strikes and Bash, the defend cards the four Defends. */
  lemma CardKinds(id: CardId)
    ensures !(IsAttackCard(id) && IsDefendCard(id))
    ensures IsAttackCard(id) <==> id in {STRIKE_RED, STRIKE_GREEN, STRIKE_BLUE, STRIKE_PURPLE, BASH}
    ensures IsDefendCard(id) <==> id in {DEFEND_RED, DEFEND_GREEN, DEFEND_BLUE, DEFEND_PURPLE}
  {
  }

  // ---------------------------------------------------------------------
  // Building the context

  /** The encounter after the lookup: set when the name is in the table, otherwise left as it was. */
  function EncounterFor(t: Tables, name: string, current: MonsterEncounter): MonsterEncounter
  {
    var i := NameIndex(t.encounterNames, name);
    if i < |t.encounterNames| then t.encounterOf(i) else current
  }

  lemma UnknownEncounterKeepsCurrent(t: Tables, name: string, current: MonsterEncounter)
    ensures name !in t.encounterNames ==> EncounterFor(t, name, current) == current
    ensures name in t.encounterNames ==> EncounterFor(t, name, current) == t.encounterOf(NameIndex(t.encounterNames, name))
  {
    if name in t.encounterNames {
      var k :| 0 <= k < |t.encounterNames| && t.encounterNames[k] == name;
      assert NameIndex(t.encounterNames, name) <= k;
    }
  }

  /** processRelicsFromScenario: append the known relics with counter 0, then apply the counter overrides. */
  method ProcessRelicsFromScenario(gc: GameContext, t: Tables, init: InitialState)
    requires gc.Valid()
    modifies gc
    ensures gc.Valid()
    ensures gc.relics == ScenarioRelics(t, old(gc.relics), init)
    ensures gc.State() == old(gc.State()).(relics := gc.relics)
  {
    if init.relics.Some? {
      AddRelicsFromScenario(gc, t, init.relics.value);
    }
    if init.relicCounters.Some? {
      ApplyRelicCounters(gc, t, init.relicCounters.value);
    }
  }

  /** The `relics` list: each known name is appended with counter 0. */
  method AddRelicsFromScenario(gc: GameContext, t: Tables, names: seq<string>)
    requires gc.Valid()
    modifies gc
    ensures gc.Valid()
    ensures gc.relics == AddScenarioRelics(t, old(gc.relics), names)
    ensures gc.State() == old(gc.State()).(relics := gc.relics)
  {
    var k := 0;
    while k < |names|
      invariant k <= |names|
      invariant gc.Valid()
      invariant gc.relics == AddScenarioRelics(t, old(gc.relics), names[..k])
      invariant gc.State() == old(gc.State()).(relics := gc.relics)
    {
      assert names[..k + 1][..k] == names[..k];
      var id := GetRelicIdFromName(t, names[k]);
      if id != RelicId.INVALID {
        gc.relics := gc.relics + [RelicInstance(id, 0)];
      }
      k := k + 1;
    }
    assert names[..k] == names;
  }

  /** The `relic_counters` entries, in order: each overrides the counter of a held, valid relic. */
  method ApplyRelicCounters(gc: GameContext, t: Tables, counters: seq<(string, int)>)
    requires gc.Valid()
    modifies gc
    ensures gc.Valid()
    ensures gc.relics == ApplyCounters(t, old(gc.relics), counters)
    ensures gc.State() == old(gc.State()).(relics := gc.relics)
  {
    var k := 0;
    while k < |counters|
      invariant k <= |counters|
      invariant gc.Valid()
      invariant gc.relics == ApplyCounters(t, old(gc.relics), counters[..k])
      invariant gc.State() == old(gc.State()).(relics := gc.relics)
    {
      assert counters[..k + 1][..k] == counters[..k];
      var id := GetRelicIdFromName(t, counters[k].0);
      if id != RelicId.INVALID && HasRelic(gc.relics, id) {
        SetFirstCounter(gc, id, counters[k].1);
      }
      k := k + 1;
    }
    assert counters[..k] == counters;
  }

  /** The loop that overwrites the counter of the first instance of a held relic and stops. */
  method SetFirstCounter(gc: GameContext, id: RelicId, counter: int)
    requires gc.Valid() && HasRelic(gc.relics, id)
    modifies gc
    ensures gc.Valid()
    ensures gc.relics == SetRelicValue(old(gc.relics), id, counter)
    ensures gc.State() == old(gc.State()).(relics := gc.relics)
  {
    var j := 0;
    while j < |gc.relics|
      invariant j <= |gc.relics|
      invariant gc.relics == old(gc.relics)
      invariant forall i :: 0 <= i < j ==> gc.relics[i].id != id
    {
      if gc.relics[j].id == id {
        assert FirstRelicIndex(gc.relics, id) == j by {
          FirstRelicIndexIsFirst(gc.relics, id, j);
        }
        gc.relics := gc.relics[j := gc.relics[j].(data := counter)];
        return;
      }
      j := j + 1;
    }
    assert false;
  }

  lemma {:induction false} FirstRelicIndexIsFirst(relics: seq<RelicInstance>, id: RelicId, j: nat)
    requires j < |relics| && relics[j].id == id
    requires forall i :: 0 <= i < j ==> relics[i].id != id
    ensures HasRelic(relics, id) && FirstRelicIndex(relics, id) == j
  {
  }

  /** One deck entry: a trailing '+' marks the card upgraded and is removed,
      then the legacy names are mapped and the name is looked up. */
  method ReadDeckEntry(t: Tables, entry: string) returns (card: Option<Card>)
    ensures card == CardFromEntry(t, entry)
  {
    var name := entry;
    var upgraded := false;
    if |name| > 0 && name[|name| - 1] == '+' {
      upgraded := true;
      name := name[..|name| - 1];
    }
    if name == "STRIKE" {
      name := "STRIKE_RED";
    } else if name == "DEFEND" {
      name := "DEFEND_RED";
    }
    var id := GetCardIdFromName(t, name);
    card := if id == CardId.INVALID then None else Some(Card(id, upgraded));
  }

  /** The deck loop: the deck is cleared, then each entry that names a card
      appends it, upgraded when the entry ended in '+'. */
  method BuildDeck(t: Tables, entries: seq<string>) returns (deck: seq<Card>)
    ensures deck == DeckFromEntries(t, entries)
  {
    deck := [];
    var k := 0;
    while k < |entries|
      invariant k <= |entries|
      invariant deck == DeckFromEntries(t, entries[..k])
    {
      assert entries[..k + 1][..k] == entries[..k];
      var card := ReadDeckEntry(t, entries[k]);
      if card.Some? {
        deck := deck + [card.value];
      }
      k := k + 1;
    }
    assert entries[..k] == entries;
  }

  /** The part both createGameContextFromScenario overloads share after the
      context exists: HP, encounter, deck and relics from the scenario. */
  method LoadInitialState(gc: GameContext, t: Tables, init: InitialState)
    requires gc.Valid()
    modifies gc
    ensures gc.Valid()
    ensures gc.curHp == init.playerHp && gc.maxHp == init.playerMaxHp
    ensures gc.encounter == EncounterFor(t, init.encounter, old(gc.encounter))
    ensures gc.deck == DeckFromEntries(t, init.deck)
    ensures gc.relics == ScenarioRelics(t, old(gc.relics), init)
    ensures gc.State() == old(gc.State()).(curHp := gc.curHp, maxHp := gc.maxHp, encounter := gc.encounter,
                                           deck := gc.deck, relics := gc.relics)
  {
    var index := FindName(t.encounterNames, init.encounter);
    var encounter := if index < |t.encounterNames| then t.encounterOf(index) else gc.encounter;
    var deck := BuildDeck(t, init.deck);

    SetPlayerAndDeck(gc, init.playerHp, init.playerMaxHp, encounter, deck);
    ProcessRelicsFromScenario(gc, t, init);
  }

  method SetPlayerAndDeck(gc: GameContext, curHp: int, maxHp: int, encounter: MonsterEncounter, deck: seq<Card>)
    requires gc.Valid()
    modifies gc
    ensures gc.Valid()
    ensures gc.State() == old(gc.State()).(curHp := curHp, maxHp := maxHp, encounter := encounter, deck := deck)
  {
    gc.curHp := curHp;
    gc.maxHp := maxHp;
    gc.encounter := encounter;
    gc.deck := deck;
  }

  /** createGameContextFromScenario(scenario): an Ironclad run with the
      scenario's seed and ascension, then its initial state. */
  method CreateGameContextFromScenario(t: Tables, scenario: Scenario) returns (gc: GameContext)
    requires 0 <= scenario.seed < UINT64_MODULUS
    ensures fresh(gc) && gc.Valid()
    ensures gc.cc == IRONCLAD && gc.seed == scenario.seed && gc.ascension == scenario.ascension
    ensures gc.floorNum == 0 && gc.gold == DEFAULT_GOLD && gc.outcome == UNDECIDED
    ensures gc.curHp == scenario.initialState.playerHp && gc.maxHp == scenario.initialState.playerMaxHp
    ensures scenario.initialState.encounter in t.encounterNames ==>
      gc.encounter == t.encounterOf(NameIndex(t.encounterNames, scenario.initialState.encounter))
    ensures gc.deck == DeckFromEntries(t, scenario.initialState.deck)
    ensures gc.relics == ScenarioRelics(t, [], scenario.initialState)
    ensures gc.potionCount == 0 && gc.potionCapacity == PotionCapacityFor(scenario.ascension)
  {
    gc := new GameContext(IRONCLAD, scenario.seed, scenario.ascension);
    LoadInitialState(gc, t, scenario.initialState);
    UnknownEncounterKeepsCurrent(t, scenario.initialState.encounter, gc.encounter);
  }

  /** createGameContextFromScenario(scenario, seed): the same, with the given
      seed, and the floor number also taken from the scenario. */
  method CreateGameContextFromScenarioWithSeed(t: Tables, scenario: Scenario, seed: int) returns (gc: GameContext)
    requires 0 <= seed < UINT64_MODULUS
    ensures fresh(gc) && gc.Valid()
    ensures gc.cc == IRONCLAD && gc.seed == seed && gc.ascension == scenario.ascension
    ensures gc.floorNum == scenario.floor && gc.gold == DEFAULT_GOLD && gc.outcome == UNDECIDED
    ensures gc.curHp == scenario.initialState.playerHp && gc.maxHp == scenario.initialState.playerMaxHp
    ensures scenario.initialState.encounter in t.encounterNames ==>
      gc.encounter == t.encounterOf(NameIndex(t.encounterNames, scenario.initialState.encounter))
    ensures gc.deck == DeckFromEntries(t, scenario.initialState.deck)
    ensures gc.relics == ScenarioRelics(t, [], scenario.initialState)
    ensures gc.potionCount == 0 && gc.potionCapacity == PotionCapacityFor(scenario.ascension)
  {
    gc := new GameContext(IRONCLAD, seed, scenario.ascension);
    gc.floorNum := scenario.floor;
    LoadInitialState(gc, t, scenario.initialState);
    UnknownEncounterKeepsCurrent(t, scenario.initialState.encounter, gc.encounter);
  }
}
