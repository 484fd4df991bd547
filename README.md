# sts-ai run state, scenarios and snapshot loop in Dafny

This project models the parts of the sts-ai simulator that deal with a run's
persistent state and with loading and replaying test scenarios:

- **The run context** (`battle/GameContext2.h`, `battle/GameContext2.cpp`):
  HP, max HP, gold, the five potion slots with their usable capacity and
  count, held relics with their counters, the deck, the outcome, and one
  random stream per concern. `GameRules` states every operation as a pure
  function from the old `RunState` to the new one. The class
  `GameContext2.GameContext` keeps the same fields, the potion slots as an
  `array`. Its methods change them in place and are proved to agree with the
  pure functions. They also keep the inventory invariant `Valid()`: five
  slots, a capacity of at most five, nothing stored at or beyond the
  capacity, and a count equal to the number of occupied usable slots.
  `GameRulesProperties` proves what each operation promises about the pure
  functions.
- **The encounter name table** (`battle/FightDefinition.cpp`): the 21-name
  bijection, its parser, its printer and `FightDefinition::fromJson` over an
  abstract JSON value.
- **Scenario loading** (`include/utils/scenarios.h`):
  - name-to-id linear searches;
  - deck entries: a trailing `+` upgrades, `STRIKE`/`DEFEND` are legacy names
    resolved after the `+` is removed, and unknown names are dropped;
  - the encounter lookup that leaves the field untouched for an unknown name;
  - relics added with counter 0, then counter overrides applied to the first
    held instance;
  - both `createGameContextFromScenario` overloads;
  - the counter suffix of a relic in a snapshot.
- **The combat snapshot generator** (`tests/utils/snapshot_generator.cpp`):
  - `std::stoi`;
  - `parseAction`, as written;
  - the generator's own, narrower scenario loader;
  - the loop of `executeActionSequence`. The turn number starts at 1 and goes
    up after each executed `end_turn`. Unknown and invalid actions are
    skipped. The loop stops after the first step that leaves the battle
    decided. The battle's validation, execution and outcome are parameters.

Two behaviours of the code as written are modelled as they are:

- **Fairy potion with Sacred Bark.** `hasBark ? 0.6f : 0.3f * maxHp` parses
  as `hasBark ? 0.6f : (0.3f * maxHp)`, so a revive with SACRED_BARK leaves
  1 HP.
- **Potion actions.** The `use_potion_` branch of `parseAction` compares a
  13-character prefix with an 11-character literal. It therefore matches only
  the exact string `use_potion_`, and then `substr(13)` throws and the error
  is caught. No string ever parses to a potion action
  (`SnapshotGenerator.ParseNeverUsesPotion`).

Random draws, shuffles and the random-potion generator are parameters. Each
stream is a seed plus a draw counter, so the model records which stream an
operation draws from and how often. The enum headers and the name tables
(`cardEnumStrings`, `relicEnumNames`, `monsterEncounterEnumNames`) are not
part of this model. Each enum is a datatype with the values the code names
plus a catch-all carrying the ordinal, and each table is a parameter
(`Scenarios.Tables`).

## Model

| member | source | states |
|---|---|---|
| Characters.ClassColor | battle/GameContext2.cpp:165-166 | a class's own colour is never COLORLESS or CURSE, so the class-pool branch is distinct from those two |
| GameRules.MathUtilSeed | battle/GameContext2.cpp:42 | the math-utility stream's seed is the run seed minus 897897, wrapping below zero as unsigned 64-bit arithmetic does, and always a valid uint64 |
| GameRules.IsCampfireRelic | battle/GameContext2.cpp:21-23 | true exactly for PEACE_PIPE, SHOVEL and GIRYA (GameRulesProperties.CampfireRelicsAreThree) |
| GameRules.SelectScreenCardOf | battle/GameContext2.h:58-65 | a select-screen card built without a deck index has deckIdx -1 |
| GameRules.SelectScreenCardAt | battle/GameContext2.cpp:27 | the deck index is stored in a 16-bit field: unchanged when it fits, wrapped into [-32768, 32768) otherwise |
| GameRules.FirstRelicIndex | battle/GameContext2.cpp:224 | the instance a relic lookup reads is the first one with that id |
| GameRules.SetRelicValue | battle/GameContext2.cpp:224-226 | writing a relic's counter changes only the first instance of that relic, keeps every id and the length, and reading the counter back gives the new value |
| GameRules.CountBounds | battle/GameContext2.h:179-181 | the number of occupied slots is at most the number of slots; it equals it exactly when all are occupied, and is 0 exactly when all are empty |
| GameRules.SlotUpdateConsistent | battle/GameContext2.cpp:83-88 | writing a usable slot keeps the inventory invariant when the count moves by the change in occupancy |
| GameRules.FirstEmptySlot | battle/GameContext2.cpp:83-89 | the slot found is the lowest empty one below the capacity; none is found only when all usable slots are occupied |
| GameRules.FirstIndexOf | battle/GameContext2.cpp:215 | std::find: the first slot holding the potion, or none when no slot holds it |
| GameRules.OccupiedIndices | battle/GameContext2.cpp:198-203 | the indices collected are exactly the occupied usable slots, increasing, as many as the count |
| GameRules.FirstOfRarity | battle/GameContext2.cpp:185-190 | the first card of the rarity in the pool, with none of that rarity before it; SWIFT_STRIKE when the pool has none |
| GameRules.Brewed | battle/GameContext2.cpp:268-273 | Entropic Brew's loop never replaces a held potion and never touches a slot at or beyond the capacity |
| GameRules.BrewedFills | battle/GameContext2.cpp:268-273 | after the loop every usable slot is occupied, given a generator that never yields the empty-slot value |
| GameRules.BrewConsistent | battle/GameContext2.cpp:266-275 | setting the count to the capacity after the brew keeps the inventory invariant |
| GameRules.PlayerHeal | battle/GameContext2.cpp:236-241 | characterised by GameRulesProperties.HealIsCappedAtMaxHp: blocked by MARK_OF_THE_BLOOM, otherwise HP rises by the amount up to max HP |
| GameRules.PlayerIncreaseMaxHp | battle/GameContext2.cpp:243-246 | characterised by GameRulesProperties.IncreaseMaxHpHealsSameAmount: max HP rises by the amount, then HP is healed by the same amount |
| GameRules.LoseGold | battle/GameContext2.cpp:248-253 | characterised by GameRulesProperties.LoseGoldNeverNegative: gold never goes below 0, and a held Maw Bank is spent in a shop |
| GameRules.LoseMaxHp | battle/GameContext2.cpp:255-258 | characterised by GameRulesProperties.LoseMaxHpClampsHp: max HP drops by the amount and HP is clamped to it |
| GameRules.ObtainGold | battle/GameContext2.cpp:67-76 | characterised by GameRulesProperties.EctoplasmBlocksGold and ObtainGoldAddsAmount |
| GameRules.ObtainPotion | battle/GameContext2.cpp:78-95 | characterised by GameRulesProperties.ObtainPotionNoOp, ObtainPotionFillsLowestEmptySlot and ObtainPotionConsistent |
| GameRules.RelicsOnEnterRoom | battle/GameContext2.cpp:97-118 | characterised by GameRulesProperties.EnterRoomGold and EternalFeatherHeal |
| GameRules.RareChance | battle/GameContext2.cpp:127-132 | the rare chance, 10 in an elite room and 3 elsewhere, tripled by N'loth's Gift outside a rest site (GameRulesProperties.RarityBands) |
| GameRules.UncommonChance | battle/GameContext2.cpp:128 | the uncommon chance, 40 in an elite room and 37 elsewhere (GameRulesProperties.RarityBands) |
| GameRules.CardRarityFor | battle/GameContext2.cpp:123-142 | characterised by GameRulesProperties.RarityBands, RarityMonotoneInRoll and NlothNeverLowersRarity: RARE in a boss room, otherwise three bands of the roll |
| GameRules.RollCardRarity | battle/GameContext2.cpp:120-143 | characterised by GameRulesProperties.RollDrawsOnceEvenForBoss and RarityBands: one cardRng draw, then CardRarityFor of draw plus the rarity factor |
| GameRules.PickAvoiding | battle/GameContext2.cpp:149-154 | characterised by GameRulesProperties.PickAvoidingSkipsExclude: the drawn pool card, or the next one when the drawn one is excluded |
| GameRules.TrulyRandomCardFromAvailable | battle/GameContext2.cpp:145-180 | characterised by GameRulesProperties.TrulyRandomCardAvoidsExclude: a colourless or in-class non-basic excluded card is skipped over, a curse comes from the curse generator, anything else is a plain pick |
| GameRules.ReturnColorlessCard | battle/GameContext2.cpp:182-191 | characterised by GameRulesProperties.ColorlessCardIsFirstOfRarity |
| GameRules.RandomPlayerPotionIdx | battle/GameContext2.cpp:193-206 | characterised by GameRulesProperties.RandomPotionIdxIsOccupied and EveryOccupiedSlotCanBeChosen |
| GameRules.FairyReviveHp | battle/GameContext2.cpp:219 | at least 1; exactly 1 with SACRED_BARK (the precedence as written); otherwise 30% of max HP rounded down, or 1 when that is 0 |
| GameRules.PlayerOnDie | battle/GameContext2.cpp:208-233 | characterised by GameRulesProperties.MarkOfTheBloomLosesAtOnce, FairyPotionRevives, LizardTailRevives, DeathWithoutRescueLoses, PlayerOnDieConsistent and RevivalLeavesPositiveHp |
| GameRules.DiscardPotionAtIdx | battle/GameContext2.cpp:302-309 | characterised by GameRulesProperties.DiscardEmptiesSlot |
| GameRules.BloodPotionHeal | battle/GameContext2.cpp:262-264 | for a non-negative max HP, 20% of it (40% with SACRED_BARK) rounded down |
| GameRules.DrinkPotion | battle/GameContext2.cpp:260-290 | characterised by GameRulesProperties.DrinkFruitJuice and DrinkEntropicBrew, and by HealIsCappedAtMaxHp for BLOOD_POTION's heal |
| GameRules.DrinkPotionAtIdx | battle/GameContext2.cpp:292-300 | characterised by GameRulesProperties.DrinkPotionAtIdxConsistent, DrinkFruitJuice and DrinkEntropicBrew |
| GameContext2.FindFirstOfRarity | battle/GameContext2.cpp:185-190 | the scan over the shuffled colourless pool returns FirstOfRarity |
| GameContext2.BrewSlots | battle/GameContext2.cpp:268-273 | the in-place loop over the potion array leaves the slots and the potion stream as Brewed describes |
| GameContext2.GameContext.constructor | battle/GameContext2.cpp:29-47 | every stream is seeded with the seed (the math one with MathUtilSeed); outcome UNDECIDED, HP and max HP 80, gold 99, act 1, floor 0, rarity factor 5 (defaults of GameContext2.h:160-181); five empty slots, count 0, capacity 3 below ascension 11 and 2 from it on; the invariant holds |
| GameContext2.GameContext.PlayerHeal | battle/GameContext2.cpp:236-241 | the new state is GameRules.PlayerHeal of the old one and the invariant is kept |
| GameContext2.GameContext.PlayerIncreaseMaxHp | battle/GameContext2.cpp:243-246 | the new state is GameRules.PlayerIncreaseMaxHp of the old one |
| GameContext2.GameContext.LoseGold | battle/GameContext2.cpp:248-253 | the new state is GameRules.LoseGold of the old one |
| GameContext2.GameContext.LoseMaxHp | battle/GameContext2.cpp:255-258 | the new state is GameRules.LoseMaxHp of the old one |
| GameContext2.GameContext.ObtainGold | battle/GameContext2.cpp:67-76 | the new state is GameRules.ObtainGold of the old one |
| GameContext2.GameContext.ObtainPotion | battle/GameContext2.cpp:78-95 | the slot loop leaves the state GameRules.ObtainPotion describes and keeps the invariant |
| GameContext2.GameContext.RelicsOnEnterRoom | battle/GameContext2.cpp:97-118 | the new state is GameRules.RelicsOnEnterRoom of the old one |
| GameContext2.GameContext.RollCardRarity | battle/GameContext2.cpp:120-143 | rarity and new state are GameRules.RollCardRarity: one cardRng draw, then the thresholds |
| GameContext2.GameContext.ReturnColorlessCard | battle/GameContext2.cpp:182-191 | the pool becomes the given permutation of itself, one shuffleRng draw is taken, and the card is the first of the rarity |
| GameContext2.GameContext.GetRandomPlayerPotionIdx | battle/GameContext2.cpp:193-206 | the collecting loop and the pick agree with GameRules.RandomPlayerPotionIdx |
| GameContext2.GameContext.FindPotion | battle/GameContext2.cpp:215 | the search over all five slots returns FirstIndexOf |
| GameContext2.GameContext.UseFairyPotion | battle/GameContext2.cpp:216-220 | the Fairy slot is emptied, the count drops by one, HP becomes FairyReviveHp, and the invariant is kept |
| GameContext2.GameContext.LizardTailOrLoss | battle/GameContext2.cpp:223-232 | a charged Lizard Tail is set to 0 and HP becomes max(1, maxHp/2); otherwise the outcome becomes PLAYER_LOSS |
| GameContext2.GameContext.PlayerOnDie | battle/GameContext2.cpp:208-233 | the new state is GameRules.PlayerOnDie of the old one and the invariant is kept |
| GameContext2.GameContext.DiscardPotionAtIdx | battle/GameContext2.cpp:302-309 | given an occupied slot, as the source asserts: the slot is emptied, the count drops by one, and the invariant is kept |
| GameContext2.GameContext.Brew | battle/GameContext2.cpp:266-276 | the new state is GameRules.DrinkPotion for ENTROPIC_BREW and the invariant is kept |
| GameContext2.GameContext.DrinkPotion | battle/GameContext2.cpp:260-290 | the new state is GameRules.DrinkPotion of the old one |
| GameContext2.GameContext.DrinkPotionAtIdx | battle/GameContext2.cpp:292-300 | the slot is discarded before the potion's effect: the new state is GameRules.DrinkPotionAtIdx |
| GameRulesProperties.PotionCapacityByAscension | battle/GameContext2.cpp:46 | the capacity is 3 exactly below ascension 11 and 2 exactly from it on, never above the five slots |
| GameRulesProperties.CampfireRelicsAreThree | battle/GameContext2.cpp:21-23 | exactly PEACE_PIPE, SHOVEL and GIRYA are campfire relics |
| GameRulesProperties.HealIsCappedAtMaxHp | battle/GameContext2.cpp:236-241 | MARK_OF_THE_BLOOM blocks healing; otherwise only HP changes, it never exceeds max HP, and an uncapped heal adds exactly the amount |
| GameRulesProperties.IncreaseMaxHpHealsSameAmount | battle/GameContext2.cpp:243-246 | max HP always rises by the amount; unless MARK_OF_THE_BLOOM blocks it, HP becomes min(HP + amount, new max HP), which is HP + amount whenever HP did not exceed max HP |
| GameRulesProperties.LoseMaxHpClampsHp | battle/GameContext2.cpp:255-258 | max HP drops by the amount, HP is clamped to it and otherwise kept, and nothing else changes |
| GameRulesProperties.EctoplasmBlocksGold | battle/GameContext2.cpp:67-70 | with ECTOPLASM gaining gold changes nothing |
| GameRulesProperties.ObtainGoldAddsAmount | battle/GameContext2.cpp:72-75 | without ECTOPLASM gold rises by exactly the amount; only BLOODY_IDOL also heals, by 5 through playerHeal |
| GameRulesProperties.LoseGoldNeverNegative | battle/GameContext2.cpp:248-253 | gold becomes max(0, gold - amount); in a shop a held Maw Bank's counter becomes 0; nothing else changes |
| GameRulesProperties.EnterRoomGold | battle/GameContext2.cpp:97-118 | entering a room gains gold only through obtainGold: nothing with ECTOPLASM, otherwise 12 from a charged Maw Bank plus 50 from Ssserpent Head in an event |
| GameRulesProperties.EternalFeatherHeal | battle/GameContext2.cpp:97-106 | at a rest site the Eternal Feather heals 3 per full five deck cards, capped at max HP, on top of whatever a charged Maw Bank's 12 gold healed first (through Bloody Idol) |
| GameRulesProperties.ObtainPotionNoOp | battle/GameContext2.cpp:79-81 | with SOZU or a full inventory obtaining a potion changes nothing |
| GameRulesProperties.ObtainPotionFillsLowestEmptySlot | battle/GameContext2.cpp:83-88 | otherwise the potion goes into the lowest empty usable slot, the count rises by one, and nothing else changes |
| GameRulesProperties.ObtainPotionConsistent | battle/GameContext2.cpp:78-95 | obtaining a potion keeps the inventory invariant |
| GameRulesProperties.DiscardEmptiesSlot | battle/GameContext2.cpp:302-309 | discarding empties exactly that slot, lowers the count by one, and keeps the invariant |
| GameRulesProperties.DrinkPotionAtIdxConsistent | battle/GameContext2.cpp:292-300 | drinking any potion from an occupied slot keeps the inventory invariant |
| GameRulesProperties.DrinkFruitJuice | battle/GameContext2.cpp:278-280 | Fruit Juice empties its slot, lowers the count by one, and raises max HP by 10 with SACRED_BARK, else by 5 |
| GameRulesProperties.DrinkEntropicBrew | battle/GameContext2.cpp:266-276 | after Entropic Brew every usable slot is occupied, its own included; the count is the capacity; held potions stay in place; only the potion stream moves |
| GameRulesProperties.RandomPotionIdxIsOccupied | battle/GameContext2.cpp:193-206 | -1 exactly when the count is not positive (no draw then); otherwise an occupied usable slot, for one miscRng draw and no other |
| GameRulesProperties.EveryOccupiedSlotCanBeChosen | battle/GameContext2.cpp:198-205 | every occupied usable slot is the result for some shuffle |
| GameRulesProperties.RollDrawsOnceEvenForBoss | battle/GameContext2.cpp:121-125 | one cardRng draw is taken even in a boss room, where the card is RARE; no other state changes |
| GameRulesProperties.RarityBands | battle/GameContext2.cpp:127-142 | outside a boss room, RARE, UNCOMMON and COMMON correspond exactly to the three bands of draw plus rarity factor; the rare chance is 10 or 3, tripled by N'loth's Gift outside a rest site, and the uncommon chance is 40 or 37 |
| GameRulesProperties.RarityMonotoneInRoll | battle/GameContext2.cpp:134-142 | a lower roll never gives a less rare card |
| GameRulesProperties.NlothNeverLowersRarity | battle/GameContext2.cpp:130-132 | N'loth's Gift never makes a card less rare |
| GameRulesProperties.PickAvoidingSkipsExclude | battle/GameContext2.cpp:149-154 | the pool-index skip picks from the pool and returns the excluded card only if it fills both the drawn place and the next |
| GameRulesProperties.TrulyRandomCardAvoidsExclude | battle/GameContext2.cpp:145-180 | for a colourless or in-class non-basic excluded card that never sits next to itself in its pool, the card returned is never the excluded one |
| GameRulesProperties.ClassColorIsNotColorless | battle/GameContext2.cpp:165-166 | no class's colour is COLORLESS or CURSE |
| GameRulesProperties.ColorlessCardIsFirstOfRarity | battle/GameContext2.cpp:182-191 | the card is SWIFT_STRIKE or a pool card of the rarity, always the latter when one exists; the pool becomes the shuffle; only shuffleRng moves |
| GameRulesProperties.MarkOfTheBloomLosesAtOnce | battle/GameContext2.cpp:209-212 | with MARK_OF_THE_BLOOM death loses the run at once, with no Fairy potion used |
| GameRulesProperties.FairyPotionRevives | battle/GameContext2.cpp:214-220 | otherwise the first Fairy potion's slot is emptied, the count drops by one, the invariant is kept, relics and outcome are untouched, and HP is 1 with SACRED_BARK or max(1, 30% of max HP) without |
| GameRulesProperties.LizardTailRevives | battle/GameContext2.cpp:223-229 | without a Fairy potion, a charged Lizard Tail is spent (counter 0), and HP becomes max(1, maxHp/2) |
| GameRulesProperties.DeathWithoutRescueLoses | battle/GameContext2.cpp:232 | with none of the three rescues the outcome becomes PLAYER_LOSS and nothing else changes |
| GameRulesProperties.PlayerOnDieConsistent | battle/GameContext2.cpp:208-233 | death handling keeps the inventory invariant |
| GameRulesProperties.RevivalLeavesPositiveHp | battle/GameContext2.cpp:219 | whenever death does not lose the run, HP is at least 1 |
| FightDefinition.ParseMonsterEncounter | battle/FightDefinition.cpp:60-67 | succeeds exactly for the 21 table names; anything else is an invalid argument carrying "Unknown monster encounter: " and the string |
| FightDefinition.MonsterEncounterToString | battle/FightDefinition.cpp:69-76 | the table's name for a listed encounter, "UNKNOWN" for any other |
| FightDefinition.NameRoundTrip | battle/FightDefinition.cpp:8-76 | every listed name parses, and printing the result gives the name back |
| FightDefinition.EncounterRoundTrip | battle/FightDefinition.cpp:34-67 | every listed encounter prints to a name that parses back to it |
| FightDefinition.ParseIsInjective | battle/FightDefinition.cpp:8-32 | two different listed names never parse to the same encounter |
| FightDefinition.UnmappedEncounterIsUnknown | battle/FightDefinition.cpp:69-76 | exactly the named encounters are in the reverse table; any other prints "UNKNOWN", which does not parse |
| FightDefinition.ParseIsCaseSensitive | battle/FightDefinition.cpp:60-66 | "CULTIST" parses, "cultist" is rejected with its message |
| FightDefinition.FromJson | battle/FightDefinition.cpp:78-89 | a missing fight_type (or a non-object) is an invalid argument; a non-string fight_type is a type error; on success the type is the parsed name and the description is the field, or "" when absent |
| Decimal.NatToDecimal | include/utils/scenarios.h:67 | a number is written as digits only, non-empty, with no leading zero |
| Decimal.IntToDecimal | include/utils/scenarios.h:67 | a negative int is written as '-' followed by the digits of its magnitude |
| Decimal.DecimalRoundTrip | tests/utils/snapshot_generator.cpp:232 | reading back the digits written for n gives n |
| Decimal.LeadingDigits | tests/utils/snapshot_generator.cpp:232 | the digits stoi reads are the longest all-digit prefix |
| Decimal.LeadingDigitsOfConcat | tests/utils/snapshot_generator.cpp:232 | digits followed by a non-digit are exactly the leading run |
| Scenarios.NameIndex | include/utils/scenarios.h:19-29 | the position of the first equal table entry, or the table size when none is equal |
| Scenarios.FindName | include/utils/scenarios.h:23-27 | the linear search loop returns NameIndex |
| Scenarios.GetCardIdFromName | include/utils/scenarios.h:19-29 | the card id of the first equal name, INVALID when none |
| Scenarios.GetRelicIdFromName | include/utils/scenarios.h:32-41 | the relic id of the first equal name, INVALID when none |
| Scenarios.CardLookup | include/utils/scenarios.h:19-29 | a name absent from the table gives INVALID; a present one gives the id at its first occurrence |
| Scenarios.RelicLookup | include/utils/scenarios.h:32-41 | a name absent from the table gives INVALID; a present one gives the id at its first occurrence |
| Scenarios.UpgradeSuffix | include/utils/scenarios.h:137-141 | exactly one trailing '+' is removed: name + "+" is looked up as name and gives the upgraded card |
| Scenarios.LegacyStrikeUpgraded | include/utils/scenarios.h:137-148 | "STRIKE+" is an upgraded STRIKE_RED and "STRIKE" a plain one, because the '+' is removed first |
| Scenarios.LegacyDefendUpgraded | include/utils/scenarios.h:137-148 | "DEFEND+" is an upgraded DEFEND_RED and "DEFEND" a plain one |
| Scenarios.CardFromEntry | include/utils/scenarios.h:134-157 | characterised by Scenarios.UpgradeSuffix, LegacyStrikeUpgraded and LegacyDefendUpgraded: strip one '+', map the legacy name, look the card up, and drop an unknown name |
| Scenarios.DeckFromEntries | include/utils/scenarios.h:131-158 | characterised by Scenarios.DeckOfConcat and DeckCardsComeFromEntries |
| Scenarios.DeckOfConcat | include/utils/scenarios.h:131-158 | entries are handled independently and in order: the deck of a concatenation is the concatenation of the decks |
| Scenarios.DeckCardsComeFromEntries | include/utils/scenarios.h:131-158 | every deck card is valid and named by an entry; never more cards than entries; entries that name no card add nothing |
| Scenarios.ReadDeckEntry | include/utils/scenarios.h:134-157 | one entry's '+' stripping, legacy renaming and lookup give CardFromEntry |
| Scenarios.BuildDeck | include/utils/scenarios.h:131-158 | the deck is cleared and rebuilt as DeckFromEntries of the entries |
| Scenarios.AddScenarioRelics | include/utils/scenarios.h:77-86 | characterised by Scenarios.AddedRelicsStartAtZero |
| Scenarios.ApplyCounters | include/utils/scenarios.h:89-102 | characterised by Scenarios.CounterOverride (one override) and CountersKeepRelicIds |
| Scenarios.ScenarioRelics | include/utils/scenarios.h:75-103 | the relic list is added first and the counters applied after, each only when present; the relics the class ends with (Scenarios.ProcessRelicsFromScenario) |
| Scenarios.AddedRelicsStartAtZero | include/utils/scenarios.h:77-86 | held relics stay in front; every added relic is valid with counter 0; unknown names add nothing |
| Scenarios.CounterOverride | include/utils/scenarios.h:89-100 | an override of a held valid relic sets only its first instance's counter; any other override changes nothing |
| Scenarios.CountersKeepRelicIds | include/utils/scenarios.h:89-102 | overrides never add, remove or reorder relics |
| Scenarios.AddRelicsFromScenario | include/utils/scenarios.h:77-86 | the relic loop appends exactly AddScenarioRelics and changes nothing else in the context |
| Scenarios.ApplyRelicCounters | include/utils/scenarios.h:89-102 | the counter loop leaves exactly ApplyCounters and changes nothing else |
| Scenarios.SetFirstCounter | include/utils/scenarios.h:94-99 | the loop with break sets the first instance's counter (SetRelicValue) and changes nothing else |
| Scenarios.ProcessRelicsFromScenario | include/utils/scenarios.h:75-103 | the relics become ScenarioRelics (each part only when present) and nothing else changes |
| Scenarios.HasSnapshotCounter | include/utils/scenarios.h:56-65 | the seven relics whose counter the snapshot reads (Scenarios.CounterSuffix) |
| Scenarios.SnapshotCounter | include/utils/scenarios.h:55-65 | the player's counter for those seven relics and 0 for any other (Scenarios.CounterSuffix) |
| Scenarios.RelicSnapshotText | include/utils/scenarios.h:52-68 | characterised by Scenarios.CounterSuffix |
| Scenarios.CounterSuffix | include/utils/scenarios.h:55-68 | a "(n)" suffix appears exactly for the seven listed relics with a positive counter, and shows that counter |
| Scenarios.IsAttackCard | include/utils/scenarios.h:261-264 | characterised by Scenarios.CardKinds; tests/utils/snapshot_generator.cpp:296-299 is the same predicate |
| Scenarios.IsDefendCard | include/utils/scenarios.h:266-269 | characterised by Scenarios.CardKinds; tests/utils/snapshot_generator.cpp:301-304 is the same predicate |
| Scenarios.CardKinds | include/utils/scenarios.h:261-269 | the attack cards are exactly the four Strikes and Bash, the defend cards exactly the four Defends, and none is both |
| Scenarios.EncounterFor | include/utils/scenarios.h:116-128 | characterised by Scenarios.UnknownEncounterKeepsCurrent |
| Scenarios.UnknownEncounterKeepsCurrent | include/utils/scenarios.h:116-128 | an unknown encounter name leaves the encounter as it was; a known one sets the enum value at its first position |
| Scenarios.SetPlayerAndDeck | include/utils/scenarios.h:112-157 | HP, max HP, encounter and deck are set and nothing else changes |
| Scenarios.LoadInitialState | include/utils/scenarios.h:111-161 | HP and max HP from the scenario, the encounter lookup, the deck rebuilt, then the relics; nothing else changes |
| Scenarios.CreateGameContextFromScenario | include/utils/scenarios.h:105-164 | an Ironclad run with the scenario's seed and ascension, default gold and floor 0, and the scenario's HP, encounter, deck and relics |
| Scenarios.CreateGameContextFromScenarioWithSeed | include/utils/scenarios.h:167-227 | the same with the given seed, and the floor number taken from the scenario |
| SnapshotGenerator.SkipSpaces | tests/utils/snapshot_generator.cpp:232 | what is left after skipping white space does not start with white space |
| SnapshotGenerator.Stoi | tests/utils/snapshot_generator.cpp:232 | any value read lies in the 32-bit int range |
| SnapshotGenerator.SignedValueOfDigits | tests/utils/snapshot_generator.cpp:232 | digits followed by a non-digit give their signed value when it fits |
| SnapshotGenerator.StoiReadsDecimal | tests/utils/snapshot_generator.cpp:232 | an int written in decimal, followed by anything not starting with a digit, reads back as that int |
| SnapshotGenerator.StoiReadsNonNegative | tests/utils/snapshot_generator.cpp:232 | the decimal digits of a non-negative int read back as it |
| SnapshotGenerator.StoiReadsNegative | tests/utils/snapshot_generator.cpp:232 | '-' and the digits of a magnitude read back as the negative int |
| SnapshotGenerator.SkipSpacesOfConcat | tests/utils/snapshot_generator.cpp:232 | skipping leading white space ignores any prefix of white space |
| SnapshotGenerator.StoiSkipsSpaces | tests/utils/snapshot_generator.cpp:232 | leading white space does not change what stoi reads |
| SnapshotGenerator.StoiRejectsOutOfRange | tests/utils/snapshot_generator.cpp:232-237 | a number above INT_MAX throws (no action) rather than wrapping |
| SnapshotGenerator.StoiNeedsADigit | tests/utils/snapshot_generator.cpp:232-237 | with no digit after the white space and sign, stoi throws |
| SnapshotGenerator.Substr | tests/utils/snapshot_generator.cpp:230 | substr(pos, len) has min(len, size - pos) characters |
| SnapshotGenerator.ParseAction | tests/utils/snapshot_generator.cpp:226-250 | characterised by SnapshotGenerator.ParseEndTurn, ParsePlayCard, ParseNeverUsesPotion and ParseAcceptsOnly |
| SnapshotGenerator.ParseEndTurn | tests/utils/snapshot_generator.cpp:227-229 | "end_turn" parses to END_TURN |
| SnapshotGenerator.ParsePlayCard | tests/utils/snapshot_generator.cpp:230-239 | "play_card_" followed by a decimal int and anything not starting with a digit plays that card index with target 0 |
| SnapshotGenerator.ParseNeverUsesPotion | tests/utils/snapshot_generator.cpp:240-247 | no string parses to a potion action |
| SnapshotGenerator.ParseAcceptsOnly | tests/utils/snapshot_generator.cpp:226-250 | END_TURN exactly for "end_turn"; any other accepted string starts with "play_card_" and its remainder reads as the card index |
| SnapshotGenerator.StepAction | tests/utils/snapshot_generator.cpp:151-175 | characterised by SnapshotGenerator.StepTurn: an unknown or invalid action is skipped with the battle untouched, and only an executed end_turn advances the turn |
| SnapshotGenerator.RunActions | tests/utils/snapshot_generator.cpp:148-182 | characterised by SnapshotGenerator.LogFollowsActions, FinalTurnCountsEndTurns, TurnCounting, RunStopsOnceDecided, RunContinues and SkippedActionsLeaveBattle |
| SnapshotGenerator.ExecuteStep | tests/utils/snapshot_generator.cpp:151-175 | one action is parsed, validated and executed or skipped, as StepAction describes |
| SnapshotGenerator.ExecuteActionSequence | tests/utils/snapshot_generator.cpp:141-185 | the loop's final battle and step log are those of RunActions from turn 1 |
| SnapshotGenerator.LogFollowsActions | tests/utils/snapshot_generator.cpp:150-181 | the log has one step per action in order; it is shorter than the actions only when the battle ended, and is non-empty when there are actions |
| SnapshotGenerator.StepTurn | tests/utils/snapshot_generator.cpp:158-168 | one step advances the turn number only by an executed end_turn, and an executed step carries the current turn |
| SnapshotGenerator.FinalTurnCountsEndTurns | tests/utils/snapshot_generator.cpp:148-168 | the final turn number is the starting turn plus the executed end_turn actions |
| SnapshotGenerator.TurnCounting | tests/utils/snapshot_generator.cpp:148-168 | each executed step is logged at the starting turn plus the end_turn actions executed before it |
| SnapshotGenerator.EndTurnsOfConcat | tests/utils/snapshot_generator.cpp:166-168 | the count of executed end_turn actions adds up over concatenated logs |
| SnapshotGenerator.RunStopsOnceDecided | tests/utils/snapshot_generator.cpp:177-181 | once a prefix of the actions has decided the battle, the actions after it are never looked at |
| SnapshotGenerator.RunContinues | tests/utils/snapshot_generator.cpp:150-182 | while the battle stays undecided, running a then b is running a and then b from where a left off |
| SnapshotGenerator.SkippedActionsLeaveBattle | tests/utils/snapshot_generator.cpp:170-175 | when no step is executed, the battle and the turn number are untouched |
| SnapshotGenerator.GeneratorCard | tests/utils/snapshot_generator.cpp:97-103 | characterised by SnapshotGenerator.GeneratorDeckCards |
| SnapshotGenerator.GeneratorDeck | tests/utils/snapshot_generator.cpp:95-104 | characterised by SnapshotGenerator.GeneratorDeckCards |
| SnapshotGenerator.GeneratorDeckCards | tests/utils/snapshot_generator.cpp:95-104 | the generator's deck holds only unupgraded Strike, Defend and Bash cards, at most one per entry, and nothing for other entries ("STRIKE+" included) |
| SnapshotGenerator.CreateGeneratorContext | tests/utils/snapshot_generator.cpp:68-107 | an Ironclad run with the scenario's seed, ascension, HP and encounter lookup, the generator's deck, and no relics |

## Left out

- Random, java::Random and java::Collections::shuffle are not part of this model: every draw's value is a parameter, each stream is only a seed and a draw counter, and a shuffle is a given permutation (`ReturnColorlessCard`) or a given choice among the occupied slots (`GetRandomPlayerPotionIdx`).
- aiRng and monsterHpRng: the constructor does not seed them and no modelled operation draws from them.
- fractionMaxHp (battle/GameContext2.cpp:51-61) works in float: BLOOD_POTION's heal is modelled as 20% (40% with SACRED_BARK) of max HP truncated toward zero, without float rounding.
- GameRulesProperties.FairyPotionRevives: states the revive HP as exactly 30% of max HP truncated toward zero, not the float product `0.3f * maxHp`.
- RelicContainer (its add, has, getRelicValue and getRelicValueRef) is not part of this model: relics are a list of instances, add appends, has is membership, and a relic's value is that of its first instance.
- GameContext2.GameContext.ObtainPotion: requires the potion not to be EMPTY_POTION_SLOT, which the source does not check; obtaining it would break the count invariant.
- GameContext2.GameContext.DrinkPotion: requires the random-potion generator (returnRandomPotion, not shown) never to yield EMPTY_POTION_SLOT, so that Entropic Brew's count is right.
- GameContext2.GameContext.Brew: carries the same requirement on the random-potion generator, for the same reason.
- GameContext2.GameContext.DrinkPotionAtIdx: carries the same requirement on the random-potion generator, for the same reason.
- Integer width: HP, max HP and gold are unbounded integers. The source's 32-bit `int` arithmetic in playerHeal (`curHp + amount`), obtainGold (`gold += amount`), playerIncreaseMaxHp (`maxHp += amount`) and loseMaxHp (`maxHp -= amount`) would overflow, which is undefined behaviour in C++, only far outside any game value.
- Deck and Card are not part of this model. The deck is a list of cards: `deck.cards.clear()` is a reset to the empty list, `deck.obtainRaw(card)` an append. A card is its id and an upgraded flag: `card.upgrade()` sets the flag.
- drinkPotion's default branch asserts only in builds with sts_asserts; the model follows the build without them and changes nothing.
- GameRules.TrulyRandomCardFromAvailable: the draw is a parameter; the advance of the caller's stream, and of cardRng on the curse path (getRandomCurse, not shown), are not modelled. The card pools, colours and rarities are parameters.
- The colourless pool's initial contents (baseColorlessPool) and the encounter field, which the constructor leaves uninitialised, are arbitrary in the model.
- GameContext fields that no modelled operation reads or writes (screen state, rooms, boss, regainControlAction, skipBattles) and initFromSave, enterBattle and the other declared operations whose bodies are not shown.
- JSON: a scenario is taken already read into `Scenarios.Scenario`. The JSON library's type errors on scenario fields are not modelled. `relic_counters` is taken as a list in the object's iteration order.
- formatRelicsForSnapshot: only the text of one relic (its name and counter suffix) is modelled; the iteration over all relic ids, the separators and getRelicName are not. The player's counter fields are a parameter.
- Snapshot text: the loop's printed lines are modelled as a log of steps (executed at a turn, invalid, unknown); formatInitialState, formatActionResult, formatFinalResult and the other formatting are left out.
- The battle (BattleContext, search::Action's isValidAction and execute, the battle outcome) is not part of this model: the loop takes them as parameters.
- std::stoi is modelled for base 10 and a 32-bit int only.
- File and directory I/O (loadScenariosFromDirectory, fromJsonFile, writeSnapshotToFile), the main functions, and the agents with their threading are left out.
