// The game's enumerations. Their headers (constants/Cards.h, Relics.h,
// Potions.h, Rooms.h, MonsterEncounters.h, CharacterClasses.h) are not part
// of this model: each datatype lists the values the modelled code names and
// one catch-all constructor, carrying the ordinal, for every other value.

module Cards {

  datatype CardId =
    | INVALID
    | STRIKE_RED | STRIKE_GREEN | STRIKE_BLUE | STRIKE_PURPLE
    | DEFEND_RED | DEFEND_GREEN | DEFEND_BLUE | DEFEND_PURPLE
    | BASH | IRON_WAVE | SWIFT_STRIKE
    | OtherCard(ordinal: nat)

  datatype CardRarity = BASIC | COMMON | UNCOMMON | RARE | SPECIAL | CURSE

  datatype CardColor = RED | GREEN | BLUE | PURPLE | COLORLESS | CURSE

  /** A card in the deck: its identifier and whether it has been upgraded. */
  datatype Card = Card(id: CardId, upgraded: bool)
}

module Characters {
  import opened Cards

  datatype CharacterClass = IRONCLAD | SILENT | DEFECT | WATCHER

  /** The colour a character's own cards have (the source casts the class to a colour). */
  function ClassColor(cc: CharacterClass): (c: CardColor)
    ensures c != CardColor.COLORLESS && c != CardColor.CURSE
  {
    match cc
    case IRONCLAD => RED
    case SILENT => GREEN
    case DEFECT => BLUE
    case WATCHER => PURPLE
  }
}

module Relics {

  datatype RelicId =
    | BLOODY_IDOL | ECTOPLASM | ETERNAL_FEATHER | GIRYA | HAPPY_FLOWER
    | INCENSE_BURNER | INK_BOTTLE | INSERTER | LIZARD_TAIL | MARK_OF_THE_BLOOM
    | MAW_BANK | NLOTHS_GIFT | NUNCHAKU | PEACE_PIPE | PEN_NIB | SACRED_BARK
    | SHOVEL | SOZU | SSSERPENT_HEAD | SUNDIAL
    | OtherRelic(ordinal: nat)
    | INVALID

  /** One held relic and its counter (`data` in the source). */
  datatype RelicInstance = RelicInstance(id: RelicId, data: int)
}

module Potions {

  datatype Potion =
    | EMPTY_POTION_SLOT | INVALID
    | BLOOD_POTION | ENTROPIC_BREW | FAIRY_POTION | FRUIT_JUICE
    | OtherPotion(ordinal: nat)
}

module Rooms {

  datatype Room = BOSS | ELITE | EVENT | REST | INVALID | OtherRoom(ordinal: nat)
}

module MonsterEncounters {

  datatype MonsterEncounter =
    | INVALID | CULTIST | JAW_WORM | TWO_LOUSE | SMALL_SLIMES | BLUE_SLAVER
    | GREMLIN_GANG | LOOTER | LARGE_SLIME | LOTS_OF_SLIMES | EXORDIUM_THUGS
    | EXORDIUM_WILDLIFE | RED_SLAVER | THREE_LOUSE | TWO_FUNGI_BEASTS
    | GREMLIN_NOB | LAGAVULIN | THREE_SENTRIES | SLIME_BOSS | THE_GUARDIAN
    | HEXAGHOST
    | OtherEncounter(ordinal: nat)
}
