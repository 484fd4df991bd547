/** The persistent run state (battle/GameContext2.h) as a class whose methods
    update its fields in place, as battle/GameContext2.cpp does. Each method is
    proved to leave the object in the state the matching GameRules function
    describes; the properties of those functions are in game_rules_properties.dfy. */
module GameContext2 {
  import opened Cards
  import opened Characters
  import opened Relics
  import opened Potions
  import opened Rooms
  import opened MonsterEncounters
  import opened Wrappers
  import opened GameRules

  /** The scan of returnColorlessCard: the first card of the wanted rarity, or SWIFT_STRIKE. */
  method FindFirstOfRarity(pool: seq<CardId>, rarity: CardRarity, rarityOf: CardId -> CardRarity) returns (c: CardId)
    ensures c == FirstOfRarity(pool, rarity, rarityOf)
  {
    var i := 0;
    while i < |pool|
      invariant 0 <= i <= |pool|
      invariant FirstOfRarity(pool, rarity, rarityOf) == FirstOfRarity(pool[i..], rarity, rarityOf)
    {
      if rarityOf(pool[i]) == rarity {
        return pool[i];
      }
      assert pool[i..][1..] == pool[i + 1..];
      i := i + 1;
    }
    return SWIFT_STRIKE;
  }

  /** The loop of ENTROPIC_BREW over the first `n` slots: each slot draws a
      potion from the stream and keeps it only if the slot is empty. */
  method BrewSlots(potions: array<Potion>, rng: Rng, cc: CharacterClass, gen: (Rng, CharacterClass) -> (Potion, Rng), n: nat)
    returns (rng': Rng)
    requires n <= potions.Length
    modifies potions
    ensures (potions[..], rng') == Brewed(old(potions[..]), rng, cc, gen, n)
  {
    rng' := rng;
    var i := 0;
    while i < n
      invariant 0 <= i <= n
      invariant (potions[..], rng') == Brewed(old(potions[..]), rng, cc, gen, i)
    {
      var drawn := gen(rng', cc);
      rng' := drawn.1;
      if potions[i] == EMPTY_POTION_SLOT {
        potions[i] := drawn.0;
      }
      i := i + 1;
    }
  }

  class GameContext {
    var seed: int

    // One stream per concern. aiRng and monsterHpRng are not set by the
    // constructor and no modelled operation uses them; they are not modelled.
    var neowRng: Rng
    var treasureRng: Rng
    var eventRng: Rng
    var relicRng: Rng
    var potionRng: Rng
    var cardRng: Rng
    var cardRandomRng: Rng
    var merchantRng: Rng
    var monsterRng: Rng
    var shuffleRng: Rng
    var miscRng: Rng
    var mathUtilRng: Rng

    var colorlessCardPool: seq<CardId>

    var outcome: GameOutcome
    var encounter: MonsterEncounter  // info.encounter

    var cardRarityFactor: int
    var act: int
    var ascension: int
    var floorNum: int

    var cc: CharacterClass
    var curHp: int
    var maxHp: int
    var gold: int

    var potionCount: int
    var potionCapacity: int
    const potions: array<Potion>

    var relics: seq<RelicInstance>
    var deck: seq<Card>

    function Rngs(): Streams
      reads this
    {
      Streams(neowRng, treasureRng, eventRng, relicRng, potionRng, cardRng, cardRandomRng,
              merchantRng, monsterRng, shuffleRng, miscRng, mathUtilRng)
    }

    /** The whole state of the context as one value. */
    function State(): RunState
      reads this, potions
    {
      RunState(seed, Rngs(), cc, ascension, outcome, encounter, cardRarityFactor, act, floorNum,
               curHp, maxHp, gold, potionCount, potionCapacity, potions[..], relics, deck,
               colorlessCardPool)
    }

    ghost predicate Valid()
      reads this, potions
    {
      potions.Length == POTION_SLOTS && PotionsConsistent(State())
    }

    /** A new run: every stream seeded with `seed` (the math-utility one with
        the seed minus 897897), the default HP, gold, act and floor, no relics,
        an empty deck, and five empty potion slots of which three are usable
        below ascension 11 and two from it on. The colourless pool and the
        encounter are left as the source leaves them (a table this model does
        not hold, and an uninitialised field). */
    constructor (cc: CharacterClass, seed: int, ascension: int)
      requires 0 <= seed < UINT64_MODULUS
      ensures Valid() && fresh(potions)
      ensures this.seed == seed && this.cc == cc && this.ascension == ascension
      ensures Rngs() == Streams(Rng(seed, 0), Rng(seed, 0), Rng(seed, 0), Rng(seed, 0), Rng(seed, 0),
                                Rng(seed, 0), Rng(seed, 0), Rng(seed, 0), Rng(seed, 0), Rng(seed, 0),
                                Rng(seed, 0), Rng(MathUtilSeed(seed), 0))
      ensures outcome == UNDECIDED
      ensures cardRarityFactor == DEFAULT_CARD_RARITY_FACTOR && act == 1 && floorNum == 0
      ensures curHp == DEFAULT_HP && maxHp == DEFAULT_HP && gold == DEFAULT_GOLD
      ensures potionCount == 0 && potionCapacity == (if ascension < 11 then 3 else 2)
      ensures potions[..] == [EMPTY_POTION_SLOT, EMPTY_POTION_SLOT, EMPTY_POTION_SLOT, EMPTY_POTION_SLOT, EMPTY_POTION_SLOT]
      ensures relics == [] && deck == []
    {
      this.seed := seed;
      neowRng := Rng(seed, 0);
      treasureRng := Rng(seed, 0);
      eventRng := Rng(seed, 0);
      relicRng := Rng(seed, 0);
      potionRng := Rng(seed, 0);
      cardRng := Rng(seed, 0);
      cardRandomRng := Rng(seed, 0);
      merchantRng := Rng(seed, 0);
      monsterRng := Rng(seed, 0);
      shuffleRng := Rng(seed, 0);
      miscRng := Rng(seed, 0);
      mathUtilRng := Rng(MathUtilSeed(seed), 0);
      this.cc := cc;
      this.ascension := ascension;
      outcome := UNDECIDED;
      cardRarityFactor := DEFAULT_CARD_RARITY_FACTOR;
      act := 1;
      floorNum := 0;
      curHp := DEFAULT_HP;
      maxHp := DEFAULT_HP;
      gold := DEFAULT_GOLD;
      potionCount := 0;
      potionCapacity := PotionCapacityFor(ascension);
      potions := new Potion[POTION_SLOTS](_ => EMPTY_POTION_SLOT);
      relics := [];
      deck := [];
      new;
      assert potions[..][..potionCapacity] == seq(potionCapacity, _ => EMPTY_POTION_SLOT);
      CountBounds(potions[..][..potionCapacity]);
    }

    method PlayerHeal(amount: int)
      requires Valid()
      modifies this
      ensures Valid()
      ensures State() == GameRules.PlayerHeal(old(State()), amount)
    {
      if HasRelic(relics, MARK_OF_THE_BLOOM) {
        return;
      }
      curHp := Min(curHp + amount, maxHp);
    }

    method PlayerIncreaseMaxHp(amount: int)
      requires Valid()
      modifies this
      ensures Valid()
      ensures State() == GameRules.PlayerIncreaseMaxHp(old(State()), amount)
    {
      maxHp := maxHp + amount;
      PlayerHeal(amount);
    }

    method LoseGold(amount: int, inShop: bool)
      requires Valid()
      modifies this
      ensures Valid()
      ensures State() == GameRules.LoseGold(old(State()), amount, inShop)
    {
      if inShop && HasRelic(relics, MAW_BANK) {
        relics := SetRelicValue(relics, MAW_BANK, 0);
      }
      gold := Max(0, gold - amount);
    }

    method LoseMaxHp(amount: int)
      requires Valid()
      modifies this
      ensures Valid()
      ensures State() == GameRules.LoseMaxHp(old(State()), amount)
    {
      maxHp := maxHp - amount;
      curHp := Min(curHp, maxHp);
    }

    method ObtainGold(amount: int)
      requires Valid()
      modifies this
      ensures Valid()
      ensures State() == GameRules.ObtainGold(old(State()), amount)
    {
      if HasRelic(relics, ECTOPLASM) {
        return;
      }
      gold := gold + amount;
      if HasRelic(relics, BLOODY_IDOL) {
        PlayerHeal(5);
      }
    }

    /** The empty-slot sentinel is not a potion one can obtain. */
    method ObtainPotion(p: Potion)
      requires Valid() && p != EMPTY_POTION_SLOT
      modifies this, potions
      ensures Valid()
      ensures State() == GameRules.ObtainPotion(old(State()), p)
    {
      if HasRelic(relics, SOZU) || potionCount == potionCapacity {
        return;
      }
      var i := 0;
      while i < potionCapacity
        invariant 0 <= i <= potionCapacity
        invariant State() == old(State())
        invariant forall j :: 0 <= j < i ==> potions[j] != EMPTY_POTION_SLOT
      {
        if potions[i] == EMPTY_POTION_SLOT {
          SlotUpdateConsistent(State(), i, p, potionCount + 1);
          potions[i] := p;
          potionCount := potionCount + 1;
          return;
        }
        i := i + 1;
      }
    }

    method RelicsOnEnterRoom(room: Room)
      requires Valid()
      modifies this
      ensures Valid()
      ensures State() == GameRules.RelicsOnEnterRoom(old(State()), room)
    {
      if HasRelic(relics, MAW_BANK) && RelicValue(relics, MAW_BANK) != 0 {
        ObtainGold(12);
      }
      match room {
        case REST =>
          if HasRelic(relics, ETERNAL_FEATHER) {
            PlayerHeal(|deck| / 5 * 3);
          }
        case EVENT =>
          if HasRelic(relics, SSSERPENT_HEAD) {
            ObtainGold(50);
          }
        case _ =>
      }
    }

    /** `draw` is the value cardRng's draw returns. */
    method RollCardRarity(room: Room, draw: int) returns (rarity: CardRarity)
      requires Valid()
      modifies this
      ensures Valid()
      ensures (rarity, State()) == GameRules.RollCardRarity(old(State()), room, draw)
    {
      cardRng := Advance(cardRng, 1);
      var roll := draw + cardRarityFactor;
      if room == BOSS {
        return RARE;
      }
      var rareChance := if room == ELITE then 10 else 3;
      var uncommonChance := if room == ELITE then 40 else 37;
      if room != REST && HasRelic(relics, NLOTHS_GIFT) {
        rareChance := rareChance * 3;
      }
      if roll < rareChance {
        rarity := RARE;
      } else if roll < rareChance + uncommonChance {
        rarity := UNCOMMON;
      } else {
        rarity := COMMON;
      }
    }

    /** `shuffled` is the pool after the shuffle seeded by one shuffleRng draw. */
    method ReturnColorlessCard(rarity: CardRarity, shuffled: seq<CardId>, rarityOf: CardId -> CardRarity) returns (c: CardId)
      requires Valid() && multiset(shuffled) == multiset(colorlessCardPool)
      modifies this
      ensures Valid()
      ensures (c, State()) == GameRules.ReturnColorlessCard(old(State()), rarity, shuffled, rarityOf)
    {
      shuffleRng := Advance(shuffleRng, 1);
      colorlessCardPool := shuffled;
      c := FindFirstOfRarity(colorlessCardPool, rarity, rarityOf);
    }

    /** `choice` stands for the shuffle seeded by one miscRng draw (see GameRules.RandomPlayerPotionIdx). */
    method GetRandomPlayerPotionIdx(choice: nat) returns (idx: int)
      requires Valid()
      modifies this
      ensures Valid()
      ensures (idx, State()) == GameRules.RandomPlayerPotionIdx(old(State()), choice)
    {
      if potionCount <= 0 {
        return -1;
      }
      var potionIdxs: seq<nat> := [];
      var i := 0;
      while i < potionCapacity
        invariant 0 <= i <= potionCapacity
        invariant potionIdxs == OccupiedIndices(potions[..], i)
      {
        if potions[i] != EMPTY_POTION_SLOT {
          potionIdxs := potionIdxs + [i];
        }
        i := i + 1;
      }
      miscRng := Advance(miscRng, 1);
      idx := potionIdxs[choice % |potionIdxs|];
    }

    /** std::find over the potion slots. */
    method FindPotion(p: Potion) returns (k: Option<nat>)
      ensures k == FirstIndexOf(potions[..], p)
    {
      var i := 0;
      while i < potions.Length && potions[i] != p
        invariant 0 <= i <= potions.Length
        invariant forall j :: 0 <= j < i ==> potions[j] != p
      {
        i := i + 1;
      }
      k := if i < potions.Length then Some(i) else None;
    }

    /** The Fairy potion in slot `k` is used up and the player revives. */
    method UseFairyPotion(k: nat)
      requires Valid() && k < POTION_SLOTS && potions[k] == FAIRY_POTION
      modifies this, potions
      ensures Valid()
      ensures State() == old(State()).(potions := old(potions[..])[k := EMPTY_POTION_SLOT],
                                       potionCount := old(potionCount) - 1,
                                       curHp := FairyReviveHp(old(maxHp), HasRelic(old(relics), SACRED_BARK)))
    {
      SlotUpdateConsistent(State(), k, EMPTY_POTION_SLOT, potionCount - 1);
      potions[k] := EMPTY_POTION_SLOT;
      potionCount := potionCount - 1;
      curHp := FairyReviveHp(maxHp, HasRelic(relics, SACRED_BARK));
    }

    method PlayerOnDie()
      requires Valid()
      modifies this, potions
      ensures Valid()
      ensures State() == GameRules.PlayerOnDie(old(State()))
    {
      if HasRelic(relics, MARK_OF_THE_BLOOM) {
        outcome := PLAYER_LOSS;
        return;
      }
      var k := FindPotion(FAIRY_POTION);
      match k
      case Some(i) =>
        UseFairyPotion(i);
      case None =>
        LizardTailOrLoss();
    }

    /** With no Fairy potion: a charged Lizard Tail is spent to revive at half
        max HP, and otherwise the run is lost. */
    method LizardTailOrLoss()
      requires Valid()
      modifies this
      ensures Valid()
      ensures var s := old(State());
        State() == if HasRelic(s.relics, LIZARD_TAIL) && RelicValue(s.relics, LIZARD_TAIL) != 0
                   then s.(relics := SetRelicValue(s.relics, LIZARD_TAIL, 0), curHp := Max(1, TruncDiv(s.maxHp, 2)))
                   else s.(outcome := PLAYER_LOSS)
    {
      if HasRelic(relics, LIZARD_TAIL) && RelicValue(relics, LIZARD_TAIL) != 0 {
        relics := SetRelicValue(relics, LIZARD_TAIL, 0);
        curHp := Max(1, TruncDiv(maxHp, 2));
      } else {
        outcome := PLAYER_LOSS;
      }
    }

    method DiscardPotionAtIdx(idx: int)
      requires Valid() && 0 <= idx < POTION_SLOTS && potions[idx] != EMPTY_POTION_SLOT
      modifies this, potions
      ensures Valid()
      ensures State() == GameRules.DiscardPotionAtIdx(old(State()), idx)
    {
      SlotUpdateConsistent(State(), idx, EMPTY_POTION_SLOT, potionCount - 1);
      potions[idx] := EMPTY_POTION_SLOT;
      potionCount := potionCount - 1;
    }

    /** ENTROPIC_BREW: one potion is drawn for every usable slot and kept
        where the slot is empty; the count becomes the capacity. */
    method Brew(gen: (Rng, CharacterClass) -> (Potion, Rng))
      requires Valid()
      requires forall r :: gen(r, cc).0 != EMPTY_POTION_SLOT
      modifies this, potions
      ensures Valid()
      ensures State() == GameRules.DrinkPotion(old(State()), ENTROPIC_BREW, gen)
    {
      potionRng := BrewSlots(potions, potionRng, cc, gen, potionCapacity);
      potionCount := potionCapacity;
      BrewConsistent(old(State()), gen);
    }

    /** `gen` is the random-potion generator: given the potion stream and the
        class it returns a potion and the advanced stream; it never returns
        the empty-slot sentinel. */
    method DrinkPotion(p: Potion, gen: (Rng, CharacterClass) -> (Potion, Rng))
      requires Valid()
      requires forall r :: gen(r, cc).0 != EMPTY_POTION_SLOT
      modifies this, potions
      ensures Valid()
      ensures State() == GameRules.DrinkPotion(old(State()), p, gen)
    {
      match p {
        case BLOOD_POTION =>
          PlayerHeal(BloodPotionHeal(maxHp, HasRelic(relics, SACRED_BARK)));
        case ENTROPIC_BREW =>
          Brew(gen);
        case FRUIT_JUICE =>
          PlayerIncreaseMaxHp(if HasRelic(relics, SACRED_BARK) then 10 else 5);
        case _ =>
      }
    }

    method DrinkPotionAtIdx(idx: int, gen: (Rng, CharacterClass) -> (Potion, Rng))
      requires Valid() && 0 <= idx < POTION_SLOTS && potions[idx] != EMPTY_POTION_SLOT
      requires forall r :: gen(r, cc).0 != EMPTY_POTION_SLOT
      modifies this, potions
      ensures Valid()
      ensures State() == GameRules.DrinkPotionAtIdx(old(State()), idx, gen)
    {
      var p := potions[idx];
      DiscardPotionAtIdx(idx);
      DrinkPotion(p, gen);
    }
  }
}
