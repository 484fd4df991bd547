/** What the run-state operations of battle/GameContext2.cpp promise, proved
    about the GameRules functions that the GameContext class is proved to follow. */
module GameRulesProperties {
  import opened Wrappers
  import opened Cards
  import opened Characters
  import opened Relics
  import opened Potions
  import opened Rooms
  import opened GameRules

  // ---------------------------------------------------------------------
  // Construction

  /** Three usable potion slots below ascension 11, two from it on; never more than the five slots. */
  lemma PotionCapacityByAscension(ascension: int)
    ensures PotionCapacityFor(ascension) <= POTION_SLOTS
    ensures PotionCapacityFor(ascension) == 3 <==> ascension < 11
    ensures PotionCapacityFor(ascension) == 2 <==> ascension >= 11
  {
  }

  /** Exactly three relics are campfire relics. */
  lemma CampfireRelicsAreThree()
    ensures forall r :: IsCampfireRelic(r) <==> r in {PEACE_PIPE, SHOVEL, GIRYA}
  {
  }

  // ---------------------------------------------------------------------
  // Healing and max HP

  lemma HealIsCappedAtMaxHp(s: RunState, amount: int)
    ensures HasRelic(s.relics, MARK_OF_THE_BLOOM) ==> PlayerHeal(s, amount) == s
    ensures !HasRelic(s.relics, MARK_OF_THE_BLOOM) ==>
      var t := PlayerHeal(s, amount);
      && t == s.(curHp := t.curHp)
      && t.curHp <= s.maxHp
      && (t.curHp == s.curHp + amount || t.curHp == s.maxHp)
      && (s.curHp + amount <= s.maxHp ==> t.curHp == s.curHp + amount)
  {
  }

  /** Max HP always rises by the amount; HP then rises by the same amount unless
      blocked, capped at the new max HP (which only bites when HP was above max HP). */
  lemma IncreaseMaxHpHealsSameAmount(s: RunState, amount: int)
    ensures PlayerIncreaseMaxHp(s, amount).maxHp == s.maxHp + amount
    ensures !HasRelic(s.relics, MARK_OF_THE_BLOOM) ==>
      PlayerIncreaseMaxHp(s, amount).curHp == Min(s.curHp + amount, s.maxHp + amount)
    ensures !HasRelic(s.relics, MARK_OF_THE_BLOOM) && s.curHp <= s.maxHp ==>
      PlayerIncreaseMaxHp(s, amount).curHp == s.curHp + amount
    ensures HasRelic(s.relics, MARK_OF_THE_BLOOM) ==> PlayerIncreaseMaxHp(s, amount).curHp == s.curHp
  {
  }

  lemma LoseMaxHpClampsHp(s: RunState, amount: int)
    ensures var t := LoseMaxHp(s, amount);
      && t.maxHp == s.maxHp - amount
      && t.curHp <= t.maxHp
      && (s.curHp <= t.maxHp ==> t.curHp == s.curHp)
      && t == s.(maxHp := t.maxHp, curHp := t.curHp)
  {
  }

  // ---------------------------------------------------------------------
  // Gold

  lemma EctoplasmBlocksGold(s: RunState, amount: int)
    requires HasRelic(s.relics, ECTOPLASM)
    ensures ObtainGold(s, amount) == s
  {
  }

  /** Without ECTOPLASM gold rises by exactly the amount; only BLOODY_IDOL also heals (by 5). */
  lemma ObtainGoldAddsAmount(s: RunState, amount: int)
    requires !HasRelic(s.relics, ECTOPLASM)
    ensures var t := ObtainGold(s, amount);
      && t.gold == s.gold + amount
      && t == s.(gold := t.gold, curHp := t.curHp)
      && (HasRelic(s.relics, BLOODY_IDOL) ==> t == PlayerHeal(s.(gold := s.gold + amount), 5))
      && (!HasRelic(s.relics, BLOODY_IDOL) ==> t.curHp == s.curHp)
  {
  }

  /** Gold never drops below zero; in a shop the Maw Bank is broken. */
  lemma LoseGoldNeverNegative(s: RunState, amount: int, inShop: bool)
    ensures var t := LoseGold(s, amount, inShop);
      && t.gold == Max(0, s.gold - amount) && t.gold >= 0
      && (amount >= 0 && s.gold >= amount ==> t.gold == s.gold - amount)
      && (inShop && HasRelic(s.relics, MAW_BANK) ==> HasRelic(t.relics, MAW_BANK) && RelicValue(t.relics, MAW_BANK) == 0)
      && (!(inShop && HasRelic(s.relics, MAW_BANK)) ==> t.relics == s.relics)
      && t == s.(gold := t.gold, relics := t.relics)
  {
  }

  /** Entering a room gains gold only through obtainGold: with ECTOPLASM the
      Maw Bank's 12 and the Ssserpent Head's 50 are both lost; without it the
      gain is exactly their sum. */
  lemma EnterRoomGold(s: RunState, room: Room)
    ensures HasRelic(s.relics, ECTOPLASM) ==> RelicsOnEnterRoom(s, room).gold == s.gold
    ensures !HasRelic(s.relics, ECTOPLASM) ==>
      RelicsOnEnterRoom(s, room).gold == s.gold
        + (if HasRelic(s.relics, MAW_BANK) && RelicValue(s.relics, MAW_BANK) != 0 then 12 else 0)
        + (if room == EVENT && HasRelic(s.relics, SSSERPENT_HEAD) then 50 else 0)
    ensures RelicsOnEnterRoom(s, room).relics == s.relics
    ensures RelicsOnEnterRoom(s, room).potions == s.potions
  {
  }

  /** At a rest site the Eternal Feather heals 3 per full 5 cards in the deck,
      after a charged Maw Bank's gold (and Bloody Idol's heal with it). */
  lemma EternalFeatherHeal(s: RunState)
    requires HasRelic(s.relics, ETERNAL_FEATHER) && !HasRelic(s.relics, MARK_OF_THE_BLOOM)
    ensures var t := if HasRelic(s.relics, MAW_BANK) && RelicValue(s.relics, MAW_BANK) != 0 then ObtainGold(s, 12) else s;
      RelicsOnEnterRoom(s, REST).curHp == Min(t.curHp + |s.deck| / 5 * 3, s.maxHp)
    ensures !HasRelic(s.relics, MAW_BANK) ==>
      RelicsOnEnterRoom(s, REST).curHp == Min(s.curHp + |s.deck| / 5 * 3, s.maxHp)
  {
  }

  // ---------------------------------------------------------------------
  // Potions

  lemma ObtainPotionNoOp(s: RunState, p: Potion)
    requires 0 <= s.potionCapacity <= |s.potions|
    requires HasRelic(s.relics, SOZU) || s.potionCount == s.potionCapacity
    ensures ObtainPotion(s, p) == s
  {
  }

  /** With room and no SOZU, the potion goes to the lowest empty slot below the
      capacity, the count rises by one and nothing else changes. */
  lemma ObtainPotionFillsLowestEmptySlot(s: RunState, p: Potion)
    requires PotionsConsistent(s)
    requires !HasRelic(s.relics, SOZU) && s.potionCount != s.potionCapacity
    ensures exists k ::
      && 0 <= k < s.potionCapacity && s.potions[k] == EMPTY_POTION_SLOT
      && (forall j :: 0 <= j < k ==> s.potions[j] != EMPTY_POTION_SLOT)
      && ObtainPotion(s, p) == s.(potions := s.potions[k := p], potionCount := s.potionCount + 1)
  {
    CountBounds(s.potions[..s.potionCapacity]);
    var e :| 0 <= e < s.potionCapacity && s.potions[..s.potionCapacity][e] == EMPTY_POTION_SLOT;
    var k := FirstEmptySlot(s.potions, s.potionCapacity);
    assert k.Some?;
  }

  lemma ObtainPotionConsistent(s: RunState, p: Potion)
    requires PotionsConsistent(s) && p != EMPTY_POTION_SLOT
    ensures PotionsConsistent(ObtainPotion(s, p))
  {
    if !HasRelic(s.relics, SOZU) && s.potionCount != s.potionCapacity {
      match FirstEmptySlot(s.potions, s.potionCapacity)
      case Some(k) => SlotUpdateConsistent(s, k, p, s.potionCount + 1);
      case None =>
    }
  }

  /** Discarding empties exactly that slot, lowers the count by one and keeps the invariant. */
  lemma DiscardEmptiesSlot(s: RunState, idx: int)
    requires PotionsConsistent(s) && 0 <= idx < POTION_SLOTS && s.potions[idx] != EMPTY_POTION_SLOT
    ensures var t := DiscardPotionAtIdx(s, idx);
      && PotionsConsistent(t)
      && t.potions[idx] == EMPTY_POTION_SLOT
      && t.potionCount == s.potionCount - 1
      && (forall j :: 0 <= j < POTION_SLOTS && j != idx ==> t.potions[j] == s.potions[j])
  {
    SlotUpdateConsistent(s, idx, EMPTY_POTION_SLOT, s.potionCount - 1);
  }

  lemma DrinkPotionAtIdxConsistent(s: RunState, idx: int, gen: (Rng, CharacterClass) -> (Potion, Rng))
    requires PotionsConsistent(s) && 0 <= idx < POTION_SLOTS && s.potions[idx] != EMPTY_POTION_SLOT
    requires forall r :: gen(r, s.cc).0 != EMPTY_POTION_SLOT
    ensures PotionsConsistent(DrinkPotionAtIdx(s, idx, gen))
  {
    var t := DiscardPotionAtIdx(s, idx);
    SlotUpdateConsistent(s, idx, EMPTY_POTION_SLOT, s.potionCount - 1);
    if s.potions[idx] == ENTROPIC_BREW {
      BrewConsistent(t, gen);
    }
  }

  /** Fruit Juice: the slot is emptied and max HP rises by 10 with SACRED_BARK, else by 5. */
  lemma DrinkFruitJuice(s: RunState, idx: int, gen: (Rng, CharacterClass) -> (Potion, Rng))
    requires PotionsConsistent(s) && 0 <= idx < POTION_SLOTS && s.potions[idx] == FRUIT_JUICE
    ensures var t := DrinkPotionAtIdx(s, idx, gen);
      && t.maxHp == s.maxHp + (if HasRelic(s.relics, SACRED_BARK) then 10 else 5)
      && t.potions[idx] == EMPTY_POTION_SLOT
      && t.potionCount == s.potionCount - 1
  {
  }

  /** Entropic Brew: because its own slot is emptied first, every slot below the
      capacity, its own included, holds a potion afterwards and the count is the
      capacity; potions already held stay where they were; the potion stream
      advances once per slot below the capacity, and no other stream moves. */
  lemma DrinkEntropicBrew(s: RunState, idx: int, gen: (Rng, CharacterClass) -> (Potion, Rng))
    requires PotionsConsistent(s) && 0 <= idx < POTION_SLOTS && s.potions[idx] == ENTROPIC_BREW
    requires forall r :: gen(r, s.cc).0 != EMPTY_POTION_SLOT
    ensures var t := DrinkPotionAtIdx(s, idx, gen);
      && (forall j :: 0 <= j < s.potionCapacity ==> t.potions[j] != EMPTY_POTION_SLOT)
      && t.potionCount == s.potionCapacity
      && (forall j :: 0 <= j < POTION_SLOTS && j != idx && s.potions[j] != EMPTY_POTION_SLOT ==> t.potions[j] == s.potions[j])
      && t.rngs == s.rngs.(potionRng := t.rngs.potionRng)
  {
    var d := DiscardPotionAtIdx(s, idx);
    BrewedFills(d.potions, d.rngs.potionRng, d.cc, gen, d.potionCapacity);
  }

  /** -1 exactly when there are no potions; otherwise an occupied slot below the
      capacity, for one miscRng draw and no other. */
  lemma RandomPotionIdxIsOccupied(s: RunState, choice: nat)
    requires PotionsConsistent(s)
    ensures var (r, t) := RandomPlayerPotionIdx(s, choice);
      && (r == -1 <==> s.potionCount <= 0)
      && (r != -1 ==> 0 <= r < s.potionCapacity && s.potions[r] != EMPTY_POTION_SLOT)
      && (s.potionCount <= 0 ==> t == s)
      && (s.potionCount > 0 ==> t == s.(rngs := s.rngs.(miscRng := Advance(s.rngs.miscRng, 1))))
  {
  }

  /** Every occupied slot below the capacity is a possible outcome of the shuffle. */
  lemma EveryOccupiedSlotCanBeChosen(s: RunState, i: nat)
    requires PotionsConsistent(s) && i < s.potionCapacity && s.potions[i] != EMPTY_POTION_SLOT
    ensures exists choice: nat :: RandomPlayerPotionIdx(s, choice).0 == i
  {
    var idxs := OccupiedIndices(s.potions, s.potionCapacity);
    assert i in idxs;
    var k :| 0 <= k < |idxs| && idxs[k] == i;
    assert s.potionCount > 0 by {
      CountBounds(s.potions[..s.potionCapacity]);
      assert s.potions[..s.potionCapacity][i] != EMPTY_POTION_SLOT;
    }
    SmallModulus(k, |idxs|);
    assert RandomPlayerPotionIdx(s, k).0 == idxs[k];
  }

  /** The shuffle's pick `choice % |idxs|` is `choice` itself when it is in range. */
  lemma SmallModulus(k: nat, n: nat)
    requires k < n
    ensures k % n == k
  {
  }

  // ---------------------------------------------------------------------
  // Card rarity

  /** One cardRng draw is always taken, in a boss room too, and no other stream moves. */
  lemma RollDrawsOnceEvenForBoss(s: RunState, room: Room, draw: int)
    ensures RollCardRarity(s, room, draw).1 == s.(rngs := s.rngs.(cardRng := Advance(s.rngs.cardRng, 1)))
    ensures room == BOSS ==> RollCardRarity(s, room, draw).0 == RARE
  {
  }

  /** Outside a boss room the roll (draw plus the rarity factor) falls into one of three bands:
      below the rare chance, below rare plus uncommon chance, or above. The rare chance is 10 in
      an elite room and 3 elsewhere, tripled by N'loth's Gift except at a rest site; the
      uncommon chance is 40 in an elite room and 37 elsewhere. */
  lemma RarityBands(s: RunState, room: Room, draw: int)
    requires room != BOSS
    ensures var rare := (if room == ELITE then 10 else 3) * (if room != REST && HasRelic(s.relics, NLOTHS_GIFT) then 3 else 1);
      var uncommon := if room == ELITE then 40 else 37;
      var roll := draw + s.cardRarityFactor;
      var r := RollCardRarity(s, room, draw).0;
      && (r == RARE <==> roll < rare)
      && (r == UNCOMMON <==> rare <= roll < rare + uncommon)
      && (r == COMMON <==> rare + uncommon <= roll)
  {
  }

  function RarityRank(r: CardRarity): int
  {
    match r
    case RARE => 2
    case UNCOMMON => 1
    case _ => 0
  }

  /** A lower roll never gives a less rare card. */
  lemma RarityMonotoneInRoll(room: Room, roll1: int, roll2: int, hasNloth: bool)
    requires roll1 <= roll2
    ensures RarityRank(CardRarityFor(room, roll1, hasNloth)) >= RarityRank(CardRarityFor(room, roll2, hasNloth))
  {
  }

  /** N'loth's Gift never makes a card less rare. */
  lemma NlothNeverLowersRarity(room: Room, roll: int)
    ensures RarityRank(CardRarityFor(room, roll, true)) >= RarityRank(CardRarityFor(room, roll, false))
  {
  }

  // ---------------------------------------------------------------------
  // Transform pool pick

  /** The skip never returns the excluded card unless it fills both the drawn place and the next. */
  lemma PickAvoidingSkipsExclude(pool: seq<CardId>, idx: int, exclude: CardId)
    requires 0 <= idx && idx + 1 < |pool|
    ensures PickAvoiding(pool, idx, exclude) in pool
    ensures pool[idx] != exclude || pool[idx + 1] != exclude ==> PickAvoiding(pool, idx, exclude) != exclude
  {
  }

  /** When the excluded card is colourless or a non-basic card of the class's
      colour, and it is not repeated next to itself in its pool, it is never returned. */
  lemma TrulyRandomCardAvoidsExclude(
    cc: CharacterClass, exclude: CardId, colorOf: CardId -> CardColor, rarityOf: CardId -> CardRarity,
    colorlessPool: seq<CardId>, classPool: seq<CardId>, draw: int, curse: CardId)
    requires colorOf(exclude) == COLORLESS ==> 0 <= draw && draw + 1 < |colorlessPool|
    requires colorOf(exclude) !in {COLORLESS, CardColor.CURSE} && ExcludeInPool(cc, exclude, colorOf, rarityOf) ==>
      0 <= draw && draw + 1 < |classPool|
    requires colorOf(exclude) !in {COLORLESS, CardColor.CURSE} && !ExcludeInPool(cc, exclude, colorOf, rarityOf) ==>
      0 <= draw < |classPool|
    requires colorOf(exclude) == COLORLESS || ExcludeInPool(cc, exclude, colorOf, rarityOf)
    requires forall i :: 0 <= i < |colorlessPool| - 1 ==> colorlessPool[i] != exclude || colorlessPool[i + 1] != exclude
    requires forall i :: 0 <= i < |classPool| - 1 ==> classPool[i] != exclude || classPool[i + 1] != exclude
    ensures TrulyRandomCardFromAvailable(cc, exclude, colorOf, rarityOf, colorlessPool, classPool, draw, curse) != exclude
  {
    ClassColorIsNotColorless(cc);
  }

  lemma ClassColorIsNotColorless(cc: CharacterClass)
    ensures ClassColor(cc) != COLORLESS && ClassColor(cc) != CardColor.CURSE
  {
  }

  /** The colourless card is the first of the requested rarity in the shuffled pool, or SWIFT_STRIKE
      when the pool has none; the pool becomes the shuffle and only the shuffle stream moves. */
  lemma ColorlessCardIsFirstOfRarity(s: RunState, rarity: CardRarity, shuffled: seq<CardId>, rarityOf: CardId -> CardRarity)
    ensures var (c, t) := ReturnColorlessCard(s, rarity, shuffled, rarityOf);
      && (c == SWIFT_STRIKE || (c in shuffled && rarityOf(c) == rarity))
      && ((exists i :: 0 <= i < |shuffled| && rarityOf(shuffled[i]) == rarity) ==> c in shuffled && rarityOf(c) == rarity)
      && t == s.(colorlessCardPool := shuffled, rngs := s.rngs.(shuffleRng := Advance(s.rngs.shuffleRng, 1)))
  {
  }

  // ---------------------------------------------------------------------
  // Death

  /** MARK_OF_THE_BLOOM: the run is lost at once and no Fairy potion is used. */
  lemma MarkOfTheBloomLosesAtOnce(s: RunState)
    requires HasRelic(s.relics, MARK_OF_THE_BLOOM)
    ensures PlayerOnDie(s) == s.(outcome := PLAYER_LOSS)
  {
  }

  /** Otherwise the first Fairy potion is used up and the player revives: at 1 HP with
      SACRED_BARK, at 30% of max HP (at least 1) without it. The Lizard Tail is kept. */
  lemma FairyPotionRevives(s: RunState)
    requires PotionsConsistent(s)
    requires !HasRelic(s.relics, MARK_OF_THE_BLOOM)
    requires exists i :: 0 <= i < |s.potions| && s.potions[i] == FAIRY_POTION
    ensures var t := PlayerOnDie(s);
      && PotionsConsistent(t)
      && t.outcome == s.outcome
      && t.relics == s.relics
      && t.potionCount == s.potionCount - 1
      && (HasRelic(s.relics, SACRED_BARK) ==> t.curHp == 1)
      && (!HasRelic(s.relics, SACRED_BARK) ==> t.curHp == Max(1, TruncDiv(3 * s.maxHp, 10)))
      && exists k ::
           && 0 <= k < s.potionCapacity && s.potions[k] == FAIRY_POTION
           && (forall j :: 0 <= j < k ==> s.potions[j] != FAIRY_POTION)
           && t.potions == s.potions[k := EMPTY_POTION_SLOT]
  {
    var k := FirstIndexOf(s.potions, FAIRY_POTION).value;
    SlotUpdateConsistent(s, k, EMPTY_POTION_SLOT, s.potionCount - 1);
  }

  /** With no Fairy potion, a charged Lizard Tail revives to half max HP (at least 1) and is spent. */
  lemma LizardTailRevives(s: RunState)
    requires !HasRelic(s.relics, MARK_OF_THE_BLOOM)
    requires forall i :: 0 <= i < |s.potions| ==> s.potions[i] != FAIRY_POTION
    requires HasRelic(s.relics, LIZARD_TAIL) && RelicValue(s.relics, LIZARD_TAIL) != 0
    ensures var t := PlayerOnDie(s);
      && t.outcome == s.outcome
      && t.curHp == Max(1, TruncDiv(s.maxHp, 2)) && t.curHp >= 1
      && HasRelic(t.relics, LIZARD_TAIL) && RelicValue(t.relics, LIZARD_TAIL) == 0
      && t.potions == s.potions
  {
  }

  /** With none of the three, the run is lost and nothing else changes. */
  lemma DeathWithoutRescueLoses(s: RunState)
    requires !HasRelic(s.relics, MARK_OF_THE_BLOOM)
    requires forall i :: 0 <= i < |s.potions| ==> s.potions[i] != FAIRY_POTION
    requires !HasRelic(s.relics, LIZARD_TAIL) || RelicValue(s.relics, LIZARD_TAIL) == 0
    ensures PlayerOnDie(s) == s.(outcome := PLAYER_LOSS)
  {
  }

  lemma PlayerOnDieConsistent(s: RunState)
    requires PotionsConsistent(s)
    ensures PotionsConsistent(PlayerOnDie(s))
  {
    if !HasRelic(s.relics, MARK_OF_THE_BLOOM) {
      match FirstIndexOf(s.potions, FAIRY_POTION)
      case Some(k) => SlotUpdateConsistent(s, k, EMPTY_POTION_SLOT, s.potionCount - 1);
      case None =>
    }
  }

  /** A revival, by whatever means, leaves the player with at least 1 HP. */
  lemma RevivalLeavesPositiveHp(s: RunState)
    requires PlayerOnDie(s).outcome != PLAYER_LOSS
    ensures PlayerOnDie(s).curHp >= 1
  {
  }
}
