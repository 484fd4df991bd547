/** The run state that a GameContext holds (battle/GameContext2.h) as one value,
    and each of the context's operations (battle/GameContext2.cpp) as a pure
    function from the old state to the new one. The class in game_context.dfy
    carries out these operations in place and is proved to agree with them. */
module GameRules {
  import opened Wrappers
  import opened Cards
  import opened Characters
  import opened Relics
  import opened Potions
  import opened Rooms
  import opened MonsterEncounters

  const POTION_SLOTS: nat := 5
  const UINT64_MODULUS: int := 0x1_0000_0000_0000_0000
  const MATH_UTIL_SEED_OFFSET: int := 897897

  const DEFAULT_HP: int := 80
  const DEFAULT_GOLD: int := 99
  const DEFAULT_CARD_RARITY_FACTOR: int := 5

  datatype GameOutcome = PLAYER_LOSS | UNDECIDED | PLAYER_VICTORY

  // ---------------------------------------------------------------------
  // Random streams

  /** A Random stream as the context sees it: the seed it was built from and
      how many draws have been taken from it. The generator's values are not
      modelled; every draw is a parameter of the operation that takes it. */
  datatype Rng = Rng(seed: int, counter: nat)

  function Advance(r: Rng, n: nat): Rng
  {
    r.(counter := r.counter + n)
  }

  /** One stream per concern, so that drawing from one leaves the others as they were. */
  datatype Streams = Streams(
    neowRng: Rng, treasureRng: Rng, eventRng: Rng, relicRng: Rng,
    potionRng: Rng, cardRng: Rng, cardRandomRng: Rng, merchantRng: Rng,
    monsterRng: Rng, shuffleRng: Rng, miscRng: Rng, mathUtilRng: Rng)

  /** The seed of the math-utility stream: the run seed minus 897897, wrapping
      as unsigned 64-bit arithmetic does. */
  function MathUtilSeed(seed: int): (s: int)
    requires 0 <= seed < UINT64_MODULUS
    ensures 0 <= s < UINT64_MODULUS
    ensures seed >= MATH_UTIL_SEED_OFFSET ==> s == seed - MATH_UTIL_SEED_OFFSET
    ensures seed < MATH_UTIL_SEED_OFFSET ==> s == UINT64_MODULUS - (MATH_UTIL_SEED_OFFSET - seed)
  {
    (seed - MATH_UTIL_SEED_OFFSET) % UINT64_MODULUS
  }

  // ---------------------------------------------------------------------
  // Small integer helpers with C++ semantics

  function Min(a: int, b: int): int { if a <= b then a else b }

  function Max(a: int, b: int): int { if a >= b then a else b }

  /** C++ integer division by a positive divisor, which truncates toward zero. */
  function TruncDiv(a: int, b: int): int
    requires b > 0
  {
    if a >= 0 then a / b else -((-a) / b)
  }

  /** C++ narrowing of an int to std::int16_t (two's complement wrap-around). */
  function ToInt16(x: int): (y: int)
    ensures -32768 <= y < 32768
    ensures (x - y) % 65536 == 0
    ensures -32768 <= x < 32768 ==> y == x
  {
    (x + 32768) % 65536 - 32768
  }

  // ---------------------------------------------------------------------
  // Select-screen cards

  datatype SelectScreenCard = SelectScreenCard(card: Card, deckIdx: int)

  /** The one-argument constructor: the card has no place in the deck. */
  function SelectScreenCardOf(card: Card): (s: SelectScreenCard)
    ensures s.card == card && s.deckIdx == -1
  {
    SelectScreenCard(card, -1)
  }

  /** The two-argument constructor stores the deck index in a 16-bit field. */
  function SelectScreenCardAt(card: Card, deckIdx: int): (s: SelectScreenCard)
    ensures s.card == card && -32768 <= s.deckIdx < 32768
    ensures -32768 <= deckIdx < 32768 ==> s.deckIdx == deckIdx
  {
    SelectScreenCard(card, ToInt16(deckIdx))
  }

  // ---------------------------------------------------------------------
  // Relics held: a list of instances, looked up by their first occurrence

  predicate HasRelic(relics: seq<RelicInstance>, r: RelicId)
  {
    exists i :: 0 <= i < |relics| && relics[i].id == r
  }

  function FirstRelicIndex(relics: seq<RelicInstance>, r: RelicId): (k: nat)
    requires HasRelic(relics, r)
    ensures k < |relics| && relics[k].id == r
    ensures forall j :: 0 <= j < k ==> relics[j].id != r
  {
    if relics[0].id == r then 0
    else
      assert HasRelic(relics[1..], r) by {
        var i :| 0 <= i < |relics| && relics[i].id == r;
        assert relics[1..][i - 1].id == r;
      }
      1 + FirstRelicIndex(relics[1..], r)
  }

  /** The counter of a held relic (its first instance). */
  function RelicValue(relics: seq<RelicInstance>, r: RelicId): int
    requires HasRelic(relics, r)
  {
    relics[FirstRelicIndex(relics, r)].data
  }

  /** Overwrites the counter of the first instance of a held relic. */
  function SetRelicValue(relics: seq<RelicInstance>, r: RelicId, v: int): (t: seq<RelicInstance>)
    requires HasRelic(relics, r)
    ensures |t| == |relics|
    ensures forall i :: 0 <= i < |t| ==> t[i].id == relics[i].id
    ensures HasRelic(t, r) && RelicValue(t, r) == v
    ensures forall i :: 0 <= i < |t| && i != FirstRelicIndex(relics, r) ==> t[i] == relics[i]
  {
    var k := FirstRelicIndex(relics, r);
    var t := relics[k := relics[k].(data := v)];
    assert t[k].id == r;
    assert FirstRelicIndex(t, r) == k by {
      assert forall j :: 0 <= j < k ==> t[j].id != r;
    }
    t
  }

  /** Relics that act at a campfire. */
  predicate IsCampfireRelic(r: RelicId)
  {
    r == PEACE_PIPE || r == SHOVEL || r == GIRYA
  }

  // ---------------------------------------------------------------------
  // The run state

  datatype RunState = RunState(
    seed: int,
    rngs: Streams,
    cc: CharacterClass,
    ascension: int,
    outcome: GameOutcome,
    encounter: MonsterEncounter,
    cardRarityFactor: int,
    act: int,
    floorNum: int,
    curHp: int,
    maxHp: int,
    gold: int,
    potionCount: int,
    potionCapacity: int,
    potions: seq<Potion>,
    relics: seq<RelicInstance>,
    deck: seq<Card>,
    colorlessCardPool: seq<CardId>)

  function PotionCapacityFor(ascension: int): int
  {
    if ascension < 11 then 3 else 2
  }

  /** The number of occupied potion slots in `s`. */
  function CountOccupied(s: seq<Potion>): nat
  {
    if s == [] then 0
    else CountOccupied(s[..|s| - 1]) + (if s[|s| - 1] != EMPTY_POTION_SLOT then 1 else 0)
  }

  /** The potion inventory's invariant: five slots, a capacity of at most five,
      nothing stored at or beyond the capacity, and a count equal to the
      number of occupied slots below the capacity. */
  predicate PotionsConsistent(s: RunState)
  {
    && |s.potions| == POTION_SLOTS
    && 0 <= s.potionCapacity <= POTION_SLOTS
    && (forall i :: s.potionCapacity <= i < POTION_SLOTS ==> s.potions[i] == EMPTY_POTION_SLOT)
    && s.potionCount == CountOccupied(s.potions[..s.potionCapacity])
  }

  lemma {:induction false} CountUpdate(s: seq<Potion>, i: nat, p: Potion)
    requires i < |s|
    ensures CountOccupied(s[i := p]) ==
      CountOccupied(s) - (if s[i] != EMPTY_POTION_SLOT then 1 else 0) + (if p != EMPTY_POTION_SLOT then 1 else 0)
  {
    var t := s[i := p];
    if i == |s| - 1 {
      assert t[..|t| - 1] == s[..|s| - 1];
    } else {
      assert t[..|t| - 1] == s[..|s| - 1][i := p];
      CountUpdate(s[..|s| - 1], i, p);
    }
  }

  lemma {:induction false} CountBounds(s: seq<Potion>)
    ensures CountOccupied(s) <= |s|
    ensures CountOccupied(s) == |s| <==> forall i :: 0 <= i < |s| ==> s[i] != EMPTY_POTION_SLOT
    ensures CountOccupied(s) == 0 <==> forall i :: 0 <= i < |s| ==> s[i] == EMPTY_POTION_SLOT
  {
    if s != [] {
      var u := s[..|s| - 1];
      CountBounds(u);
      assert forall i :: 0 <= i < |u| ==> u[i] == s[i];
    }
  }

  /** Writing a slot below the capacity keeps the invariant when the count moves by the occupancy change. */
  lemma SlotUpdateConsistent(s: RunState, i: nat, p: Potion, count: int)
    requires PotionsConsistent(s) && i < s.potionCapacity
    requires count == s.potionCount - (if s.potions[i] != EMPTY_POTION_SLOT then 1 else 0) + (if p != EMPTY_POTION_SLOT then 1 else 0)
    ensures PotionsConsistent(s.(potions := s.potions[i := p], potionCount := count))
  {
    var cap := s.potionCapacity;
    assert s.potions[i := p][..cap] == s.potions[..cap][i := p];
    CountUpdate(s.potions[..cap], i, p);
  }

  /** The lowest slot below `n` that is empty, if any. */
  function FirstEmptySlot(potions: seq<Potion>, n: nat): (k: Option<nat>)
    requires n <= |potions|
    ensures k.Some? ==> k.value < n && potions[k.value] == EMPTY_POTION_SLOT
    ensures k.Some? ==> forall j :: 0 <= j < k.value ==> potions[j] != EMPTY_POTION_SLOT
    ensures k.None? ==> forall j :: 0 <= j < n ==> potions[j] != EMPTY_POTION_SLOT
  {
    if n == 0 then None
    else if FirstEmptySlot(potions, n - 1).Some? then FirstEmptySlot(potions, n - 1)
    else if potions[n - 1] == EMPTY_POTION_SLOT then Some(n - 1)
    else None
  }

  /** The position of the first `p` in `s` (std::find). */
  function FirstIndexOf(s: seq<Potion>, p: Potion): (k: Option<nat>)
    ensures k.Some? ==> k.value < |s| && s[k.value] == p
    ensures k.Some? ==> forall j :: 0 <= j < k.value ==> s[j] != p
    ensures k.None? ==> forall j :: 0 <= j < |s| ==> s[j] != p
  {
    if s == [] then None
    else if s[0] == p then Some(0)
    else match FirstIndexOf(s[1..], p)
      case None => None
      case Some(j) => Some(j + 1)
  }

  /** The indices of the occupied slots below `n`, in increasing order. */
  function OccupiedIndices(potions: seq<Potion>, n: nat): (idxs: seq<nat>)
    requires n <= |potions|
    ensures |idxs| == CountOccupied(potions[..n])
    ensures forall k :: 0 <= k < |idxs| ==> idxs[k] < n && potions[idxs[k]] != EMPTY_POTION_SLOT
    ensures forall k, l :: 0 <= k < l < |idxs| ==> idxs[k] < idxs[l]
    ensures forall i :: 0 <= i < n && potions[i] != EMPTY_POTION_SLOT ==> i in idxs
  {
    if n == 0 then []
    else
      assert potions[..n][..n - 1] == potions[..n - 1];
      OccupiedIndices(potions, n - 1) + (if potions[n - 1] != EMPTY_POTION_SLOT then [n - 1] else [])
  }

  // ---------------------------------------------------------------------
  // Operations (battle/GameContext2.cpp)

  function PlayerHeal(s: RunState, amount: int): RunState
  {
    if HasRelic(s.relics, MARK_OF_THE_BLOOM) then s
    else s.(curHp := Min(s.curHp + amount, s.maxHp))
  }

  function PlayerIncreaseMaxHp(s: RunState, amount: int): RunState
  {
    PlayerHeal(s.(maxHp := s.maxHp + amount), amount)
  }

  function LoseGold(s: RunState, amount: int, inShop: bool): RunState
  {
    var relics := if inShop && HasRelic(s.relics, MAW_BANK) then SetRelicValue(s.relics, MAW_BANK, 0) else s.relics;
    s.(relics := relics, gold := Max(0, s.gold - amount))
  }

  function LoseMaxHp(s: RunState, amount: int): RunState
  {
    s.(maxHp := s.maxHp - amount, curHp := Min(s.curHp, s.maxHp - amount))
  }

  function ObtainGold(s: RunState, amount: int): RunState
  {
    if HasRelic(s.relics, ECTOPLASM) then s
    else
      var t := s.(gold := s.gold + amount);
      if HasRelic(s.relics, BLOODY_IDOL) then PlayerHeal(t, 5) else t
  }

  function ObtainPotion(s: RunState, p: Potion): RunState
    requires 0 <= s.potionCapacity <= |s.potions|
  {
    if HasRelic(s.relics, SOZU) || s.potionCount == s.potionCapacity then s
    else match FirstEmptySlot(s.potions, s.potionCapacity)
      case None => s
      case Some(k) => s.(potions := s.potions[k := p], potionCount := s.potionCount + 1)
  }

  function RelicsOnEnterRoom(s: RunState, room: Room): RunState
  {
    var t := if HasRelic(s.relics, MAW_BANK) && RelicValue(s.relics, MAW_BANK) != 0 then ObtainGold(s, 12) else s;
    match room
    case REST => if HasRelic(t.relics, ETERNAL_FEATHER) then PlayerHeal(t, |t.deck| / 5 * 3) else t
    case EVENT => if HasRelic(t.relics, SSSERPENT_HEAD) then ObtainGold(t, 50) else t
    case _ => t
  }

  function RareChance(room: Room, hasNloth: bool): int
  {
    var base := if room == ELITE then 10 else 3;
    if room != REST && hasNloth then base * 3 else base
  }

  function UncommonChance(room: Room): int
  {
    if room == ELITE then 40 else 37
  }

  /** The rarity a roll gives in a room: BOSS is always RARE, otherwise the roll
      is compared with the rare and then the rare-plus-uncommon threshold. */
  function CardRarityFor(room: Room, roll: int, hasNloth: bool): CardRarity
  {
    if room == BOSS then RARE
    else if roll < RareChance(room, hasNloth) then RARE
    else if roll < RareChance(room, hasNloth) + UncommonChance(room) then UNCOMMON
    else COMMON
  }

  /** rollCardRarity: one draw from cardRng, taken before the room is looked at. */
  function RollCardRarity(s: RunState, room: Room, draw: int): (CardRarity, RunState)
  {
    var rarity := CardRarityFor(room, draw + s.cardRarityFactor, HasRelic(s.relics, NLOTHS_GIFT));
    (rarity, s.(rngs := s.rngs.(cardRng := Advance(s.rngs.cardRng, 1))))
  }

  /** The pool-index skip: the drawn card, or its successor when the drawn one is excluded. */
  function PickAvoiding(pool: seq<CardId>, idx: int, exclude: CardId): CardId
    requires 0 <= idx && idx + 1 < |pool|
  {
    if pool[idx] == exclude then pool[idx + 1] else pool[idx]
  }

  predicate ExcludeInPool(cc: CharacterClass, exclude: CardId, colorOf: CardId -> CardColor, rarityOf: CardId -> CardRarity)
  {
    rarityOf(exclude) != BASIC && ClassColor(cc) == colorOf(exclude)
  }

  /** returnTrulyRandomCardFromAvailable once its one draw is known: colourless
      and in-class non-basic cards skip over the excluded card, curses come
      from the curse generator, everything else is a plain pick. */
  function TrulyRandomCardFromAvailable(
    cc: CharacterClass, exclude: CardId, colorOf: CardId -> CardColor, rarityOf: CardId -> CardRarity,
    colorlessPool: seq<CardId>, classPool: seq<CardId>, draw: int, curse: CardId): CardId
    requires colorOf(exclude) == COLORLESS ==> 0 <= draw && draw + 1 < |colorlessPool|
    requires colorOf(exclude) !in {COLORLESS, CardColor.CURSE} && ExcludeInPool(cc, exclude, colorOf, rarityOf) ==>
      0 <= draw && draw + 1 < |classPool|
    requires colorOf(exclude) !in {COLORLESS, CardColor.CURSE} && !ExcludeInPool(cc, exclude, colorOf, rarityOf) ==>
      0 <= draw < |classPool|
  {
    match colorOf(exclude)
    case COLORLESS => PickAvoiding(colorlessPool, draw, exclude)
    case CURSE => curse
    case _ =>
      if ExcludeInPool(cc, exclude, colorOf, rarityOf) then PickAvoiding(classPool, draw, exclude)
      else classPool[draw]
  }

  /** The first card of `rarity` in `pool`, or SWIFT_STRIKE when there is none. */
  function FirstOfRarity(pool: seq<CardId>, rarity: CardRarity, rarityOf: CardId -> CardRarity): (c: CardId)
    ensures (exists i :: 0 <= i < |pool| && rarityOf(pool[i]) == rarity) ==>
      exists i :: 0 <= i < |pool| && c == pool[i] && rarityOf(c) == rarity &&
        forall j :: 0 <= j < i ==> rarityOf(pool[j]) != rarity
    ensures (forall i :: 0 <= i < |pool| ==> rarityOf(pool[i]) != rarity) ==> c == SWIFT_STRIKE
  {
    if pool == [] then SWIFT_STRIKE
    else if rarityOf(pool[0]) == rarity then pool[0]
    else FirstOfRarity(pool[1..], rarity, rarityOf)
  }

  /** returnColorlessCard: the pool is replaced by its shuffle (one shuffleRng draw seeds it). */
  function ReturnColorlessCard(s: RunState, rarity: CardRarity, shuffled: seq<CardId>, rarityOf: CardId -> CardRarity): (CardId, RunState)
  {
    (FirstOfRarity(shuffled, rarity, rarityOf),
     s.(colorlessCardPool := shuffled, rngs := s.rngs.(shuffleRng := Advance(s.rngs.shuffleRng, 1))))
  }

  /** getRandomPlayerPotionIdx: -1 without potions; otherwise one miscRng draw
      seeds a shuffle of the occupied slots below the capacity, and the slot
      that lands first is returned. The shuffle is given by `choice`: the
      returned slot is the occupied one at position `choice` modulo their number. */
  function RandomPlayerPotionIdx(s: RunState, choice: nat): (res: (int, RunState))
    requires PotionsConsistent(s)
  {
    if s.potionCount <= 0 then (-1 as int, s)
    else
      var idxs := OccupiedIndices(s.potions, s.potionCapacity);
      (idxs[choice % |idxs|], s.(rngs := s.rngs.(miscRng := Advance(s.rngs.miscRng, 1))))
  }

  /** The HP a Fairy potion revives to. As written, `hasBark ? 0.6f : 0.3f * maxHp`
      parses as `hasBark ? 0.6f : (0.3f * maxHp)`, so with SACRED_BARK the value is
      0.6 truncated to 0 and the result is 1. Without it, 30% of max HP truncated
      toward zero (the float product is taken as the exact fraction). */
  function FairyReviveHp(maxHp: int, hasBark: bool): (hp: int)
    ensures hp >= 1
    ensures hasBark ==> hp == 1
    ensures !hasBark && maxHp >= 0 ==> hp == 1 || 10 * hp <= 3 * maxHp < 10 * (hp + 1)
  {
    Max(1, if hasBark then 0 else TruncDiv(3 * maxHp, 10))
  }

  function PlayerOnDie(s: RunState): RunState
  {
    if HasRelic(s.relics, MARK_OF_THE_BLOOM) then s.(outcome := PLAYER_LOSS)
    else match FirstIndexOf(s.potions, FAIRY_POTION)
      case Some(k) =>
        s.(potions := s.potions[k := EMPTY_POTION_SLOT], potionCount := s.potionCount - 1,
           curHp := FairyReviveHp(s.maxHp, HasRelic(s.relics, SACRED_BARK)))
      case None =>
        if HasRelic(s.relics, LIZARD_TAIL) && RelicValue(s.relics, LIZARD_TAIL) != 0 then
          s.(relics := SetRelicValue(s.relics, LIZARD_TAIL, 0), curHp := Max(1, TruncDiv(s.maxHp, 2)))
        else s.(outcome := PLAYER_LOSS)
  }

  function DiscardPotionAtIdx(s: RunState, idx: int): RunState
    requires 0 <= idx < |s.potions|
  {
    s.(potions := s.potions[idx := EMPTY_POTION_SLOT], potionCount := s.potionCount - 1)
  }

  /** Slots 0..n-1 after ENTROPIC_BREW's loop: each step draws one potion from
      the generator (advancing the potion stream) and keeps it only in an empty slot. */
  function Brewed(potions: seq<Potion>, rng: Rng, cc: CharacterClass, gen: (Rng, CharacterClass) -> (Potion, Rng), n: nat): (res: (seq<Potion>, Rng))
    requires n <= |potions|
    ensures |res.0| == |potions|
    ensures forall j :: n <= j < |potions| ==> res.0[j] == potions[j]
    ensures forall j :: 0 <= j < n && potions[j] != EMPTY_POTION_SLOT ==> res.0[j] == potions[j]
  {
    if n == 0 then (potions, rng)
    else
      var prev := Brewed(potions, rng, cc, gen, n - 1);
      var next := gen(prev.1, cc);
      (if prev.0[n - 1] == EMPTY_POTION_SLOT then prev.0[n - 1 := next.0] else prev.0, next.1)
  }

  lemma {:induction false} BrewedFills(potions: seq<Potion>, rng: Rng, cc: CharacterClass, gen: (Rng, CharacterClass) -> (Potion, Rng), n: nat)
    requires n <= |potions|
    requires forall r :: gen(r, cc).0 != EMPTY_POTION_SLOT
    ensures forall j :: 0 <= j < n ==> Brewed(potions, rng, cc, gen, n).0[j] != EMPTY_POTION_SLOT
  {
    if n > 0 {
      BrewedFills(potions, rng, cc, gen, n - 1);
    }
  }

  /** After ENTROPIC_BREW every slot below the capacity is filled, so setting
      the count to the capacity keeps the inventory invariant. */
  lemma BrewConsistent(s: RunState, gen: (Rng, CharacterClass) -> (Potion, Rng))
    requires PotionsConsistent(s)
    requires forall r :: gen(r, s.cc).0 != EMPTY_POTION_SLOT
    ensures PotionsConsistent(DrinkPotion(s, ENTROPIC_BREW, gen))
  {
    var t := DrinkPotion(s, ENTROPIC_BREW, gen);
    BrewedFills(s.potions, s.rngs.potionRng, s.cc, gen, s.potionCapacity);
    CountBounds(t.potions[..t.potionCapacity]);
  }

  /** The HP a Blood Potion heals: 20% of max HP, 40% with SACRED_BARK, truncated toward zero. */
  function BloodPotionHeal(maxHp: int, hasBark: bool): (heal: int)
    ensures maxHp >= 0 ==> 0 <= heal && 5 * heal <= maxHp * (if hasBark then 2 else 1) < 5 * (heal + 1)
  {
    TruncDiv(maxHp * (if hasBark then 2 else 1), 5)
  }

  /** drinkPotion for the potions whose effect is on the run state; any other potion does nothing here. */
  function DrinkPotion(s: RunState, p: Potion, gen: (Rng, CharacterClass) -> (Potion, Rng)): RunState
    requires PotionsConsistent(s)
  {
    match p
    case BLOOD_POTION => PlayerHeal(s, BloodPotionHeal(s.maxHp, HasRelic(s.relics, SACRED_BARK)))
    case ENTROPIC_BREW =>
      var brewed := Brewed(s.potions, s.rngs.potionRng, s.cc, gen, s.potionCapacity);
      s.(potions := brewed.0, rngs := s.rngs.(potionRng := brewed.1), potionCount := s.potionCapacity)
    case FRUIT_JUICE => PlayerIncreaseMaxHp(s, if HasRelic(s.relics, SACRED_BARK) then 10 else 5)
    case _ => s
  }

  /** drinkPotionAtIdx: the slot is emptied before the potion takes effect. */
  function DrinkPotionAtIdx(s: RunState, idx: int, gen: (Rng, CharacterClass) -> (Potion, Rng)): RunState
    requires PotionsConsistent(s) && 0 <= idx < POTION_SLOTS && s.potions[idx] != EMPTY_POTION_SLOT
  {
    var t := DiscardPotionAtIdx(s, idx);
    assert PotionsConsistent(t) by {
      SlotUpdateConsistent(s, idx, EMPTY_POTION_SLOT, s.potionCount - 1);
    }
    DrinkPotion(t, s.potions[idx], gen)
  }
}
