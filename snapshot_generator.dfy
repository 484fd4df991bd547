/** The pure parts and the loop control of the combat snapshot generator
    (tests/utils/snapshot_generator.cpp): std::stoi, the action-string parser,
    the generator's own scenario loader, and the action loop that counts turns
    and stops once the battle is decided. The battle itself is abstract: its
    validation, execution and outcome are parameters. */
module SnapshotGenerator {
  import opened Wrappers
  import opened Cards
  import opened Characters
  import opened MonsterEncounters
  import opened Decimal
  import opened GameRules
  import opened GameContext2
  import opened Scenarios

  const INT32_MIN: int := -0x8000_0000
  const INT32_MAX: int := 0x7FFF_FFFF

  // ---------------------------------------------------------------------
  // std::stoi

  /** The characters C's isspace accepts. */
  predicate IsSpace(c: char)
  {
    c == ' ' || c == '\t' || c == '\n' || c == '\U{0B}' || c == '\U{0C}' || c == '\r'
  }

  function SkipSpaces(s: string): (r: string)
    ensures |r| <= |s|
    ensures r == [] || !IsSpace(r[0])
  {
    if s != [] && IsSpace(s[0]) then SkipSpaces(s[1..]) else s
  }

  /** The optional sign: whether it is a minus, and what follows it. */
  function SplitSign(t: string): (bool, string)
  {
    if |t| > 0 && (t[0] == '-' || t[0] == '+') then (t[0] == '-', t[1..]) else (false, t)
  }

  /** The number read from the digits after the sign, when it fits in int. */
  function SignedValue(negative: bool, body: string): Option<int>
  {
    var digits := LeadingDigits(body);
    if digits == [] then None
    else
      var v: int := if negative then -(DigitsValue(digits) as int) else DigitsValue(digits);
      if INT32_MIN <= v <= INT32_MAX then Some(v) else None
  }

  /** std::stoi in base 10: leading white space, an optional sign, then at
      least one digit; anything after the digits is ignored. No digit, or a
      value outside int's 32 bits, throws (None here). */
  function Stoi(s: string): (r: Option<int>)
    ensures r.Some? ==> INT32_MIN <= r.value <= INT32_MAX
  {
    var t := SplitSign(SkipSpaces(s));
    SignedValue(t.0, t.1)
  }

  /** Digits followed by a non-digit, after the sign has been split off, give their signed value. */
  lemma SignedValueOfDigits(negative: bool, d: string, rest: string)
    requires d != [] && AllDigits(d)
    requires rest == [] || !IsDigit(rest[0])
    requires INT32_MIN <= (if negative then -(DigitsValue(d) as int) else DigitsValue(d)) <= INT32_MAX
    ensures SignedValue(negative, d + rest) == Some(if negative then -(DigitsValue(d) as int) else DigitsValue(d))
  {
    LeadingDigitsOfConcat(d, rest);
  }

  /** An int written in decimal, followed by anything that does not start with a digit, reads back as that int. */
  lemma StoiReadsDecimal(n: int, rest: string)
    requires INT32_MIN <= n <= INT32_MAX
    requires rest == [] || !IsDigit(rest[0])
    ensures Stoi(IntToDecimal(n) + rest) == Some(n)
  {
    if n < 0 {
      StoiReadsNegative(-n, rest);
    } else {
      StoiReadsNonNegative(n, rest);
    }
  }

  lemma StoiReadsNonNegative(m: nat, rest: string)
    requires m <= INT32_MAX
    requires rest == [] || !IsDigit(rest[0])
    ensures Stoi(NatToDecimal(m) + rest) == Some(m)
  {
    var d := NatToDecimal(m);
    DecimalRoundTrip(m);
    var s := d + rest;
    assert s[0] == d[0];
    assert SkipSpaces(s) == s;
    assert SplitSign(s) == (false, s);
    SignedValueOfDigits(false, d, rest);
  }

  lemma StoiReadsNegative(m: nat, rest: string)
    requires 0 < m <= -INT32_MIN
    requires rest == [] || !IsDigit(rest[0])
    ensures Stoi("-" + NatToDecimal(m) + rest) == Some(-(m as int))
  {
    var d := NatToDecimal(m);
    DecimalRoundTrip(m);
    var body := d + rest;
    var s := "-" + d + rest;
    assert s == ['-'] + body;
    assert SkipSpaces(s) == s;
    assert SplitSign(s) == (true, body);
    SignedValueOfDigits(true, d, rest);
  }

  lemma {:induction false} SkipSpacesOfConcat(ws: string, s: string)
    requires forall i :: 0 <= i < |ws| ==> IsSpace(ws[i])
    ensures SkipSpaces(ws + s) == SkipSpaces(s)
  {
    if ws != [] {
      assert (ws + s)[0] == ws[0];
      assert (ws + s)[1..] == ws[1..] + s;
      SkipSpacesOfConcat(ws[1..], s);
    } else {
      assert ws + s == s;
    }
  }

  /** Leading white space is skipped. */
  lemma StoiSkipsSpaces(ws: string, s: string)
    requires forall i :: 0 <= i < |ws| ==> IsSpace(ws[i])
    ensures Stoi(ws + s) == Stoi(s)
  {
    SkipSpacesOfConcat(ws, s);
  }

  /** A number beyond int's range is rejected rather than wrapped. */
  lemma StoiRejectsOutOfRange(n: nat)
    requires n > INT32_MAX
    ensures Stoi(NatToDecimal(n)) == None
  {
    var d := NatToDecimal(n);
    DecimalRoundTrip(n);
    LeadingDigitsOfConcat(d, []);
    assert d + [] == d;
    assert !IsSpace(d[0]);
    assert SkipSpaces(d) == d;
    assert SplitSign(d) == (false, d);
  }

  /** Without a digit after the white space and one sign there is no number. */
  lemma StoiNeedsADigit(s: string)
    requires var body := SplitSign(SkipSpaces(s)).1;
      body == [] || !IsDigit(body[0])
    ensures Stoi(s) == None
  {
  }

  // ---------------------------------------------------------------------
  // parseAction

  /** The search actions the parser can build; the target is always 0. */
  datatype Action = EndTurn | PlayCard(cardIdx: int, target: int) | UsePotion(potionIdx: int, target: int)

  /** std::string::substr(pos, len) for pos <= |s|: at most `len` characters from `pos`. */
  function Substr(s: string, pos: nat, len: nat): (r: string)
    requires pos <= |s|
    ensures |r| == Min(len, |s| - pos)
  {
    s[pos..Min(pos + len, |s|)]
  }

  /** std::string::substr(pos): throws when pos is past the end. */
  function SubstrFrom(s: string, pos: nat): Option<string>
  {
    if pos > |s| then None else Some(s[pos..])
  }

  /** parseAction as written. The potion branch compares a 13-character
      prefix with an 11-character literal, so it matches only the exact string
      "use_potion_", whose substr(13) then throws; the error is caught. */
  function ParseAction(s: string): Option<Action>
  {
    if s == "end_turn" then Some(EndTurn)
    else if Substr(s, 0, 10) == "play_card_" then
      match Stoi(s[10..])
      case Some(i) => Some(PlayCard(i, 0))
      case None => None
    else if Substr(s, 0, 13) == "use_potion_" then
      match SubstrFrom(s, 13)
      case None => None
      case Some(rest) =>
        match Stoi(rest)
        case Some(i) => Some(UsePotion(i, 0))
        case None => None
    else None
  }

  lemma ParseEndTurn()
    ensures ParseAction("end_turn") == Some(EndTurn)
  {
  }

  /** "play_card_" followed by a decimal int (and anything not starting with a digit) plays that card against target 0. */
  lemma ParsePlayCard(n: int, rest: string)
    requires INT32_MIN <= n <= INT32_MAX
    requires rest == [] || !IsDigit(rest[0])
    ensures ParseAction("play_card_" + IntToDecimal(n) + rest) == Some(PlayCard(n, 0))
  {
    var s := "play_card_" + IntToDecimal(n) + rest;
    assert Substr(s, 0, 10) == "play_card_";
    assert s[10..] == IntToDecimal(n) + rest;
    StoiReadsDecimal(n, rest);
  }

  /** No string ever parses to a potion action. */
  lemma ParseNeverUsesPotion(s: string)
    ensures !(ParseAction(s).Some? && ParseAction(s).value.UsePotion?)
  {
    if s != "end_turn" && Substr(s, 0, 10) != "play_card_" && Substr(s, 0, 13) == "use_potion_" {
      assert |s| == 11;
    }
  }

  /** Exactly "end_turn" and the play_card_ strings with a readable number parse; every other string gives nothing. */
  lemma ParseAcceptsOnly(s: string)
    ensures ParseAction(s) == Some(EndTurn) <==> s == "end_turn"
    ensures ParseAction(s).Some? && s != "end_turn" ==>
      |s| >= 10 && s[..10] == "play_card_" && Stoi(s[10..]).Some?
      && ParseAction(s) == Some(PlayCard(Stoi(s[10..]).value, 0))
  {
    ParseNeverUsesPotion(s);
    if s != "end_turn" && ParseAction(s).Some? {
      assert Substr(s, 0, 10) == "play_card_";
    }
  }

  // ---------------------------------------------------------------------
  // executeActionSequence

  datatype BattleOutcome = UNDECIDED | PLAYER_VICTORY | PLAYER_LOSS

  /** What one action contributes to the snapshot: executed at a turn, or skipped. */
  datatype Step = Executed(turn: int, action: string) | Invalid(action: string) | Unknown(action: string)

  /** The operations of the battle that the loop uses; the battle itself is not part of this model. */
  datatype Battle<!B> = Battle(isValid: (Action, B) -> bool, execute: (Action, B) -> B, outcome: B -> BattleOutcome)

  /** One action: unknown and invalid actions are skipped without touching the
      battle; an executed "end_turn" advances the turn number. */
  function StepAction<B>(ops: Battle<B>, action: string, bc: B, turn: int): (B, int, Step)
  {
    match ParseAction(action)
    case None => (bc, turn, Unknown(action))
    case Some(a) =>
      if ops.isValid(a, bc) then
        (ops.execute(a, bc), if action == "end_turn" then turn + 1 else turn, Executed(turn, action))
      else (bc, turn, Invalid(action))
  }

  /** The loop from a given battle and turn: after each step, executed or
      skipped, the loop stops if the battle is decided. */
  function RunActions<B>(ops: Battle<B>, actions: seq<string>, bc: B, turn: int): (B, int, seq<Step>)
  {
    if actions == [] then (bc, turn, [])
    else
      var r := StepAction(ops, actions[0], bc, turn);
      if ops.outcome(r.0) != BattleOutcome.UNDECIDED then (r.0, r.1, [r.2])
      else
        var rest := RunActions(ops, actions[1..], r.0, r.1);
        (rest.0, rest.1, [r.2] + rest.2)
  }

  /** The body of executeActionSequence's loop, up to the outcome test. */
  method ExecuteStep<B>(ops: Battle<B>, action: string, bc: B, turn: int) returns (bc': B, turn': int, step: Step)
    ensures (bc', turn', step) == StepAction(ops, action, bc, turn)
  {
    bc', turn' := bc, turn;
    var parsed := ParseAction(action);
    if parsed.Some? {
      if ops.isValid(parsed.value, bc) {
        step := Executed(turn, action);
        bc' := ops.execute(parsed.value, bc);
        if action == "end_turn" {
          turn' := turn + 1;
        }
      } else {
        step := Invalid(action);
      }
    } else {
      step := Unknown(action);
    }
  }

  /** executeActionSequence: the turn number starts at 1. */
  method ExecuteActionSequence<B>(ops: Battle<B>, bc0: B, actions: seq<string>) returns (bc: B, log: seq<Step>)
    ensures (bc, log) == (RunActions(ops, actions, bc0, 1).0, RunActions(ops, actions, bc0, 1).2)
  {
    bc := bc0;
    log := [];
    var turnNumber := 1;
    var i := 0;
    assert actions[0..] == actions;
    assert log + RunActions(ops, actions, bc0, 1).2 == RunActions(ops, actions, bc0, 1).2;
    while i < |actions|
      invariant i <= |actions|
      invariant var rest := RunActions(ops, actions[i..], bc, turnNumber);
        RunActions(ops, actions, bc0, 1) == (rest.0, rest.1, log + rest.2)
    {
      assert actions[i..][1..] == actions[i + 1..];
      assert actions[i..][0] == actions[i];
      ghost var before := log;
      var step;
      bc, turnNumber, step := ExecuteStep(ops, actions[i], bc, turnNumber);
      log := log + [step];
      if ops.outcome(bc) != BattleOutcome.UNDECIDED {
        return;
      }
      ghost var rest := RunActions(ops, actions[i + 1..], bc, turnNumber);
      assert before + ([step] + rest.2) == log + rest.2;
      i := i + 1;
    }
    assert actions[i..] == [];
    assert log + [] == log;
  }

  function EndTurnsExecuted(log: seq<Step>): nat
  {
    if log == [] then 0
    else
      var last := log[|log| - 1];
      EndTurnsExecuted(log[..|log| - 1]) + (if last.Executed? && last.action == "end_turn" then 1 else 0)
  }

  /** Each step names its action, in order; the log is as long as the actions
      unless the battle ended early, and then it ended at the last logged step. */
  lemma {:induction false} LogFollowsActions<B>(ops: Battle<B>, actions: seq<string>, bc: B, turn: int)
    ensures var r := RunActions(ops, actions, bc, turn);
      && |r.2| <= |actions|
      && (forall i :: 0 <= i < |r.2| ==> r.2[i].action == actions[i])
      && (|r.2| < |actions| ==> ops.outcome(r.0) != BattleOutcome.UNDECIDED)
      && (actions != [] ==> |r.2| > 0)
  {
    if actions != [] {
      var first := StepAction(ops, actions[0], bc, turn);
      if ops.outcome(first.0) == BattleOutcome.UNDECIDED {
        LogFollowsActions(ops, actions[1..], first.0, first.1);
      }
    }
  }

  /** One step advances the turn number by the end_turn it executed, if any. */
  lemma StepTurn<B>(ops: Battle<B>, action: string, bc: B, turn: int)
    ensures var r := StepAction(ops, action, bc, turn);
      && r.1 == turn + EndTurnsExecuted([r.2])
      && (r.2.Executed? ==> r.2.turn == turn)
  {
    var r := StepAction(ops, action, bc, turn);
    assert [r.2][..0] == [];
  }

  /** The final turn number is the starting turn plus the end_turn actions executed. */
  lemma {:induction false} FinalTurnCountsEndTurns<B>(ops: Battle<B>, actions: seq<string>, bc: B, turn: int)
    ensures var r := RunActions(ops, actions, bc, turn);
      r.1 == turn + EndTurnsExecuted(r.2)
  {
    if actions != [] {
      var first := StepAction(ops, actions[0], bc, turn);
      StepTurn(ops, actions[0], bc, turn);
      if ops.outcome(first.0) == BattleOutcome.UNDECIDED {
        var rest := RunActions(ops, actions[1..], first.0, first.1);
        FinalTurnCountsEndTurns(ops, actions[1..], first.0, first.1);
        EndTurnsOfConcat([first.2], rest.2);
      }
    }
  }

  /** Every executed step of `log` carries `turn` plus the end_turn actions executed before it. */
  predicate TurnsCounted(log: seq<Step>, turn: int)
  {
    forall i :: 0 <= i < |log| && log[i].Executed? ==> log[i].turn == turn + EndTurnsExecuted(log[..i])
  }

  /** The turn number of every executed step is the starting turn plus the
      end_turn actions executed before it. */
  lemma {:induction false} TurnCounting<B>(ops: Battle<B>, actions: seq<string>, bc: B, turn: int)
    ensures TurnsCounted(RunActions(ops, actions, bc, turn).2, turn)
  {
    if actions != [] {
      var first := StepAction(ops, actions[0], bc, turn);
      StepTurn(ops, actions[0], bc, turn);
      if ops.outcome(first.0) == BattleOutcome.UNDECIDED {
        var rest := RunActions(ops, actions[1..], first.0, first.1);
        TurnCounting(ops, actions[1..], first.0, first.1);
        var log := [first.2] + rest.2;
        assert RunActions(ops, actions, bc, turn).2 == log;
        forall i | 0 <= i < |log| && log[i].Executed?
          ensures log[i].turn == turn + EndTurnsExecuted(log[..i])
        {
          if i == 0 {
            assert log[..0] == [];
          } else {
            assert log[..i] == [first.2] + rest.2[..i - 1];
            EndTurnsOfConcat([first.2], rest.2[..i - 1]);
            var j := i - 1;
            assert log[i] == rest.2[j];
            assert 0 <= j < |rest.2| && rest.2[j].Executed?;
            assert rest.2[j].turn == first.1 + EndTurnsExecuted(rest.2[..j]);
          }
        }
      } else {
        assert [first.2][..0] == [];
      }
    }
  }

  lemma {:induction false} EndTurnsOfConcat(a: seq<Step>, b: seq<Step>)
    ensures EndTurnsExecuted(a + b) == EndTurnsExecuted(a) + EndTurnsExecuted(b)
  {
    if b == [] {
      assert a + b == a;
    } else {
      assert (a + b)[..|a + b| - 1] == a + b[..|b| - 1];
      EndTurnsOfConcat(a, b[..|b| - 1]);
    }
  }

  /** Once a nonempty prefix of the actions has decided the battle, the rest is never looked at. */
  lemma {:induction false} RunStopsOnceDecided<B>(ops: Battle<B>, a: seq<string>, b: seq<string>, bc: B, turn: int)
    requires a != []
    requires ops.outcome(RunActions(ops, a, bc, turn).0) != BattleOutcome.UNDECIDED
    ensures RunActions(ops, a + b, bc, turn) == RunActions(ops, a, bc, turn)
  {
    assert (a + b)[0] == a[0];
    assert (a + b)[1..] == a[1..] + b;
    var r := StepAction(ops, a[0], bc, turn);
    if ops.outcome(r.0) == BattleOutcome.UNDECIDED {
      RunStopsOnceDecided(ops, a[1..], b, r.0, r.1);
    }
  }

  /** While the battle stays undecided, running a then b is running a and then b from where a left off. */
  lemma {:induction false} RunContinues<B>(ops: Battle<B>, a: seq<string>, b: seq<string>, bc: B, turn: int)
    requires ops.outcome(RunActions(ops, a, bc, turn).0) == BattleOutcome.UNDECIDED
    ensures var r1 := RunActions(ops, a, bc, turn);
      var r2 := RunActions(ops, b, r1.0, r1.1);
      RunActions(ops, a + b, bc, turn) == (r2.0, r2.1, r1.2 + r2.2)
  {
    if a == [] {
      assert a + b == b;
      assert [] + RunActions(ops, b, bc, turn).2 == RunActions(ops, b, bc, turn).2;
    } else {
      assert (a + b)[0] == a[0];
      assert (a + b)[1..] == a[1..] + b;
      var r := StepAction(ops, a[0], bc, turn);
      assert ops.outcome(r.0) == BattleOutcome.UNDECIDED;
      var ra := RunActions(ops, a[1..], r.0, r.1);
      RunContinues(ops, a[1..], b, r.0, r.1);
      var r2 := RunActions(ops, b, ra.0, ra.1);
      assert [r.2] + (ra.2 + r2.2) == ([r.2] + ra.2) + r2.2;
    }
  }

  /** When no action is executed the battle and the turn number are untouched. */
  lemma {:induction false} SkippedActionsLeaveBattle<B>(ops: Battle<B>, actions: seq<string>, bc: B, turn: int)
    requires forall i :: 0 <= i < |RunActions(ops, actions, bc, turn).2| ==> !RunActions(ops, actions, bc, turn).2[i].Executed?
    ensures RunActions(ops, actions, bc, turn).0 == bc
    ensures RunActions(ops, actions, bc, turn).1 == turn
  {
    if actions != [] {
      var r := StepAction(ops, actions[0], bc, turn);
      var log := RunActions(ops, actions, bc, turn).2;
      assert log[0] == r.2;
      assert r.0 == bc && r.1 == turn;
      if ops.outcome(r.0) == BattleOutcome.UNDECIDED {
        var rest := RunActions(ops, actions[1..], r.0, r.1);
        assert log == [r.2] + rest.2;
        forall i | 0 <= i < |rest.2| ensures !rest.2[i].Executed? {
          assert log[i + 1] == rest.2[i];
        }
        SkippedActionsLeaveBattle(ops, actions[1..], r.0, r.1);
      }
    }
  }

  // ---------------------------------------------------------------------
  // The generator's own scenario loader

  /** The generator's deck rule: only the exact names STRIKE, DEFEND and BASH
      add a card (never upgraded); everything else, "STRIKE+" included, is ignored. */
  function GeneratorCard(entry: string): Option<Card>
  {
    if entry == "STRIKE" then Some(Card(STRIKE_RED, false))
    else if entry == "DEFEND" then Some(Card(DEFEND_RED, false))
    else if entry == "BASH" then Some(Card(BASH, false))
    else None
  }

  function GeneratorDeck(entries: seq<string>): seq<Card>
  {
    if entries == [] then []
    else
      GeneratorDeck(entries[..|entries| - 1])
        + (match GeneratorCard(entries[|entries| - 1]) case Some(c) => [c] case None => [])
  }

  /** Every card of the generator's deck is an unupgraded Strike, Defend or Bash, one per recognised entry. */
  lemma {:induction false} GeneratorDeckCards(entries: seq<string>)
    ensures |GeneratorDeck(entries)| <= |entries|
    ensures forall c :: c in GeneratorDeck(entries) ==> !c.upgraded && c.id in {STRIKE_RED, DEFEND_RED, BASH}
    ensures (forall e :: e in entries ==> e !in {"STRIKE", "DEFEND", "BASH"}) ==> GeneratorDeck(entries) == []
  {
    if entries != [] {
      var init := entries[..|entries| - 1];
      GeneratorDeckCards(init);
      assert entries[|entries| - 1] in entries;
      forall e | e in init ensures e in entries {
        var k :| 0 <= k < |init| && init[k] == e;
        assert entries[k] == e;
      }
    }
  }

  /** CombatSnapshotGenerator::createGameContextFromScenario: an Ironclad run
      with the scenario's HP, encounter lookup and the restricted deck; the
      relics are not read. */
  method CreateGeneratorContext(t: Tables, scenario: Scenario) returns (gc: GameContext)
    requires 0 <= scenario.seed < UINT64_MODULUS
    ensures fresh(gc) && gc.Valid()
    ensures gc.cc == IRONCLAD && gc.seed == scenario.seed && gc.ascension == scenario.ascension
    ensures gc.curHp == scenario.initialState.playerHp && gc.maxHp == scenario.initialState.playerMaxHp
    ensures scenario.initialState.encounter in t.encounterNames ==>
      gc.encounter == t.encounterOf(NameIndex(t.encounterNames, scenario.initialState.encounter))
    ensures gc.deck == GeneratorDeck(scenario.initialState.deck)
    ensures gc.relics == []
  {
    gc := new GameContext(IRONCLAD, scenario.seed, scenario.ascension);
    var init := scenario.initialState;
    var index := FindName(t.encounterNames, init.encounter);
    var encounter := if index < |t.encounterNames| then t.encounterOf(index) else gc.encounter;
    UnknownEncounterKeepsCurrent(t, init.encounter, gc.encounter);

    var deck: seq<Card> := [];
    var k := 0;
    while k < |init.deck|
      invariant k <= |init.deck|
      invariant deck == GeneratorDeck(init.deck[..k])
    {
      assert init.deck[..k + 1][..k] == init.deck[..k];
      var entry := init.deck[k];
      if entry == "STRIKE" {
        deck := deck + [Card(STRIKE_RED, false)];
      } else if entry == "DEFEND" {
        deck := deck + [Card(DEFEND_RED, false)];
      } else if entry == "BASH" {
        deck := deck + [Card(BASH, false)];
      }
      k := k + 1;
    }
    assert init.deck[..k] == init.deck;
    SetPlayerAndDeck(gc, init.playerHp, init.playerMaxHp, encounter, deck);
  }
}
