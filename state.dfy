/**
 * The game controller of lib/state.js: the operations the admin and team
 * routes call. Each one reads the game-state snapshot, checks its guards in
 * the order the source does, writes the snapshot (and the `team_state` rows)
 * back, and broadcasts its events.
 *
 * The database is the object's state: `rows` is the `team_state` table,
 * `settings` the `game_state` settings row (None while it is absent), and
 * `log` the events handed to `broadcast`, in order.
 */
module State {
  import opened Wrappers
  import opened Seqs
  import opened Snapshot
  import Bank
  import Events
  import Settlement

  /** The payloads of the events lib/state.js broadcasts. */
  datatype Payload =
    | Empty                                                    // hermes:cleared
    | ScoreUpdate(teams: seq<TeamView>)                        // score:update
    | Eligibility(eligibleSelectors: seq<string>)              // r1:eligibility
    | Selector(currentSelector: Option<string>)                // r1:selector
    | TopicSelected(username: string, topic: string,
                    selectedTopics: map<string, string>,
                    availableTopics: seq<string>)              // r1:topic:selected
    | Visibility(visible: bool)                                // r1:question, r2:question
    | QuestionSelected(id: Option<string>)                     // r1:question:selected, r2:question:selected
    | BuzzAllow(allowed: bool, winner: Option<string>)         // buzz:allow
    | BuzzWinner(winner: Option<string>, allowed: bool)        // buzz:winner
    | HermesUsed(username: string, teams: seq<TeamView>,
                 lastUsedBy: Option<string>)                   // hermes:used
    | TopicChanged(topic: string)                              // r2:topic
    | MaxBetChanged(maxBet: int)                               // r2:max-bet
    | OptionsChanged(options: seq<string>, visible: bool)      // r2:options
    | BetPlaced(username: string, amount: int)                 // r2:bet
    | AnswerSubmitted(username: string)                        // r2:answer
    | AnswerRevealed(correctAnswer: string)                    // r2:answer:revealed
    | Settled(pot: int, teams: seq<TeamView>)                  // r2:settled

  type Event = Events.Event<Payload>

  /** `{ ok: true, state, teams }` of `useHermes` and `r2Settle`. */
  datatype Outcome = Outcome(state: GameState, teams: seq<TeamView>)

  /**
   * What every operation keeps: the eligible selectors and the buzz winners
   * are sets, no topic is held twice and each held topic is a real one, the
   * bets are a well-formed object, and every bettor has a `team_state` row.
   */
  ghost predicate Consistent(st: GameState, rows: map<string, TeamRow>) {
    && Distinct(st.roundOne.eligibleSelectors)
    && Distinct(st.buzz.winners)
    && TopicsUnshared(st.roundOne.selectedTopics)
    && (forall u :: u in st.roundOne.selectedTopics ==> st.roundOne.selectedTopics[u] in TOPICS)
    && st.roundTwo.bets.WellFormed()
    && (forall u :: u in st.roundTwo.bets.order ==> u in rows)
  }

  /**
   * The largest bet `r2PlaceBet` admits: the team's score, and no more than
   * the max bet when one is set.
   */
  function BetCap(maxBet: int, score: int): (cap: int)
    ensures cap <= score
    ensures maxBet > 0 ==> cap <= maxBet
    ensures cap == score || (maxBet > 0 && cap == maxBet)
  {
    if maxBet > 0 && maxBet < score then maxBet else score
  }

  /** The round-two section `r2SetTopic` installs for a valid topic. */
  function TopicRound(bank: Bank.QuestionBank, topic: string): RoundTwo {
    var list := bank.R2ListQuestions(Some(topic));
    if |list| > 0 then
      RoundTwo(Some(topic), 0, Some(list[0].id), if list[0].text != "" then Some(list[0].text) else None,
               false, false, bank.R2ListOptions(Some(list[0].id)), NO_BETS, map[], None, Betting)
    else
      RoundTwo(Some(topic), 0, None, None, false, false, [], NO_BETS, map[], None, Betting)
  }

  /** The round-two section after a settlement: the topic stays, everything transient is cleared. */
  function ClearedRound(r2: RoundTwo): RoundTwo {
    r2.(currentQuestionId := None, currentQuestionText := None, questionVisible := false,
        optionsVisible := false, options := [], bets := NO_BETS, answers := map[],
        correctAnswer := None, maxBet := 0, stage := if Truthy(r2.topic) then Betting else Idle)
  }

  /** Clearing round two keeps the invariant, whatever the rows have become. */
  lemma ClearedConsistent(st: GameState, rows: map<string, TeamRow>, rows': map<string, TeamRow>)
    requires Consistent(st, rows)
    ensures Consistent(st.(roundTwo := ClearedRound(st.roundTwo)), rows')
  {
  }

  /** The loop `maxBet = Math.max(maxBet, stake)` over the correct bettors, from `maxBet = -1`. */
  method LargestStake(bets: BetBook, correctTeams: seq<string>) returns (maxBet: int)
    ensures maxBet == Settlement.MaxStake(bets, correctTeams)
  {
    maxBet := -1;
    var j := 0;
    while j < |correctTeams|
      invariant 0 <= j <= |correctTeams|
      invariant maxBet == Settlement.MaxStake(bets, correctTeams[..j])
    {
      assert correctTeams[..j + 1][..j] == correctTeams[..j];
      var s := Settlement.Stake(bets, correctTeams[j]);
      maxBet := if maxBet < s then s else maxBet;
      j := j + 1;
    }
    assert correctTeams[..j] == correctTeams;
  }

  /**
   * The winners `r2Settle` picks among the correct bettors: a sole one, or
   * those whose stake equals the largest stake among them.
   */
  method PickWinners(bets: BetBook, correctTeams: seq<string>) returns (winners: seq<string>)
    ensures winners == Settlement.Winners(bets, correctTeams)
  {
    winners := [];
    if |correctTeams| == 1 {
      winners := [correctTeams[0]];
    } else if |correctTeams| > 1 {
      var maxBet := LargestStake(bets, correctTeams);
      winners := Filter(correctTeams, u => Settlement.Stake(bets, u) == maxBet);
      FilterCongruent(correctTeams, u => Settlement.Stake(bets, u) == maxBet,
                      u => Settlement.Stake(bets, u) == Settlement.MaxStake(bets, correctTeams));
    }
  }

  class Game {
    /** The team users (`SELECT username FROM users WHERE role = 'team'`), in query order. */
    const teams: seq<string>
    const bank: Bank.QuestionBank
    var rows: map<string, TeamRow>
    var settings: Option<StoredState>
    ghost var log: seq<Event>

    ghost predicate Valid()
      reads this
    {
      Distinct(teams) && Consistent(Load(settings), rows)
    }

    /** Module load: the tables exist, `ensureTeamStateRows` has run, no game state is stored yet. */
    constructor (teams: seq<string>, bank: Bank.QuestionBank, rows: map<string, TeamRow>)
      requires Distinct(teams)
      ensures Valid()
      ensures this.teams == teams && this.bank == bank
      ensures this.rows == EnsureRows(rows, teams)
      ensures settings == None && log == []
    {
      this.teams := teams;
      this.bank := bank;
      this.rows := rows;
      settings := None;
      log := [];
      new;
      EnsureTeamStateRows();
    }

    /** `getGameState`. */
    function GetGameState(): GameState
      reads this
    {
      Load(settings)
    }

    /** `getTeams`. */
    function GetTeams(): seq<TeamView>
      reads this
    {
      TeamViews(rows, teams)
    }

    /** `getAvailableTopics`: the topics no team holds yet, in `TOPICS` order. */
    function GetAvailableTopics(): (r: seq<string>)
      reads this
      ensures forall t :: t in r <==> t in TOPICS && t !in GetGameState().roundOne.selectedTopics.Values
      ensures Distinct(r)
    {
      AvailableTopics(GetGameState().roundOne.selectedTopics)
    }

    /** `ensureTeamStateRows`: one `INSERT OR IGNORE` per team user. */
    method EnsureTeamStateRows()
      modifies this`rows
      ensures rows == EnsureRows(old(rows), teams)
    {
      var i := 0;
      while i < |teams|
        invariant 0 <= i <= |teams|
        invariant rows == EnsureRows(old(rows), teams[..i])
      {
        assert teams[..i + 1][..i] == teams[..i];
        var u := teams[i];
        if u !in rows {
          rows := rows[u := NEW_TEAM_ROW];
        }
        i := i + 1;
      }
      assert teams[..i] == teams;
    }

    /** `saveGameState`. */
    method Save(next: GameState)
      modifies this`settings
      ensures settings == Some(Persist(next))
      ensures GetGameState() == next
    {
      settings := Some(Persist(next));
    }

    /**
     * `adjustScore`: a truthy username with a row gains `delta` and the new
     * team list is broadcast; otherwise nothing changes.
     */
    method AdjustScore(username: Option<string>, delta: int, now: int) returns (result: seq<TeamView>)
      requires Valid()
      modifies this`rows, this`log
      ensures Valid()
      ensures result == GetTeams()
      ensures Truthy(username) && username.value in old(rows) ==>
        && rows == AddScore(old(rows), username.value, delta)
        && log == old(log) + [Events.MakeEvent("score:update", ScoreUpdate(result), now)]
      ensures !(Truthy(username) && username.value in old(rows)) ==> rows == old(rows) && log == old(log)
    {
      if !Truthy(username) || username.value !in rows {
        return GetTeams();
      }
      var u := username.value;
      rows := rows[u := rows[u].(score := rows[u].score + delta)];
      result := GetTeams();
      log := log + [Events.MakeEvent("score:update", ScoreUpdate(result), now)];
    }

    /** `setEligibleSelectors`: the list without repeats (an absent list clears it). */
    method SetEligibleSelectors(usernames: Option<seq<string>>, now: int) returns (state: GameState)
      requires Valid()
      modifies this`settings, this`log
      ensures Valid()
      ensures var st := old(GetGameState());
        state == st.(roundOne := st.roundOne.(eligibleSelectors := state.roundOne.eligibleSelectors))
      ensures usernames.None? ==> state.roundOne.eligibleSelectors == []
      ensures usernames.Some? ==> state.roundOne.eligibleSelectors == Dedup(usernames.value)
      ensures forall u :: u in state.roundOne.eligibleSelectors <==> usernames.Some? && u in usernames.value
      ensures GetGameState() == state
      ensures log == old(log) + [Events.MakeEvent("r1:eligibility", Eligibility(state.roundOne.eligibleSelectors), now)]
    {
      state := GetGameState();
      var selectors := if usernames.Some? then Dedup(usernames.value) else [];
      state := state.(roundOne := state.roundOne.(eligibleSelectors := selectors));
      Save(state);
      log := log + [Events.MakeEvent("r1:eligibility", Eligibility(selectors), now)];
    }

    /** `setCurrentSelector`: a falsy username clears the selector. */
    method SetCurrentSelector(username: Option<string>, now: int) returns (state: GameState)
      requires Valid()
      modifies this`settings, this`log
      ensures Valid()
      ensures var st := old(GetGameState());
        state == st.(roundOne := st.roundOne.(currentSelector := if Truthy(username) then username else None))
      ensures GetGameState() == state
      ensures log == old(log) + [Events.MakeEvent("r1:selector", Selector(state.roundOne.currentSelector), now)]
    {
      state := GetGameState();
      state := state.(roundOne := state.roundOne.(currentSelector := if Truthy(username) then username else None));
      Save(state);
      log := log + [Events.MakeEvent("r1:selector", Selector(state.roundOne.currentSelector), now)];
    }

    /**
     * `selectTopic`: only the current selector may claim a topic, and only
     * one of `TOPICS` that no team holds; the claim opens that topic and
     * ends the selector's turn.
     */
    method SelectTopic(username: Option<string>, topic: string, now: int) returns (res: Result<GameState>)
      requires Valid()
      modifies this`settings, this`log
      ensures Valid()
      ensures var r1 := old(GetGameState()).roundOne;
        && (!Truthy(username) || r1.currentSelector != username ==> res == Failure("Not allowed"))
        && (Truthy(username) && r1.currentSelector == username && topic !in TOPICS ==> res == Failure("Invalid topic"))
        && (Truthy(username) && r1.currentSelector == username && topic in TOPICS && topic in r1.selectedTopics.Values
            ==> res == Failure("Topic already taken"))
      ensures res.Failure? ==> settings == old(settings) && log == old(log)
      ensures res.Success? ==>
        var st := old(GetGameState());
        var u := username.value;
        && Truthy(username) && st.roundOne.currentSelector == username
        && topic in TOPICS && topic !in st.roundOne.selectedTopics.Values
        && res.value == GetGameState()
        && GetGameState() == st.(roundOne := st.roundOne.(
             selectedTopics := st.roundOne.selectedTopics[u := topic], currentQuestionTopic := Some(topic),
             currentTopicSelectedBy := Some(u), currentQuestionId := None, currentSelector := None))
        && log == old(log) + [Events.MakeEvent("r1:topic:selected",
             TopicSelected(u, topic, GetGameState().roundOne.selectedTopics, GetAvailableTopics()), now)]
    {
      var state := GetGameState();
      if !Truthy(username) || state.roundOne.currentSelector != username {
        return Failure("Not allowed");
      }
      if topic !in TOPICS {
        return Failure("Invalid topic");
      }
      var available := GetAvailableTopics();
      if topic !in available {
        return Failure("Topic already taken");
      }
      var u := username.value;
      ClaimKeepsTopicsUnshared(state.roundOne.selectedTopics, u, topic);
      state := state.(roundOne := state.roundOne.(
        selectedTopics := state.roundOne.selectedTopics[u := topic], currentQuestionTopic := Some(topic),
        currentTopicSelectedBy := Some(u), currentQuestionId := None, currentSelector := None));
      Save(state);
      log := log + [Events.MakeEvent("r1:topic:selected",
        TopicSelected(u, topic, state.roundOne.selectedTopics, GetAvailableTopics()), now)];
      return Success(state);
    }

    /** `setQuestionVisible` of round one. */
    method SetQuestionVisible(visible: bool, now: int) returns (state: GameState)
      requires Valid()
      modifies this`settings, this`log
      ensures Valid()
      ensures var st := old(GetGameState()); state == st.(roundOne := st.roundOne.(questionVisible := visible))
      ensures GetGameState() == state
      ensures log == old(log) + [Events.MakeEvent("r1:question", Visibility(visible), now)]
    {
      state := GetGameState();
      state := state.(roundOne := state.roundOne.(questionVisible := visible));
      Save(state);
      log := log + [Events.MakeEvent("r1:question", Visibility(visible), now)];
    }

    /**
     * `setCurrentQuestion`: an id must name a round-one question, of the
     * open topic when there is one; a new question closes and resets the buzzer.
     */
    method SetCurrentQuestion(id: Option<string>, now: int) returns (res: Result<GameState>)
      requires Valid()
      modifies this`settings, this`log
      ensures Valid()
      ensures var topic := old(GetGameState()).roundOne.currentQuestionTopic;
        && (Truthy(id) && id.value !in bank.r1 ==> res == Failure("Invalid question id"))
        && (Truthy(id) && id.value in bank.r1 && Truthy(topic) && bank.r1[id.value].topic != topic.value
            ==> res == Failure("Question does not match current topic"))
      ensures res.Failure? ==> settings == old(settings) && log == old(log)
      ensures res.Success? ==>
        var st := old(GetGameState());
        var qid := if Truthy(id) then id else None;
        && (Truthy(id) ==>
              && id.value in bank.r1
              && (Truthy(st.roundOne.currentQuestionTopic) ==> bank.r1[id.value].topic == st.roundOne.currentQuestionTopic.value))
        && res.value == GetGameState()
        && GetGameState() == st.(roundOne := st.roundOne.(currentQuestionId := qid), buzz := Buzz(false, None, []))
        && log == old(log) + [Events.MakeEvent("r1:question:selected", QuestionSelected(qid), now),
                              Events.MakeEvent("buzz:allow", BuzzAllow(false, None), now)]
    {
      var q := if Truthy(id) then bank.QuestionById(id.value) else None;
      if Truthy(id) && q.None? {
        return Failure("Invalid question id");
      }
      var state := GetGameState();
      if Truthy(id) && Truthy(state.roundOne.currentQuestionTopic) {
        if q.None? || q.value.topic != state.roundOne.currentQuestionTopic.value {
          return Failure("Question does not match current topic");
        }
      }
      var qid := if Truthy(id) then id else None;
      state := state.(roundOne := state.roundOne.(currentQuestionId := qid),
                      buzz := state.buzz.(allowed := false, winner := None, winners := []));
      Save(state);
      log := log + [Events.MakeEvent("r1:question:selected", QuestionSelected(qid), now)];
      log := log + [Events.MakeEvent("buzz:allow", BuzzAllow(false, None), now)];
      return Success(state);
    }

    /** `setBuzzAllowed`: opening the buzzer clears the winner; closing it keeps the winner. */
    method SetBuzzAllowed(allowed: bool, now: int) returns (state: GameState)
      requires Valid()
      modifies this`settings, this`log
      ensures Valid()
      ensures var st := old(GetGameState());
        state == st.(buzz := st.buzz.(allowed := allowed, winner := if allowed then None else st.buzz.winner))
      ensures GetGameState() == state
      ensures log == old(log) + [Events.MakeEvent("buzz:allow", BuzzAllow(allowed, state.buzz.winner), now)]
    {
      state := GetGameState();
      state := state.(buzz := state.buzz.(allowed := allowed));
      if allowed {
        state := state.(buzz := state.buzz.(winner := None));
      }
      Save(state);
      log := log + [Events.MakeEvent("buzz:allow", BuzzAllow(state.buzz.allowed, state.buzz.winner), now)];
    }

    /**
     * `buzzIn`: the first buzz of an open window wins and closes it. The team
     * that chose the topic and the earlier winners of the question may not buzz.
     */
    method BuzzIn(username: Option<string>, now: int) returns (res: Result<GameState>)
      requires Valid()
      modifies this`settings, this`log
      ensures Valid()
      ensures var b := old(GetGameState()).buzz; var chooser := old(GetGameState()).roundOne.currentTopicSelectedBy;
        && (!b.allowed || Truthy(b.winner) ==> res == Failure("Buzz not allowed"))
        && (b.allowed && !Truthy(b.winner) && Truthy(username) && chooser == username
            ==> res == Failure("Topic selector cannot buzz"))
        && (b.allowed && !Truthy(b.winner) && Truthy(username) && chooser != username && username.value in b.winners
            ==> res == Failure("Previous winner cannot buzz"))
      ensures res.Failure? ==> settings == old(settings) && log == old(log)
      ensures res.Success? ==>
        var st := old(GetGameState());
        var b := st.buzz;
        && b.allowed && !Truthy(b.winner)
        && (Truthy(username) ==> st.roundOne.currentTopicSelectedBy != username && username.value !in b.winners)
        && res.value == GetGameState()
        && GetGameState() == st.(buzz := Buzz(false, username,
             if Truthy(username) then b.winners + [username.value] else b.winners))
        && log == old(log) + [Events.MakeEvent("buzz:winner", BuzzWinner(username, false), now)]
    {
      var state := GetGameState();
      if !state.buzz.allowed || Truthy(state.buzz.winner) {
        return Failure("Buzz not allowed");
      }
      if Truthy(username) && state.roundOne.currentTopicSelectedBy == username {
        return Failure("Topic selector cannot buzz");
      }
      var prev := Dedup(state.buzz.winners);
      DedupDistinct(state.buzz.winners);
      if Truthy(username) && username.value in prev {
        return Failure("Previous winner cannot buzz");
      }
      state := state.(buzz := state.buzz.(winner := username, allowed := false));
      if Truthy(username) {
        prev := AddOnce(prev, username.value);
        state := state.(buzz := state.buzz.(winners := prev));
      }
      Save(state);
      log := log + [Events.MakeEvent("buzz:winner", BuzzWinner(username, false), now)];
      return Success(state);
    }

    /**
     * `useHermes`: each team with a row may use Hermes once; the use is
     * recorded on its row and as the visible cue.
     */
    method UseHermes(username: Option<string>, now: int) returns (res: Result<Outcome>)
      requires Valid()
      modifies this
      ensures Valid()
      ensures !Truthy(username) ==> res == Failure("Missing username") && rows == old(rows)
      ensures Truthy(username) ==>
        var u := username.value;
        var ensured := EnsureRows(old(rows), teams);
        && (u !in ensured ==> res == Failure("Unknown team") && rows == ensured)
        && (u in ensured && ensured[u].hermesUsed ==> res == Failure("Hermes already used") && rows == ensured)
        && (u in ensured && !ensured[u].hermesUsed ==>
              && rows == ensured[u := ensured[u].(hermesUsed := true)]
              && GetGameState() == old(GetGameState()).(hermes := Hermes(username))
              && res == Success(Outcome(GetGameState(), GetTeams()))
              && log == old(log) + [Events.MakeEvent("hermes:used", HermesUsed(u, GetTeams(), username), now)])
      ensures res.Failure? ==> settings == old(settings) && log == old(log)
    {
      if !Truthy(username) {
        return Failure("Missing username");
      }
      EnsureTeamStateRows();
      var u := username.value;
      if u !in rows {
        return Failure("Unknown team");
      }
      if rows[u].hermesUsed {
        return Failure("Hermes already used");
      }
      rows := rows[u := rows[u].(hermesUsed := true)];
      var state := GetGameState();
      state := state.(hermes := state.hermes.(lastUsedBy := username));
      Save(state);
      var updated := GetTeams();
      log := log + [Events.MakeEvent("hermes:used", HermesUsed(u, updated, state.hermes.lastUsedBy), now)];
      return Success(Outcome(state, updated));
    }

    /** `clearHermesCue`. */
    method ClearHermesCue(now: int) returns (state: GameState)
      requires Valid()
      modifies this`settings, this`log
      ensures Valid()
      ensures state == old(GetGameState()).(hermes := Hermes(None))
      ensures GetGameState() == state
      ensures log == old(log) + [Events.MakeEvent("hermes:cleared", Empty, now)]
    {
      state := GetGameState();
      state := state.(hermes := state.hermes.(lastUsedBy := None));
      Save(state);
      log := log + [Events.MakeEvent("hermes:cleared", Empty, now)];
    }

    // -------------------------------------------------------------------------
    // Round two

    /**
     * `r2SetTopic`: a topic of `TOPICS` starts a fresh betting round on it,
     * with the topic's first question and its options preselected.
     */
    method R2SetTopic(topic: string, now: int) returns (res: Result<GameState>)
      requires Valid()
      modifies this`settings, this`log
      ensures Valid()
      ensures topic !in TOPICS ==> res == Failure("Invalid topic") && settings == old(settings) && log == old(log)
      ensures topic in TOPICS ==>
        var list := bank.R2ListQuestions(Some(topic));
        var r2 := GetGameState().roundTwo;
        && res == Success(GetGameState())
        && GetGameState() == old(GetGameState()).(roundTwo := r2)
        && r2.topic == Some(topic) && r2.stage == Betting && r2.maxBet == 0
        && r2.bets == NO_BETS && r2.answers == map[] && r2.correctAnswer == None
        && !r2.questionVisible && !r2.optionsVisible
        && (|list| == 0 ==> r2.currentQuestionId == None && r2.currentQuestionText == None && r2.options == [])
        && (|list| > 0 ==>
              && r2.currentQuestionId == Some(list[0].id) && list[0].topic == topic
              && r2.currentQuestionText == (if list[0].text != "" then Some(list[0].text) else None)
              && r2.options == bank.R2ListOptions(Some(list[0].id)))
        && log == old(log) + [Events.MakeEvent("r2:topic", TopicChanged(topic), now)]
           + (if Truthy(r2.currentQuestionId)
              then [Events.MakeEvent("r2:question:selected", QuestionSelected(r2.currentQuestionId), now)] else [])
    {
      if topic !in TOPICS {
        return Failure("Invalid topic");
      }
      var state := GetGameState();
      state := state.(roundTwo := TopicRound(bank, topic));
      var list := bank.R2ListQuestions(Some(topic));
      if |list| > 0 {
        assert list[0] in list;
      }
      Save(state);
      log := log + [Events.MakeEvent("r2:topic", TopicChanged(topic), now)];
      if Truthy(state.roundTwo.currentQuestionId) {
        log := log + [Events.MakeEvent("r2:question:selected", QuestionSelected(state.roundTwo.currentQuestionId), now)];
      }
      return Success(state);
    }

    /** `r2SetMaxBet`: a negative max bet is stored as zero, which means no cap. */
    method R2SetMaxBet(maxBet: int, now: int) returns (state: GameState)
      requires Valid()
      modifies this`settings, this`log
      ensures Valid()
      ensures var st := old(GetGameState());
        state == st.(roundTwo := st.roundTwo.(maxBet := if maxBet > 0 then maxBet else 0))
      ensures state.roundTwo.maxBet >= 0
      ensures GetGameState() == state
      ensures log == old(log) + [Events.MakeEvent("r2:max-bet", MaxBetChanged(state.roundTwo.maxBet), now)]
    {
      state := GetGameState();
      var n := if maxBet > 0 then maxBet else 0;
      state := state.(roundTwo := state.roundTwo.(maxBet := n));
      Save(state);
      log := log + [Events.MakeEvent("r2:max-bet", MaxBetChanged(n), now)];
    }

    /**
     * `r2SelectQuestion`: an id names a round-one question or else a
     * round-two row, whose topic (when it has one) must be the round's topic;
     * the question's options are preloaded and the bets kept.
     */
    method R2SelectQuestion(id: Option<string>, now: int) returns (res: Result<GameState>)
      requires Valid()
      modifies this`settings, this`log
      ensures Valid()
      ensures Truthy(id) && bank.AnyQuestion(id.value).None? ==> res == Failure("Invalid question id")
      ensures var topic := old(GetGameState()).roundTwo.topic;
        Truthy(id) && bank.AnyQuestion(id.value).Some? && Truthy(topic)
          && bank.AnyQuestion(id.value).value.topic != "" && bank.AnyQuestion(id.value).value.topic != topic.value
        ==> res == Failure("Question does not match current topic")
      ensures res.Failure? ==> settings == old(settings) && log == old(log)
      ensures res.Success? ==>
        var st := old(GetGameState());
        var q := if Truthy(id) then bank.AnyQuestion(id.value) else None;
        var text := if q.Some? && q.value.text != "" then Some(q.value.text) else None;
        && (Truthy(id) ==> q.Some? && (Truthy(st.roundTwo.topic) && q.value.topic != "" ==> q.value.topic == st.roundTwo.topic.value))
        && res.value == GetGameState()
        && GetGameState() == st.(roundTwo := st.roundTwo.(
             currentQuestionId := if Truthy(id) then id else None, currentQuestionText := text,
             options := bank.R2ListOptions(id)))
        && log == old(log) + [Events.MakeEvent("r2:question:selected", QuestionSelected(GetGameState().roundTwo.currentQuestionId), now)]
    {
      var r1q := if Truthy(id) then bank.QuestionById(id.value) else None;
      var topic: Option<string> := None;
      var text: Option<string> := None;
      if Truthy(id) && r1q.None? {
        var row := bank.R2Lookup(id.value);
        if row.None? {
          return Failure("Invalid question id");
        }
        topic := Some(row.value.topic);
        text := if row.value.text != "" then Some(row.value.text) else None;
      } else if r1q.Some? {
        topic := Some(r1q.value.topic);
        text := if r1q.value.text != "" then Some(r1q.value.text) else None;
      }
      var state := GetGameState();
      if Truthy(id) && Truthy(state.roundTwo.topic) && Truthy(topic) && topic.value != state.roundTwo.topic.value {
        return Failure("Question does not match current topic");
      }
      state := state.(roundTwo := state.roundTwo.(
        currentQuestionId := if Truthy(id) then id else None, currentQuestionText := text,
        options := bank.R2ListOptions(id)));
      Save(state);
      log := log + [Events.MakeEvent("r2:question:selected", QuestionSelected(state.roundTwo.currentQuestionId), now)];
      return Success(state);
    }

    /** `r2SetQuestionVisible`: showing the question while betting moves the round to the question stage. */
    method R2SetQuestionVisible(visible: bool, now: int) returns (state: GameState)
      requires Valid()
      modifies this`settings, this`log
      ensures Valid()
      ensures var r2 := old(GetGameState()).roundTwo;
        state == old(GetGameState()).(roundTwo := r2.(questionVisible := visible,
          stage := if visible && r2.stage == Betting then Question else r2.stage))
      ensures GetGameState() == state
      ensures log == old(log) + [Events.MakeEvent("r2:question", Visibility(visible), now)]
    {
      state := GetGameState();
      state := state.(roundTwo := state.roundTwo.(questionVisible := visible));
      if visible && state.roundTwo.stage == Betting {
        state := state.(roundTwo := state.roundTwo.(stage := Question));
      }
      Save(state);
      log := log + [Events.MakeEvent("r2:question", Visibility(state.roundTwo.questionVisible), now)];
    }

    /**
     * `r2SetOptions`: replaces the options (no list clears them); a visibility
     * flag, when given, is stored, and showing the options opens the options stage.
     */
    method R2SetOptions(options: Option<seq<string>>, visible: Option<bool>, now: int) returns (state: GameState)
      requires Valid()
      modifies this`settings, this`log
      ensures Valid()
      ensures var r2 := old(GetGameState()).roundTwo;
        state == old(GetGameState()).(roundTwo := r2.(
          options := options.GetOr([]),
          optionsVisible := visible.GetOr(r2.optionsVisible),
          stage := if visible == Some(true) then Options else r2.stage))
      ensures GetGameState() == state
      ensures log == old(log) + [Events.MakeEvent("r2:options",
        OptionsChanged(state.roundTwo.options, state.roundTwo.optionsVisible), now)]
    {
      var list := options.GetOr([]);
      state := GetGameState();
      state := state.(roundTwo := state.roundTwo.(options := list));
      if visible.Some? {
        state := state.(roundTwo := state.roundTwo.(optionsVisible := visible.value));
        if visible.value {
          state := state.(roundTwo := state.roundTwo.(stage := Options));
        }
      }
      Save(state);
      log := log + [Events.MakeEvent("r2:options",
        OptionsChanged(state.roundTwo.options, state.roundTwo.optionsVisible), now)];
    }

    /**
     * `r2PlaceBet`: a team may bet while the round is betting or showing the
     * question, never below zero, never above its score or the max bet, and
     * not lower than its current bet once the question is shown.
     */
    method R2PlaceBet(username: Option<string>, amount: int, now: int) returns (res: Result<GameState>)
      requires Valid()
      modifies this
      ensures Valid()
      ensures !Truthy(username) ==> res == Failure("Missing username") && rows == old(rows)
      ensures Truthy(username) ==> rows == EnsureRows(old(rows), teams)
      ensures Truthy(username) ==>
        var u := username.value;
        var r2 := old(GetGameState()).roundTwo;
        var open := r2.stage == Betting || r2.stage == Question;
        var cap := BetCap(r2.maxBet, ViewOf(EnsureRows(old(rows), teams), u).score);
        var lowered := r2.stage == Question && amount < Settlement.Stake(r2.bets, u);
        && (u !in teams ==> res == Failure("Unknown team"))
        && (u in teams && !Truthy(r2.topic) ==> res == Failure("Topic not set"))
        && (u in teams && Truthy(r2.topic) && !open ==> res == Failure("Betting is closed"))
        && (u in teams && Truthy(r2.topic) && open && amount < 0 ==> res == Failure("Invalid amount"))
        && (u in teams && Truthy(r2.topic) && open && amount >= 0 && lowered
            ==> res == Failure("Cannot decrease bet after question reveal"))
        && (u in teams && Truthy(r2.topic) && open && amount >= 0 && !lowered && amount > cap
            ==> res == Failure("Bet exceeds allowed maximum or team score"))
        && (u in teams && Truthy(r2.topic) && open && 0 <= amount <= cap && !lowered ==>
              && res == Success(GetGameState())
              && GetGameState() == old(GetGameState()).(roundTwo := r2.(bets := r2.bets.Put(u, amount)))
              && log == old(log) + [Events.MakeEvent("r2:bet", BetPlaced(u, amount), now)])
      ensures res.Failure? ==> settings == old(settings) && log == old(log)
    {
      if !Truthy(username) {
        return Failure("Missing username");
      }
      EnsureTeamStateRows();
      var u := username.value;
      var team := FindTeam(GetTeams(), u);
      FindTeamViews(rows, teams, u);
      if team.None? {
        return Failure("Unknown team");
      }
      var state := GetGameState();
      if !Truthy(state.roundTwo.topic) {
        return Failure("Topic not set");
      }
      if state.roundTwo.stage != Betting && state.roundTwo.stage != Question {
        return Failure("Betting is closed");
      }
      var current := Settlement.Stake(state.roundTwo.bets, u);
      var maxAllowed := BetCap(state.roundTwo.maxBet, team.value.score);
      var next := amount;
      if next < 0 {
        return Failure("Invalid amount");
      }
      if state.roundTwo.stage == Question && next < current {
        return Failure("Cannot decrease bet after question reveal");
      }
      if next > maxAllowed {
        return Failure("Bet exceeds allowed maximum or team score");
      }
      state := state.(roundTwo := state.roundTwo.(bets := state.roundTwo.bets.Put(u, next)));
      Save(state);
      log := log + [Events.MakeEvent("r2:bet", BetPlaced(u, next), now)];
      return Success(state);
    }

    /**
     * `r2SubmitAnswer`: once the options are shown, a team's answer must be
     * one of them (any answer when there are none); a later answer replaces
     * an earlier one.
     */
    method R2SubmitAnswer(username: Option<string>, answer: Option<string>, now: int) returns (res: Result<GameState>)
      requires Valid()
      modifies this`settings, this`log
      ensures Valid()
      ensures var r2 := old(GetGameState()).roundTwo; var ans := answer.GetOr("");
        && (!Truthy(username) ==> res == Failure("Missing username"))
        && (Truthy(username) && !r2.optionsVisible ==> res == Failure("Options not revealed"))
        && (Truthy(username) && r2.optionsVisible && |r2.options| > 0 && ans !in r2.options
            ==> res == Failure("Invalid answer"))
      ensures res.Failure? ==> settings == old(settings) && log == old(log)
      ensures res.Success? ==>
        var r2 := old(GetGameState()).roundTwo; var ans := answer.GetOr(""); var u := username.value;
        && Truthy(username) && r2.optionsVisible && (|r2.options| > 0 ==> ans in r2.options)
        && res.value == GetGameState()
        && GetGameState() == old(GetGameState()).(roundTwo := r2.(answers := r2.answers[u := ans]))
        && log == old(log) + [Events.MakeEvent("r2:answer", AnswerSubmitted(u), now)]
    {
      if !Truthy(username) {
        return Failure("Missing username");
      }
      var state := GetGameState();
      if !state.roundTwo.optionsVisible {
        return Failure("Options not revealed");
      }
      var ans := answer.GetOr("");
      if |state.roundTwo.options| > 0 && ans !in state.roundTwo.options {
        return Failure("Invalid answer");
      }
      var u := username.value;
      state := state.(roundTwo := state.roundTwo.(answers := state.roundTwo.answers[u := ans]));
      Save(state);
      log := log + [Events.MakeEvent("r2:answer", AnswerSubmitted(u), now)];
      return Success(state);
    }

    /** `r2RevealCorrectAnswer`: records the correct answer (none is recorded as "") and reveals it. */
    method R2RevealCorrectAnswer(correctAnswer: Option<string>, now: int) returns (state: GameState)
      requires Valid()
      modifies this`settings, this`log
      ensures Valid()
      ensures var r2 := old(GetGameState()).roundTwo;
        state == old(GetGameState()).(roundTwo := r2.(correctAnswer := Some(correctAnswer.GetOr("")), stage := Revealed))
      ensures GetGameState() == state
      ensures log == old(log) + [Events.MakeEvent("r2:answer:revealed", AnswerRevealed(correctAnswer.GetOr("")), now)]
    {
      state := GetGameState();
      var correct := correctAnswer.GetOr("");
      state := state.(roundTwo := state.roundTwo.(correctAnswer := Some(correct), stage := Revealed));
      Save(state);
      log := log + [Events.MakeEvent("r2:answer:revealed", AnswerRevealed(correct), now)];
    }

    /** The first loop of the `r2Settle` transaction: every bettor pays its stake. */
    method DebitStakes(bets: BetBook, bettors: seq<string>)
      modifies this`rows
      ensures rows == Settlement.Debit(old(rows), bets, bettors)
    {
      var i := 0;
      while i < |bettors|
        invariant 0 <= i <= |bettors|
        invariant rows == Settlement.Debit(old(rows), bets, bettors[..i])
      {
        assert bettors[..i + 1][..i] == bettors[..i];
        var u := bettors[i];
        var amt := Settlement.Stake(bets, u);
        if amt > 0 && u in rows {
          rows := rows[u := rows[u].(score := rows[u].score - amt)];
        }
        i := i + 1;
      }
      assert bettors[..i] == bettors;
    }

    /**
     * The last loop of the `r2Settle` transaction: `floor(pot / k)` to each of
     * the `k` winners and one more unit to each of the first `pot % k`.
     */
    method CreditShares(winners: seq<string>, pot: int)
      requires |winners| > 0
      modifies this`rows
      ensures rows == Settlement.Credit(old(rows), winners, pot, |winners|)
    {
      var k := |winners|;
      var base := pot / k;
      var remainder := pot % k;
      var n := 0;
      while n < k
        invariant 0 <= n <= k
        invariant remainder == if n < pot % k then pot % k - n else 0
        invariant rows == Settlement.Credit(old(rows), winners[..n], pot, k)
      {
        assert winners[..n + 1][..n] == winners[..n];
        var u := winners[n];
        var inc := base + (if remainder > 0 then 1 else 0);
        assert inc == Settlement.Share(pot, k, n);
        if u in rows {
          rows := rows[u := rows[u].(score := rows[u].score + inc)];
        }
        if remainder > 0 {
          remainder := remainder - 1;
        }
        n := n + 1;
      }
      assert winners[..n] == winners;
    }

    /**
     * Lines 555-601 of `r2Settle`: the bettors are the team users among the
     * keys of `bets`, the pot is the sum of their stakes, and the transaction
     * debits every stake and credits the winners' shares.
     */
    method SettleScores(bets: BetBook, answers: map<string, string>, correct: string) returns (pot: int)
      modifies this`rows
      ensures pot == Settlement.PotOf(bets, teams)
      ensures rows == Settlement.SettleRows(old(rows), bets, answers, teams, correct)
    {
      var bettors := Settlement.Bettors(bets, teams);
      pot := Settlement.Pot(bets, bettors);
      var correctTeams := Settlement.CorrectTeams(bettors, answers, correct);
      DebitStakes(bets, bettors);
      var winners := PickWinners(bets, correctTeams);
      if |winners| > 0 && pot > 0 {
        CreditShares(winners, pot);
      }
    }

    /**
     * `r2Settle`: with a correct answer recorded, the team scores change as
     * `Settlement.SettleRows` says, which moves exactly the pot (see
     * `Settlement.SettlementConservesPot`), and the round is cleared for the
     * next question; the settlement event goes out before the cleared state
     * is saved.
     */
    method R2Settle(now: int) returns (res: Result<Outcome>)
      requires Valid()
      modifies this
      ensures Valid()
      ensures var r2 := old(GetGameState()).roundTwo;
        !Truthy(r2.correctAnswer) ==>
          res == Failure("Correct answer not set") && rows == old(rows) && settings == old(settings) && log == old(log)
      ensures var st := old(GetGameState()); var r2 := st.roundTwo;
        Truthy(r2.correctAnswer) ==>
          var correct := r2.correctAnswer.value;
          var pot := Settlement.PotOf(r2.bets, teams);
          && rows == Settlement.SettleRows(old(rows), r2.bets, r2.answers, teams, correct)
          && Settlement.Total(rows, teams) == Settlement.Total(old(rows), teams) - pot
               + (if |Settlement.WinnersOf(r2.bets, r2.answers, teams, correct)| > 0 then pot else 0)
          && GetGameState() == st.(roundTwo := ClearedRound(r2))
          && res == Success(Outcome(GetGameState(), GetTeams()))
          && log == old(log) + [Events.MakeEvent("r2:settled", Settled(pot, GetTeams()), now)]
    {
      var state := GetGameState();
      var correct := state.roundTwo.correctAnswer.GetOr("");
      if correct == "" {
        return Failure("Correct answer not set");
      }
      assert Truthy(state.roundTwo.correctAnswer) && correct == state.roundTwo.correctAnswer.value;
      Settlement.SettlementConservesPot(rows, state.roundTwo.bets, state.roundTwo.answers, teams, correct);
      ghost var rows0 := rows;
      var pot := SettleScores(state.roundTwo.bets, state.roundTwo.answers, correct);
      var updated := GetTeams();
      log := log + [Events.MakeEvent("r2:settled", Settled(pot, updated), now)];
      ClearedConsistent(state, rows0, rows);
      state := state.(roundTwo := ClearedRound(state.roundTwo));
      Save(state);
      return Success(Outcome(state, updated));
    }

    /** `r2RevealAnswer`: reveal the correct answer, then settle. */
    method R2RevealAnswer(correctAnswer: Option<string>, now: int) returns (res: Result<Outcome>)
      requires Valid()
      modifies this
      ensures Valid()
      ensures var st := old(GetGameState()); var r2 := st.roundTwo; var correct := correctAnswer.GetOr("");
        && (correct == "" ==>
              && res == Failure("Correct answer not set") && rows == old(rows)
              && GetGameState() == st.(roundTwo := r2.(correctAnswer := Some(""), stage := Revealed)))
        && (correct != "" ==>
              && rows == Settlement.SettleRows(old(rows), r2.bets, r2.answers, teams, correct)
              && GetGameState() == st.(roundTwo := ClearedRound(r2))
              && res == Success(Outcome(GetGameState(), GetTeams())))
      ensures |log| == |old(log)| + (if correctAnswer.GetOr("") == "" then 1 else 2)
      ensures log[..|old(log)|] == old(log)
      ensures log[|old(log)|] == Events.MakeEvent("r2:answer:revealed", AnswerRevealed(correctAnswer.GetOr("")), now)
      ensures var r2 := old(GetGameState()).roundTwo; var correct := correctAnswer.GetOr("");
        correct != "" ==>
          var pot := Settlement.PotOf(r2.bets, teams);
          && log[|old(log)| + 1] == Events.MakeEvent("r2:settled", Settled(pot, GetTeams()), now)
          && Settlement.Total(rows, teams) == Settlement.Total(old(rows), teams) - pot
               + (if |Settlement.WinnersOf(r2.bets, r2.answers, teams, correct)| > 0 then pot else 0)
    {
      ghost var st := GetGameState();
      var _ := R2RevealCorrectAnswer(correctAnswer, now);
      ghost var r2 := GetGameState().roundTwo;
      assert r2.correctAnswer == Some(correctAnswer.GetOr(""));
      assert r2.bets == st.roundTwo.bets && r2.answers == st.roundTwo.answers;
      assert ClearedRound(r2) == ClearedRound(st.roundTwo);
      res := R2Settle(now);
    }
  }
}
