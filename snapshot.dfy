/**
 * The game-state snapshot of lib/state.js: the four sections kept as one JSON
 * value in the settings row `game_state`, the defaults every read fills in,
 * and the rows of the `team_state` table.
 */
module Snapshot {
  import opened Wrappers
  import opened Seqs

  /** The round-one topics (`TOPICS`); round two draws its topic from the same list. */
  const TOPICS: seq<string> := ["Nội khoa", "Ngoại khoa", "Sản–Nhi", "Tâm thần–Thần kinh"]

  // ---------------------------------------------------------------------------
  // team_state

  /** A row of `team_state`, keyed by username. */
  datatype TeamRow = TeamRow(score: int, hermesUsed: bool)

  const NEW_TEAM_ROW := TeamRow(0, false)

  /** An entry of the list `getTeams` returns. */
  datatype TeamView = TeamView(username: string, score: int, hermesUsed: bool)

  /** The entry of `getTeams` for one team user: its row, or zero and unused when it has none. */
  function ViewOf(rows: map<string, TeamRow>, u: string): (v: TeamView)
    ensures v.username == u
    ensures u in rows ==> v.score == rows[u].score && v.hermesUsed == rows[u].hermesUsed
    ensures u !in rows ==> v.score == 0 && !v.hermesUsed
  {
    if u in rows then TeamView(u, rows[u].score, rows[u].hermesUsed) else TeamView(u, 0, false)
  }

  /** `getTeams`: one entry per team user, in the order the users query returns them. */
  function TeamViews(rows: map<string, TeamRow>, teams: seq<string>): (r: seq<TeamView>)
    ensures |r| == |teams|
    ensures forall i :: 0 <= i < |teams| ==> r[i] == ViewOf(rows, teams[i])
  {
    seq(|teams|, i requires 0 <= i < |teams| => ViewOf(rows, teams[i]))
  }

  /** `teams.find(t => t.username === u)`. */
  function FindTeam(views: seq<TeamView>, u: string): (r: Option<TeamView>)
    ensures r.None? <==> forall i :: 0 <= i < |views| ==> views[i].username != u
    ensures r.Some? ==> r.value in views && r.value.username == u
  {
    if views == [] then None
    else if views[0].username == u then Some(views[0])
    else FindTeam(views[1..], u)
  }

  /** Looking a user up in `getTeams` finds its entry exactly when it is a team user. */
  lemma {:induction false} FindTeamViews(rows: map<string, TeamRow>, teams: seq<string>, u: string)
    ensures FindTeam(TeamViews(rows, teams), u) == if u in teams then Some(ViewOf(rows, u)) else None
  {
    var views := TeamViews(rows, teams);
    var r := FindTeam(views, u);
    if u in teams {
      var i :| 0 <= i < |teams| && teams[i] == u;
      assert views[i].username == u;
      var j :| 0 <= j < |views| && views[j] == r.value;
      assert views[j] == ViewOf(rows, teams[j]);
    } else {
      forall i | 0 <= i < |views| ensures views[i].username != u {
        assert views[i] == ViewOf(rows, teams[i]);
      }
    }
  }

  /** `UPDATE team_state SET score = score + d WHERE username = u`: no row, no change. */
  function AddScore(rows: map<string, TeamRow>, u: string, d: int): (r: map<string, TeamRow>)
    ensures r.Keys == rows.Keys
    ensures u in rows ==> r[u] == rows[u].(score := rows[u].score + d)
    ensures forall v :: v in rows && v != u ==> r[v] == rows[v]
  {
    if u in rows then rows[u := rows[u].(score := rows[u].score + d)] else rows
  }

  /**
   * The table after `ensureTeamStateRows`: every team user has a row, new rows
   * start at zero and unused, and existing rows are untouched (INSERT OR IGNORE).
   */
  function EnsureRows(rows: map<string, TeamRow>, teams: seq<string>): (r: map<string, TeamRow>)
    ensures forall u :: u in r <==> u in rows || u in teams
    ensures forall u :: u in rows ==> r[u] == rows[u]
    ensures forall u :: u in r && u !in rows ==> r[u] == NEW_TEAM_ROW
  {
    if teams == [] then rows
    else
      var init := teams[..|teams| - 1];
      var u := teams[|teams| - 1];
      assert forall v :: v in teams <==> v in init || v == u;
      var r := EnsureRows(rows, init);
      if u in r then r else r[u := NEW_TEAM_ROW]
  }

  // ---------------------------------------------------------------------------
  // The game state

  /**
   * `bets`: a JSON object, whose keys `Object.keys` lists in insertion order.
   * `order` is that key order and `amounts` the values.
   */
  datatype BetBook = BetBook(order: seq<string>, amounts: map<string, int>) {
    ghost predicate WellFormed() {
      Distinct(order) && forall u :: u in amounts <==> u in order
    }

    /** `bets[u] || 0`. */
    function Get(u: string): int {
      if u in amounts then amounts[u] else 0
    }

    /** `bets[u] = n`: a new key is appended to the order, an existing one keeps its place. */
    function Put(u: string, n: int): (b: BetBook)
      ensures WellFormed() ==> b.WellFormed()
      ensures b.Get(u) == n && u in b.amounts
      ensures forall v :: v != u ==> b.Get(v) == Get(v) && (v in b.amounts <==> v in amounts)
      ensures WellFormed() ==> b.order == AddOnce(order, u)
    {
      BetBook(if u in amounts then order else order + [u], amounts[u := n])
    }
  }

  const NO_BETS := BetBook([], map[])

  /** The round-two `stage` (idle | betting | question | options | revealed). */
  datatype Stage = Idle | Betting | Question | Options | Revealed

  datatype RoundOne = RoundOne(
    eligibleSelectors: seq<string>,
    currentSelector: Option<string>,
    selectedTopics: map<string, string>,
    questionVisible: bool,
    currentQuestionId: Option<string>,
    currentQuestionTopic: Option<string>,
    currentTopicSelectedBy: Option<string>)

  datatype RoundTwo = RoundTwo(
    topic: Option<string>,
    maxBet: int,
    currentQuestionId: Option<string>,
    currentQuestionText: Option<string>,
    questionVisible: bool,
    optionsVisible: bool,
    options: seq<string>,
    bets: BetBook,
    answers: map<string, string>,
    correctAnswer: Option<string>,
    stage: Stage)

  datatype Buzz = Buzz(allowed: bool, winner: Option<string>, winners: seq<string>)

  datatype Hermes = Hermes(lastUsedBy: Option<string>)

  datatype GameState = GameState(roundOne: RoundOne, roundTwo: RoundTwo, buzz: Buzz, hermes: Hermes)

  const DEFAULT_ROUND_ONE := RoundOne([], None, map[], false, None, None, None)
  const DEFAULT_ROUND_TWO := RoundTwo(None, 0, None, None, false, false, [], NO_BETS, map[], None, Idle)
  const DEFAULT_BUZZ := Buzz(false, None, [])
  const DEFAULT_HERMES := Hermes(None)

  /** `defaultGameState()`. */
  const DEFAULT_STATE := GameState(DEFAULT_ROUND_ONE, DEFAULT_ROUND_TWO, DEFAULT_BUZZ, DEFAULT_HERMES)

  // ---------------------------------------------------------------------------
  // What the settings row holds: any section, and any key in it, may be absent.

  datatype StoredRoundOne = StoredRoundOne(
    eligibleSelectors: Option<seq<string>>,
    currentSelector: Option<Option<string>>,
    selectedTopics: Option<map<string, string>>,
    questionVisible: Option<bool>,
    currentQuestionId: Option<Option<string>>,
    currentQuestionTopic: Option<Option<string>>,
    currentTopicSelectedBy: Option<Option<string>>)

  datatype StoredRoundTwo = StoredRoundTwo(
    topic: Option<Option<string>>,
    maxBet: Option<int>,
    currentQuestionId: Option<Option<string>>,
    currentQuestionText: Option<Option<string>>,
    questionVisible: Option<bool>,
    optionsVisible: Option<bool>,
    options: Option<seq<string>>,
    bets: Option<BetBook>,
    answers: Option<map<string, string>>,
    correctAnswer: Option<Option<string>>,
    stage: Option<Stage>)

  datatype StoredBuzz = StoredBuzz(allowed: Option<bool>, winner: Option<Option<string>>, winners: Option<seq<string>>)

  datatype StoredHermes = StoredHermes(lastUsedBy: Option<Option<string>>)

  datatype StoredState = StoredState(
    roundOne: Option<StoredRoundOne>,
    roundTwo: Option<StoredRoundTwo>,
    buzz: Option<StoredBuzz>,
    hermes: Option<StoredHermes>)

  function MergeRoundOne(p: Option<StoredRoundOne>): RoundOne {
    var d := DEFAULT_ROUND_ONE;
    match p
    case None => d
    case Some(s) =>
      RoundOne(
        s.eligibleSelectors.GetOr(d.eligibleSelectors),
        s.currentSelector.GetOr(d.currentSelector),
        s.selectedTopics.GetOr(d.selectedTopics),
        s.questionVisible.GetOr(d.questionVisible),
        s.currentQuestionId.GetOr(d.currentQuestionId),
        s.currentQuestionTopic.GetOr(d.currentQuestionTopic),
        s.currentTopicSelectedBy.GetOr(d.currentTopicSelectedBy))
  }

  function MergeRoundTwo(p: Option<StoredRoundTwo>): RoundTwo {
    var d := DEFAULT_ROUND_TWO;
    match p
    case None => d
    case Some(s) =>
      RoundTwo(
        s.topic.GetOr(d.topic),
        s.maxBet.GetOr(d.maxBet),
        s.currentQuestionId.GetOr(d.currentQuestionId),
        s.currentQuestionText.GetOr(d.currentQuestionText),
        s.questionVisible.GetOr(d.questionVisible),
        s.optionsVisible.GetOr(d.optionsVisible),
        s.options.GetOr(d.options),
        s.bets.GetOr(d.bets),
        s.answers.GetOr(d.answers),
        s.correctAnswer.GetOr(d.correctAnswer),
        s.stage.GetOr(d.stage))
  }

  function MergeBuzz(p: Option<StoredBuzz>): Buzz {
    var d := DEFAULT_BUZZ;
    match p
    case None => d
    case Some(s) => Buzz(s.allowed.GetOr(d.allowed), s.winner.GetOr(d.winner), s.winners.GetOr(d.winners))
  }

  function MergeHermes(p: Option<StoredHermes>): Hermes {
    match p
    case None => DEFAULT_HERMES
    case Some(s) => Hermes(s.lastUsedBy.GetOr(DEFAULT_HERMES.lastUsedBy))
  }

  /**
   * `getGameState`: no row (or an unreadable one) gives the defaults; otherwise
   * each section's stored keys are spread over that section's defaults.
   */
  function Load(stored: Option<StoredState>): (s: GameState)
    ensures stored.None? ==> s == DEFAULT_STATE
    ensures stored.Some? && stored.value.roundOne.None? ==> s.roundOne == DEFAULT_ROUND_ONE
    ensures stored.Some? && stored.value.roundTwo.None? ==> s.roundTwo == DEFAULT_ROUND_TWO
    ensures stored.Some? && stored.value.buzz.None? ==> s.buzz == DEFAULT_BUZZ
    ensures stored.Some? && stored.value.hermes.None? ==> s.hermes == DEFAULT_HERMES
  {
    match stored
    case None => DEFAULT_STATE
    case Some(st) => GameState(MergeRoundOne(st.roundOne), MergeRoundTwo(st.roundTwo), MergeBuzz(st.buzz), MergeHermes(st.hermes))
  }

  /** `saveGameState`: every key is written, so reading the row back gives exactly what was saved. */
  function Persist(s: GameState): (stored: StoredState)
    ensures Load(Some(stored)) == s
    ensures stored.roundOne.Some? && stored.roundTwo.Some? && stored.buzz.Some? && stored.hermes.Some?
  {
    var r1, r2 := s.roundOne, s.roundTwo;
    StoredState(
      Some(StoredRoundOne(
        Some(r1.eligibleSelectors), Some(r1.currentSelector), Some(r1.selectedTopics), Some(r1.questionVisible),
        Some(r1.currentQuestionId), Some(r1.currentQuestionTopic), Some(r1.currentTopicSelectedBy))),
      Some(StoredRoundTwo(
        Some(r2.topic), Some(r2.maxBet), Some(r2.currentQuestionId), Some(r2.currentQuestionText),
        Some(r2.questionVisible), Some(r2.optionsVisible), Some(r2.options), Some(r2.bets),
        Some(r2.answers), Some(r2.correctAnswer), Some(r2.stage))),
      Some(StoredBuzz(Some(s.buzz.allowed), Some(s.buzz.winner), Some(s.buzz.winners))),
      Some(StoredHermes(Some(s.hermes.lastUsedBy))))
  }

  // ---------------------------------------------------------------------------
  // Topic bookkeeping of round one

  /** No topic is held by two teams. */
  ghost predicate TopicsUnshared(selected: map<string, string>) {
    forall u, v :: u in selected && v in selected && u != v ==> selected[u] != selected[v]
  }

  /** The four topics are different strings (their lengths already differ). */
  lemma TopicsDistinct()
    ensures Distinct(TOPICS)
  {
    assert |TOPICS[0]| == 8 && |TOPICS[1]| == 10 && |TOPICS[2]| == 7 && |TOPICS[3]| == 18;
  }

  /** `getAvailableTopics`: the topics no team holds, in `TOPICS` order. */
  function AvailableTopics(selected: map<string, string>): (r: seq<string>)
    ensures forall t :: t in r <==> t in TOPICS && t !in selected.Values
    ensures Distinct(r)
  {
    TopicsDistinct();
    Filter(TOPICS, t => t !in selected.Values)
  }

  /** The available topics keep the order of `TOPICS`. */
  lemma AvailableTopicsInOrder(selected: map<string, string>, x: string, y: string)
    requires Precedes(TOPICS, x, y) && x !in selected.Values && y !in selected.Values
    ensures Precedes(AvailableTopics(selected), x, y)
  {
    FilterKeepsOrder(TOPICS, t => t !in selected.Values, x, y);
  }

  /**
   * A claim of an unheld topic keeps topics unshared; the claimant's earlier
   * topic, if any, is released.
   */
  lemma ClaimKeepsTopicsUnshared(selected: map<string, string>, u: string, t: string)
    requires TopicsUnshared(selected)
    requires t !in selected.Values
    ensures TopicsUnshared(selected[u := t])
    ensures (selected[u := t]).Values == selected.Values - (if u in selected then {selected[u]} else {}) + {t}
  {
    var m := selected[u := t];
    forall x | x in m.Values
      ensures x in selected.Values - (if u in selected then {selected[u]} else {}) + {t}
    {
      var w :| w in m && m[w] == x;
      if w != u {
        assert selected[w] == x;
      }
    }
    forall x | x in selected.Values - (if u in selected then {selected[u]} else {}) + {t}
      ensures x in m.Values
    {
      if x != t {
        var w :| w in selected && selected[w] == x;
        assert w != u;
        assert m[w] == x;
      } else {
        assert m[u] == t;
      }
    }
  }
}
