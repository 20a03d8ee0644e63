# A verified model of the quiz-show game controller

The system runs a live, two-round medical quiz. Teams log in to the web app and an admin drives the game. lib/state.js is the controller behind every admin and team action:

- **Round one.** The admin names the teams that may choose a topic and picks the current selector. That team claims one of four topics, and each topic can be held by only one team. The admin then shows a question of that topic and opens the buzzer. The first team to buzz wins the turn. The team that chose the topic cannot buzz, and neither can a team that already won on this question.
- **Hermes.** Each team may use this power-up once.
- **Round two.** The admin sets a topic and, optionally, a maximum bet. Teams bet part of their score. They may not lower a bet once the question is shown. The admin reveals the options and the teams answer. The admin then reveals the correct answer and settles the round. Every bettor pays its stake into the pot. The correct bettors with the highest stake split the pot, and the remainder goes one unit each to the first of them.

Most operations follow the same pattern. An operation reads the stored game state, filled in with defaults. It checks its guards in a fixed order and returns the first error. It writes the state back, and then it broadcasts events to the open event streams. There are two exceptions. `adjustScore` reads no game state: it changes only the `team_state` table and then broadcasts. `r2Settle` broadcasts `r2:settled` first, and saves the cleared round only after that. The read-only getters change nothing and send nothing.

lib/events.js is the in-memory event bus. lib/round.js keeps the round the whole event is in, together with a second subscriber set of the same kind.

The model has one Dafny module per concern:

| module | file | what it models |
|---|---|---|
| `Wrappers` | wrappers.dfy | `Option`, `Result`, and JavaScript truthiness of a possibly-missing string |
| `Seqs` | seqs.dfy | `Array.prototype.filter`, and the insertion-ordered JavaScript `Set` (`add`, `delete`, `[...new Set(s)]`) |
| `Events` | events.dfy | lib/events.js: `makeEvent`, and the subscriber set as class `Channel` |
| `Round` | round.dfy | lib/round.js: `roundPath`, the `getCurrentRound` fallback, and class `RoundSetting` for `setCurrentRound` |
| `Snapshot` | snapshot.dfy | the game-state snapshot (`getGameState` defaults, `saveGameState`), the `team_state` rows, `getTeams`, the bets object, and topic availability |
| `Bank` | bank.dfy | the read-only question tables, as lookups |
| `Settlement` | settlement.dfy | what `r2Settle` does to the scores, as functions, with the payout lemmas |
| `State` | state.dfy | class `Game`: every operation of lib/state.js, as a method over the tables |

### How the tables become state

- **`team_state`** becomes `Game.rows`, a map from username to `TeamRow(score, hermesUsed)`.
- **The team users** become `Game.teams`, in the order `getTeams` lists them.
- **The `game_state` settings row** becomes `Game.settings`. It is `None` while the row is absent. `Snapshot.Load` reads it with defaults, and `Snapshot.Persist` writes every key.
- **The event log.** Each call to `broadcast` appends its event to the ghost field `Game.log`, so the order of emission is part of the contracts. `Date.now()` is passed in as `now`.
- **`bets`** is a JavaScript object, and settlement walks its keys in insertion order. It becomes `BetBook(order, amounts)`.
- **JavaScript falsy values.** A value that may be `null`, `undefined` or `""` becomes an `Option<string>`. `Truthy` tells the cases apart.

### Invariant and main results

`Game.Valid()` is kept by every operation. It states:

- no round-one topic is held by two teams, and every held topic is one of `TOPICS`;
- the eligible selectors and the buzz winners have no repeats;
- the bets object is well formed;
- every bettor has a `team_state` row.

The last point is what makes settlement pay out exactly the pot. `Settlement.SettlementConservesPot` states that conservation: over all teams, settlement takes the pot from the bettors and gives it back in full when someone answered correctly. `Settlement.SharesSumToPot` and `Settlement.SharesAreFair` give the split: the shares add up to the pot, and they differ by at most one, with the earlier winners never getting less.

### Behaviour worth knowing

- The round-two stages are `idle | betting | question | options | revealed` (lib/state.js:99).
- Settlement compares answers by exact string equality (lib/state.js:564).
- `setCurrentQuestion` loads no options.
- After settling, the topic is kept and the round goes back to `betting`. It goes to `idle` only when no topic is set (lib/state.js:621).

## Model

| member | source | states |
|---|---|---|
| Events.MakeEvent | lib/events.js:21-23 | the event carries exactly the given type, payload and timestamp |
| Events.SurvivorsMembers | lib/events.js:11-19 | the handlers left after a broadcast are exactly the snapshot's handlers that did not throw; a set stays a set |
| Events.DeliveryStep | lib/events.js:12-17 | calling one handler removes it from the live set exactly when it throws, and leaves everything else in place |
| Events.Channel.constructor | lib/events.js:4 | the subscriber set starts empty |
| Events.Channel.Subscribe | lib/events.js:6-7 | the handler is subscribed afterwards; subscribing it again changes nothing; the set keeps no repeats |
| Events.Channel.Unsubscribe | lib/events.js:8 | removes exactly that handler, keeps every other one in order, and reports whether it was present |
| Events.Channel.Deliver | lib/events.js:13-17 | one step of the loop: the next snapshot handler is called, and it is deleted exactly when it throws |
| Events.Channel.Broadcast | lib/events.js:11-19 | every handler subscribed at the start is called once, in subscription order; afterwards exactly the ones that did not throw remain |
| Round.RoundPath | lib/round.js:5-16 | each valid round maps to the page of its own name; any other input maps to `/pre-round-one` |
| Round.RoundPathInjective | lib/round.js:5-16 | different valid rounds get different pages |
| Round.CurrentRound | lib/round.js:36-43 | the result is always a valid round: the stored value when it is valid, otherwise `pre-round-one` |
| Round.RoundSetting.constructor | lib/round.js:19 | the round's subscriber set starts empty |
| Round.RoundSetting.GetCurrentRound | lib/round.js:36-43 | always returns a valid round |
| Round.RoundSetting.SetCurrentRound | lib/round.js:45-54 | an invalid round fails with "Invalid round", writes nothing and sends nothing; a valid round is stored, then read back by `getCurrentRound`, and broadcast to the subscribers, which evicts the ones that throw |
| Seqs.FilterKeepsOrder | lib/state.js:559 | `Array.prototype.filter` keeps the kept elements in their original relative order |
| Seqs.FilterFirst | lib/state.js:399-406 | the first element a filter keeps is the first element of the input that passes |
| Seqs.AddOnce | lib/events.js:7 | `Set.add`: the element is present afterwards, nothing else is added, and no repeats appear |
| Seqs.Without | lib/events.js:8 | `Set.delete`: the element is gone, every other element stays, and no repeats appear |
| Seqs.Dedup | lib/state.js:168-170 | `[...new Set(s)]` has no repeats and the same members as `s` |
| Seqs.DedupDistinct | lib/state.js:301-309 | a list without repeats is unchanged by `[...new Set(s)]` |
| Seqs.DedupIdempotent | lib/state.js:168-170 | deduplicating twice is the same as deduplicating once |
| Seqs.DedupAppend | lib/state.js:307-309 | deduplicating a list with one more element is adding that element to the deduplicated list |
| Snapshot.ViewOf | lib/state.js:27-37 | a team user's entry shows its row's score and Hermes flag, or zero and unused when it has no row |
| Snapshot.TeamViews | lib/state.js:19-39 | `getTeams` yields one entry per team user, in order |
| Snapshot.FindTeam | lib/state.js:483 | finds an entry with that username exactly when one exists |
| Snapshot.FindTeamViews | lib/state.js:482-484 | looking a user up in `getTeams` finds its entry exactly when it is a team user |
| Snapshot.AddScore | lib/state.js:157-160 | only that user's score changes, by exactly `delta`; a user without a row changes nothing; no row is added or removed |
| Snapshot.EnsureRows | lib/state.js:42-53 | afterwards every team user has a row; new rows start at zero and unused; existing rows are untouched |
| Snapshot.BetBook.Put | lib/state.js:506 | only that user's bet changes; a new bettor joins the key order last, and an existing one keeps its place |
| Snapshot.Load | lib/state.js:111-143 | no stored row gives the default state, and a missing section gives that section's defaults |
| Snapshot.Persist | lib/state.js:145-148 | reading back what was saved gives exactly the saved state |
| Snapshot.TopicsDistinct | lib/state.js:6-11 | the four topics are different |
| Snapshot.AvailableTopics | lib/state.js:193-197 | a topic is available exactly when it is one of `TOPICS` and no team holds it; no repeats |
| Snapshot.AvailableTopicsInOrder | lib/state.js:193-197 | the available topics keep the order of `TOPICS` |
| Snapshot.ClaimKeepsTopicsUnshared | lib/state.js:208-212 | claiming an unheld topic keeps every topic held at most once, and releases the claimant's earlier topic |
| Bank.QuestionBank.QuestionById | lib/questions.js:21-32 | finds a round-one question exactly when its id exists |
| Bank.QuestionBank.R2ListQuestions | lib/state.js:399-406 | with a topic, lists exactly the round-two rows of that topic; without one, lists every row |
| Bank.QuestionBank.R2FirstOfTopic | lib/state.js:372-375 | the first question listed for a topic, which `r2SetTopic` preselects, is the first row of that topic in table order |
| Bank.QuestionBank.R2Lookup | lib/state.js:421-427 | finds a round-two row exactly when one has that id, and returns that row's topic and text |
| Bank.Find | lib/state.js:422-424 | the same lookup, over any list of rows |
| Bank.QuestionBank.AnyQuestion | lib/state.js:417-431 | a round-one question takes precedence; otherwise the round-two row of that id |
| Bank.QuestionBank.R2ListOptions | lib/state.js:408-414 | no id, or an id without options, gives `[]`; otherwise that question's options |
| Settlement.Bettors | lib/state.js:557-559 | the bettors are exactly the bet keys that are team users, with no repeats |
| Settlement.Pot | lib/state.js:560-563 | the pot is never negative |
| Settlement.CorrectTeams | lib/state.js:564 | exactly the bettors whose answer equals the correct answer |
| Settlement.MaxStakeIsMax | lib/state.js:583-586 | the running maximum bounds every correct bettor's stake and is attained by one of them; it is -1 only when there are none |
| Settlement.WinnersAreTopCorrectBettors | lib/state.js:579-590 | the winners are exactly the correct bettors that no correct bettor outbids; there are winners exactly when someone answered correctly |
| Settlement.SharesPrefix | lib/state.js:591-598 | the first `n` shares add up to `n * floor(pot/k)` plus one for each of the first `pot mod k` winners among them |
| Settlement.SharesSumToPot | lib/state.js:591-598 | the `k` shares add up to the pot |
| Settlement.SharesAreFair | lib/state.js:594-598 | two winners' shares differ by at most one, and an earlier winner never gets less |
| Settlement.Debit | lib/state.js:574-577 | the debit pass adds and removes no rows |
| Settlement.Credit | lib/state.js:591-599 | the credit pass adds and removes no rows |
| Settlement.SettleRows | lib/state.js:573-601 | the transaction adds and removes no rows |
| Settlement.DebitTotal | lib/state.js:574-577 | compared over the team users, the debit pass lowers the total by exactly the pot |
| Settlement.CreditTotal | lib/state.js:591-599 | the credit pass raises the total by exactly the sum of the shares |
| Settlement.SettlementConservesPot | lib/state.js:559-601 | over all team users, the scores lose the pot, and regain all of it exactly when there is a winner |
| Settlement.DebitAt | lib/state.js:574-577 | each bettor's score drops by its stake, and every other row is unchanged |
| Settlement.CreditAt | lib/state.js:591-599 | the `i`-th winner gains its share, and every other row is unchanged |
| Settlement.WinnerNet | lib/state.js:573-601 | a winner ends with its score, less its stake, plus its share of a nonzero pot |
| Settlement.EarlierWinnerNotLess | lib/state.js:557-598 | the winners keep the key order of `bets`: a winner earlier in key order sits earlier in the list and gets no smaller share |
| Settlement.LoserNet | lib/state.js:573-601 | a non-winner ends with its score less its stake, if it bet |
| State.BetCap | lib/state.js:494-497 | the cap never exceeds the team's score, nor the max bet when one is set |
| State.LargestStake | lib/state.js:583-586 | the loop computes the running maximum of the correct bettors' stakes |
| State.PickWinners | lib/state.js:579-590 | picks exactly the winners `Settlement.Winners` defines |
| State.Game.constructor | lib/state.js:42-55 | at module load every team user has a row, no game state is stored, and nothing has been broadcast |
| State.Game.GetAvailableTopics | lib/state.js:193-197 | the topics no team holds, without repeats |
| State.Game.EnsureTeamStateRows | lib/state.js:42-53 | the loop inserts a fresh row for each team user that lacks one, and nothing else |
| State.Game.Save | lib/state.js:145-148 | the next read returns exactly the saved state |
| State.Game.AdjustScore | lib/state.js:151-164 | for a truthy username with a row, only that score changes, by `delta`, and `score:update` carries the new team list; otherwise nothing changes and nothing is sent |
| State.Game.SetEligibleSelectors | lib/state.js:166-178 | only the eligible selectors change: they become the given names without repeats (an absent list gives `[]`); then `r1:eligibility` |
| State.Game.SetCurrentSelector | lib/state.js:180-191 | only the selector changes, and a falsy username clears it; then `r1:selector` |
| State.Game.SelectTopic | lib/state.js:199-229 | fails with "Not allowed", "Invalid topic" or "Topic already taken", in that order, and then changes nothing; on success the team holds the topic, replacing its earlier pick, the topic becomes current, and the question and selector are cleared; then `r1:topic:selected` with the new available topics; no topic is ever held twice |
| State.Game.SetQuestionVisible | lib/state.js:231-239 | only the round-one visibility changes; then `r1:question` |
| State.Game.SetCurrentQuestion | lib/state.js:241-271 | fails on an unknown id, or on a question whose topic is not the current topic; on success the buzz state becomes exactly closed, with no winner and no winners; `r1:question:selected` comes before `buzz:allow` |
| State.Game.SetBuzzAllowed | lib/state.js:277-289 | opening clears the winner and keeps the winners; closing keeps both; then `buzz:allow` |
| State.Game.BuzzIn | lib/state.js:291-314 | fails with the state unchanged when the buzzer is closed or already won, when the caller chose the topic, or when the caller already won; on success the caller is the winner, the buzzer is closed, and the caller is appended to the winners once; then `buzz:winner` |
| State.Game.UseHermes | lib/state.js:316-340 | with a truthy username, rows are first ensured; a user without a row fails with "Unknown team", a used Hermes fails with "Hermes already used", and otherwise only that team's flag is set and the cue names it; then `hermes:used` |
| State.Game.ClearHermesCue | lib/state.js:342-348 | only `lastUsedBy` is cleared; then `hermes:cleared` |
| State.Game.R2SetTopic | lib/state.js:354-388 | an invalid topic fails; a valid topic resets every round-two field, sets the stage to betting, and preselects the topic's first question and its options; `r2:topic` comes first, then `r2:question:selected` when a question was found |
| State.Game.R2SetMaxBet | lib/state.js:390-397 | only the max bet changes, and it is never negative; then `r2:max-bet` |
| State.Game.R2SelectQuestion | lib/state.js:416-446 | an unknown id fails; a question whose non-empty topic differs from the round's topic fails; on success the id, the text and the preloaded options change, and the bets and stage are kept; then `r2:question:selected` |
| State.Game.R2SetQuestionVisible | lib/state.js:448-459 | only the visibility changes, and showing the question moves betting to question and no other stage; then `r2:question` |
| State.Game.R2SetOptions | lib/state.js:461-477 | the options are replaced (or cleared); a given visibility flag is stored, and showing the options enters the options stage; then `r2:options` |
| State.Game.R2PlaceBet | lib/state.js:479-510 | each of the seven errors occurs exactly under its guard, in the source's order; an accepted bet is at least zero, at most the cap, and not lower than the team's current bet once the question is shown; only that team's bet changes; then `r2:bet` |
| State.Game.R2SubmitAnswer | lib/state.js:512-526 | fails without a username, before the options are shown, or on an answer outside a non-empty option list; on success only that team's answer changes; then `r2:answer` |
| State.Game.R2RevealCorrectAnswer | lib/state.js:535-547 | only the correct answer (a missing one is stored as "") and the stage, which becomes revealed, change; then `r2:answer:revealed` |
| State.Game.DebitStakes | lib/state.js:574-577 | the loop lowers each bettor's score by its stake |
| State.Game.CreditShares | lib/state.js:591-599 | the loop, with its decrementing remainder, pays each winner its share |
| State.Game.SettleScores | lib/state.js:555-601 | computes the pot, and leaves the rows as the settlement defines them |
| State.Game.R2Settle | lib/state.js:549-625 | fails with nothing changed when no correct answer is set; otherwise the scores are settled, the total moves by exactly the pot, the transient fields are cleared with the topic kept, and `r2:settled` carries the pot and the new team list |
| State.Game.R2RevealAnswer | lib/state.js:528-533 | reveals, then settles: an empty answer is recorded and the settlement fails; otherwise the scores are settled, the total moves by exactly the pot, and the round is cleared; the reveal event comes first, then `r2:settled` with the pot and the new team list |

## Left out

- SQLite I/O, schema creation and the `users` table are not modelled. The tables are the object's fields, and the team users are a constant.
- JSON parsing of the settings row is not modelled. An unreadable row reads as absent. `Game` starts with no stored game state. At start-up lib/state.js reads the row its own previous run left behind. The model covers that case only as the continuation of one `Game` object.
- Keys outside the modelled fields, and stage strings other than the five above, are not representable.
- Events.Channel.Broadcast: a handler's own side effects are not modelled. That includes changes a handler makes to the subscriber set while a broadcast runs, so iterating over a copy of the set makes no visible difference in the model. Which handlers throw is the parameter `fails`.
- `Date.now()` is not modelled. The timestamp is the parameter `now`.
- `listQuestions` is not modelled: it returns the question list loaded at start-up and has no logic.
- The order of integer-like keys in JavaScript objects is not modelled. `Object.keys` lists such keys in ascending order first, but the model keeps pure insertion order for every key.
- JavaScript numbers are not modelled. Amounts, scores and max bets are unbounded integers: `Number(x) || 0`, `Math.floor` on fractions, NaN, and overflow past `Number.MAX_SAFE_INTEGER` are left out.
- The query order of the question tables is assumed to be `ORDER BY id`, and it is the order the lists are given in.
- Concurrency is not modelled: every operation runs to completion as one method call.
- The HTTP routes, the event streams and the pages are not modelled. They only call these operations.
- R2PlaceBet: when no max bet is set, the cap `Number.MAX_SAFE_INTEGER` is modelled as no cap, so only the team's score bounds the bet.
- Snapshot.Load: its contract states the defaults for a missing row or section and the round trip through `Persist`. That each stored key overrides its default is given by its body only.
- State.Game.R2SubmitAnswer: the source does not check the stage, so answers are still accepted after the reveal. The model keeps that behaviour and does not state a lock.
