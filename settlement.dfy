/**
 * What `r2Settle` (lib/state.js) does to the team scores: every bettor pays its
 * stake into the pot, and the pot is split among the correct bettors with the
 * highest stake, the remainder going one unit each to the first of them.
 */
module Settlement {
  import opened Seqs
  import opened Snapshot

  /** A team's stake: `Math.max(0, Math.floor(bets[u] || 0))`. */
  function Stake(bets: BetBook, u: string): nat {
    if bets.Get(u) > 0 then bets.Get(u) else 0
  }

  /** The bettors: the keys of `bets`, in key order, that are team users. */
  function Bettors(bets: BetBook, teams: seq<string>): (r: seq<string>)
    ensures forall u :: u in r <==> u in bets.order && u in teams
    ensures Distinct(bets.order) ==> Distinct(r)
  {
    Filter(bets.order, u => u in teams)
  }

  /** The sum of the stakes of `s`. */
  function Pot(bets: BetBook, s: seq<string>): (p: int)
    ensures p >= 0
  {
    if s == [] then 0 else Pot(bets, s[..|s| - 1]) + Stake(bets, s[|s| - 1])
  }

  /** `answers[u] ?? ""`. */
  function AnswerOf(answers: map<string, string>, u: string): string {
    if u in answers then answers[u] else ""
  }

  /** The bettors whose answer equals the correct answer exactly. */
  function CorrectTeams(bettors: seq<string>, answers: map<string, string>, correct: string): (r: seq<string>)
    ensures forall u :: u in r <==> u in bettors && AnswerOf(answers, u) == correct
    ensures Distinct(bettors) ==> Distinct(r)
  {
    Filter(bettors, u => AnswerOf(answers, u) == correct)
  }

  /** The running maximum of `Math.max(maxBet, stake)` from `maxBet = -1`. */
  function MaxStake(bets: BetBook, s: seq<string>): int {
    if s == [] then -1
    else
      var m := MaxStake(bets, s[..|s| - 1]);
      if m < Stake(bets, s[|s| - 1]) then Stake(bets, s[|s| - 1]) else m
  }

  /** The running maximum is the largest stake in `s`, and -1 only for no bettors. */
  lemma {:induction false} MaxStakeIsMax(bets: BetBook, s: seq<string>)
    ensures s == [] ==> MaxStake(bets, s) == -1
    ensures forall u :: u in s ==> Stake(bets, u) <= MaxStake(bets, s)
    ensures s != [] ==> exists u :: u in s && Stake(bets, u) == MaxStake(bets, s)
  {
    if s != [] {
      var init := s[..|s| - 1];
      var last := s[|s| - 1];
      assert forall u :: u in s <==> u in init || u == last;
      MaxStakeIsMax(bets, init);
      if init != [] {
        var w :| w in init && Stake(bets, w) == MaxStake(bets, init);
        assert w in s;
      }
    }
  }

  /** The winners: a sole correct bettor, or the correct bettors whose stake is the maximum. */
  function Winners(bets: BetBook, correct: seq<string>): seq<string> {
    if |correct| == 1 then [correct[0]]
    else if |correct| > 1 then Filter(correct, u => Stake(bets, u) == MaxStake(bets, correct))
    else []
  }

  /**
   * The winners are exactly the correct bettors that no correct bettor outbids;
   * there is a winner as soon as there is a correct bettor.
   */
  lemma WinnersAreTopCorrectBettors(bets: BetBook, correct: seq<string>)
    ensures forall u :: u in Winners(bets, correct) <==>
      u in correct && forall v :: v in correct ==> Stake(bets, v) <= Stake(bets, u)
    ensures |Winners(bets, correct)| > 0 <==> |correct| > 0
    ensures Distinct(correct) ==> Distinct(Winners(bets, correct))
  {
    var w := Winners(bets, correct);
    if |correct| == 1 {
      assert forall v :: v in correct ==> v == correct[0];
    } else if |correct| > 1 {
      MaxStakeIsMax(bets, correct);
      var m := MaxStake(bets, correct);
      var u :| u in correct && Stake(bets, u) == m;
      assert u in w;
    }
  }

  // ---------------------------------------------------------------------------
  // Splitting the pot

  /** What the `i`-th of `k` winners receives: `floor(pot / k)`, plus one for the first `pot % k`. */
  function Share(pot: int, k: nat, i: int): int
    requires k > 0
  {
    pot / k + (if i < pot % k then 1 else 0)
  }

  /** The shares of the first `n` winners together. */
  function Shares(pot: int, k: nat, n: nat): int
    requires k > 0
  {
    if n == 0 then 0 else Shares(pot, k, n - 1) + Share(pot, k, n - 1)
  }

  lemma {:induction false} SharesPrefix(pot: int, k: nat, n: nat)
    requires k > 0
    ensures Shares(pot, k, n) == n * (pot / k) + (if n < pot % k then n else pot % k)
  {
    if n > 0 {
      SharesPrefix(pot, k, n - 1);
      assert n * (pot / k) == (n - 1) * (pot / k) + pot / k;
    }
  }

  /** The shares of all `k` winners add up to the pot: no unit is lost or invented. */
  lemma SharesSumToPot(pot: int, k: nat)
    requires k > 0
    ensures Shares(pot, k, k) == pot
  {
    SharesPrefix(pot, k, k);
  }

  /** No two winners' shares differ by more than one unit, and earlier winners never get less. */
  lemma SharesAreFair(pot: int, k: nat, i: int, j: int)
    requires k > 0 && 0 <= i <= j < k
    ensures 0 <= Share(pot, k, i) - Share(pot, k, j) <= 1
  {
  }

  // ---------------------------------------------------------------------------
  // The two passes over team_state

  /** The first pass: each bettor's score drops by its stake (a zero stake issues no update). */
  function Debit(rows: map<string, TeamRow>, bets: BetBook, s: seq<string>): (r: map<string, TeamRow>)
    ensures r.Keys == rows.Keys
  {
    if s == [] then rows
    else
      var u := s[|s| - 1];
      var r := Debit(rows, bets, s[..|s| - 1]);
      if Stake(bets, u) > 0 then AddScore(r, u, -(Stake(bets, u) as int)) else r
  }

  /** The second pass over the first `|w|` of `k` winners: the `i`-th gains `Share(pot, k, i)`. */
  function Credit(rows: map<string, TeamRow>, w: seq<string>, pot: int, k: nat): (r: map<string, TeamRow>)
    requires k > 0
    ensures r.Keys == rows.Keys
  {
    if w == [] then rows
    else AddScore(Credit(rows, w[..|w| - 1], pot, k), w[|w| - 1], Share(pot, k, |w| - 1))
  }

  /** The pot of a settlement. */
  function PotOf(bets: BetBook, teams: seq<string>): int {
    Pot(bets, Bettors(bets, teams))
  }

  /** The winners of a settlement. */
  function WinnersOf(bets: BetBook, answers: map<string, string>, teams: seq<string>, correct: string): seq<string> {
    Winners(bets, CorrectTeams(Bettors(bets, teams), answers, correct))
  }

  /** The table after the settlement transaction. */
  function SettleRows(rows: map<string, TeamRow>, bets: BetBook, answers: map<string, string>,
                      teams: seq<string>, correct: string): (r: map<string, TeamRow>)
    ensures r.Keys == rows.Keys
  {
    var pot := PotOf(bets, teams);
    var winners := WinnersOf(bets, answers, teams, correct);
    var debited := Debit(rows, bets, Bettors(bets, teams));
    if |winners| > 0 && pot > 0 then Credit(debited, winners, pot, |winners|) else debited
  }

  // ---------------------------------------------------------------------------
  // Conservation

  /** The sum of the scores `getTeams` reports for the users `ks`. */
  function Total(rows: map<string, TeamRow>, ks: seq<string>): int {
    if ks == [] then 0 else ViewOf(rows, ks[0]).score + Total(rows, ks[1..])
  }

  lemma {:induction false} TotalElsewhere(rows: map<string, TeamRow>, ks: seq<string>, u: string, d: int)
    requires u !in ks
    ensures Total(AddScore(rows, u, d), ks) == Total(rows, ks)
  {
    if ks != [] {
      TotalElsewhere(rows, ks[1..], u, d);
    }
  }

  lemma {:induction false} TotalAddScore(rows: map<string, TeamRow>, ks: seq<string>, u: string, d: int)
    requires Distinct(ks) && u in ks
    ensures Total(AddScore(rows, u, d), ks) == Total(rows, ks) + (if u in rows then d else 0)
  {
    if ks[0] == u {
      assert u !in ks[1..] by {
        forall j | 1 <= j < |ks| ensures ks[j] != u { }
      }
      TotalElsewhere(rows, ks[1..], u, d);
    } else {
      assert Distinct(ks[1..]);
      TotalAddScore(rows, ks[1..], u, d);
    }
  }

  lemma {:induction false} DebitTotal(rows: map<string, TeamRow>, bets: BetBook, s: seq<string>, ks: seq<string>)
    requires Distinct(ks)
    requires forall u :: u in s ==> u in ks && u in rows
    ensures Total(Debit(rows, bets, s), ks) == Total(rows, ks) - Pot(bets, s)
  {
    if s != [] {
      var u := s[|s| - 1];
      assert forall v :: v in s[..|s| - 1] ==> v in s;
      DebitTotal(rows, bets, s[..|s| - 1], ks);
      if Stake(bets, u) > 0 {
        TotalAddScore(Debit(rows, bets, s[..|s| - 1]), ks, u, -(Stake(bets, u) as int));
      }
    }
  }

  lemma {:induction false} CreditTotal(rows: map<string, TeamRow>, w: seq<string>, pot: int, k: nat, ks: seq<string>)
    requires k > 0 && Distinct(ks)
    requires forall u :: u in w ==> u in ks && u in rows
    ensures Total(Credit(rows, w, pot, k), ks) == Total(rows, ks) + Shares(pot, k, |w|)
  {
    if w != [] {
      var u := w[|w| - 1];
      assert forall v :: v in w[..|w| - 1] ==> v in w;
      CreditTotal(rows, w[..|w| - 1], pot, k, ks);
      TotalAddScore(Credit(rows, w[..|w| - 1], pot, k), ks, u, Share(pot, k, |w| - 1));
    }
  }

  /**
   * Settlement conservation: over all team users, the scores drop by the pot,
   * and rise by the pot again exactly when someone answered correctly.
   */
  lemma SettlementConservesPot(rows: map<string, TeamRow>, bets: BetBook, answers: map<string, string>,
                               teams: seq<string>, correct: string)
    requires Distinct(teams)
    requires forall u :: u in bets.order ==> u in rows
    ensures var pot := PotOf(bets, teams);
      Total(SettleRows(rows, bets, answers, teams, correct), teams)
        == Total(rows, teams) - pot + (if |WinnersOf(bets, answers, teams, correct)| > 0 then pot else 0)
  {
    var bettors := Bettors(bets, teams);
    var pot := Pot(bets, bettors);
    var correctTeams := CorrectTeams(bettors, answers, correct);
    var winners := Winners(bets, correctTeams);
    var debited := Debit(rows, bets, bettors);
    DebitTotal(rows, bets, bettors, teams);
    WinnersAreTopCorrectBettors(bets, correctTeams);
    if |winners| > 0 && pot > 0 {
      CreditTotal(debited, winners, pot, |winners|, teams);
      SharesSumToPot(pot, |winners|);
    }
  }

  // ---------------------------------------------------------------------------
  // What each team ends with

  lemma {:induction false} DebitAt(rows: map<string, TeamRow>, bets: BetBook, s: seq<string>, u: string)
    requires Distinct(s) && u in rows
    ensures Debit(rows, bets, s)[u] == rows[u].(score := rows[u].score - (if u in s then Stake(bets, u) else 0))
  {
    if s != [] {
      var init := s[..|s| - 1];
      assert Distinct(init);
      assert forall v :: v in s <==> v in init || v == s[|s| - 1];
      assert s[|s| - 1] !in init by {
        forall j | 0 <= j < |init| ensures init[j] != s[|s| - 1] { assert init[j] == s[j]; }
      }
      DebitAt(rows, bets, init, u);
    }
  }

  lemma {:induction false} CreditAt(rows: map<string, TeamRow>, w: seq<string>, pot: int, k: nat, u: string)
    requires k > 0 && Distinct(w) && u in rows
    ensures u !in w ==> Credit(rows, w, pot, k)[u] == rows[u]
    ensures forall i :: 0 <= i < |w| && w[i] == u ==>
      Credit(rows, w, pot, k)[u] == rows[u].(score := rows[u].score + Share(pot, k, i))
  {
    if w != [] {
      var init := w[..|w| - 1];
      assert Distinct(init);
      assert forall v :: v in w <==> v in init || v == w[|w| - 1];
      assert forall i :: 0 <= i < |init| ==> init[i] == w[i] && init[i] != w[|w| - 1];
      CreditAt(rows, init, pot, k, u);
    }
  }

  /** The `i`-th winner ends with its score less its stake plus its share of a nonzero pot. */
  lemma WinnerNet(rows: map<string, TeamRow>, bets: BetBook, answers: map<string, string>,
                  teams: seq<string>, correct: string, i: nat)
    requires bets.WellFormed()
    requires var w := WinnersOf(bets, answers, teams, correct); i < |w| && w[i] in rows
    ensures var w := WinnersOf(bets, answers, teams, correct); var pot := PotOf(bets, teams);
      SettleRows(rows, bets, answers, teams, correct)[w[i]].score
        == rows[w[i]].score - Stake(bets, w[i]) + (if pot > 0 then Share(pot, |w|, i) else 0)
  {
    var bettors := Bettors(bets, teams);
    var correctTeams := CorrectTeams(bettors, answers, correct);
    var w := Winners(bets, correctTeams);
    WinnersAreTopCorrectBettors(bets, correctTeams);
    DebitAt(rows, bets, bettors, w[i]);
    if PotOf(bets, teams) > 0 {
      CreditAt(Debit(rows, bets, bettors), w, PotOf(bets, teams), |w|, w[i]);
    }
  }

  /**
   * The winners keep the key order of `bets`, so of two winners the one that
   * placed its first bet earlier sits earlier in the list and gets no less:
   * the remainder units go to the first winners in key order.
   */
  lemma EarlierWinnerNotLess(bets: BetBook, answers: map<string, string>, teams: seq<string>,
                             correct: string, u: string, v: string)
    requires bets.WellFormed() && Precedes(bets.order, u, v)
    requires var w := WinnersOf(bets, answers, teams, correct); u in w && v in w
    ensures var w := WinnersOf(bets, answers, teams, correct); var pot := PotOf(bets, teams);
      forall i, j :: 0 <= i < |w| && 0 <= j < |w| && w[i] == u && w[j] == v ==>
        i < j && Share(pot, |w|, j) <= Share(pot, |w|, i)
  {
    var bettors := Bettors(bets, teams);
    var correctTeams := CorrectTeams(bettors, answers, correct);
    var w := Winners(bets, correctTeams);
    var pot := PotOf(bets, teams);
    WinnersAreTopCorrectBettors(bets, correctTeams);
    FilterKeepsOrder(bets.order, x => x in teams, u, v);
    FilterKeepsOrder(bettors, x => AnswerOf(answers, x) == correct, u, v);
    if |correctTeams| > 1 {
      FilterKeepsOrder(correctTeams, x => Stake(bets, x) == MaxStake(bets, correctTeams), u, v);
    }
    forall i, j | 0 <= i < |w| && 0 <= j < |w| && w[i] == u && w[j] == v
      ensures i < j && Share(pot, |w|, j) <= Share(pot, |w|, i)
    {
      PrecedesIndices(w, u, v, i, j);
      SharesAreFair(pot, |w|, i, j);
    }
  }

  /** A team that does not win ends with its score less its stake, if it bet at all. */
  lemma LoserNet(rows: map<string, TeamRow>, bets: BetBook, answers: map<string, string>,
                 teams: seq<string>, correct: string, u: string)
    requires bets.WellFormed() && u in rows
    requires u !in WinnersOf(bets, answers, teams, correct)
    ensures SettleRows(rows, bets, answers, teams, correct)[u].score
      == rows[u].score - (if u in Bettors(bets, teams) then Stake(bets, u) else 0)
  {
    var bettors := Bettors(bets, teams);
    var correctTeams := CorrectTeams(bettors, answers, correct);
    var w := Winners(bets, correctTeams);
    WinnersAreTopCorrectBettors(bets, correctTeams);
    DebitAt(rows, bets, bettors, u);
    if |w| > 0 && PotOf(bets, teams) > 0 {
      CreditAt(Debit(rows, bets, bettors), w, PotOf(bets, teams), |w|, u);
    }
  }
}
