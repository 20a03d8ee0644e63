/**
 * lib/round.js: which of the three rounds the whole event is in, stored in the
 * settings row `current_round`, and a subscriber set told of every change.
 */
module Round {
  import opened Wrappers
  import opened Seqs
  import Events

  const VALID_ROUNDS: seq<string> := ["pre-round-one", "round-one", "round-two"]

  const DEFAULT_ROUND: string := "pre-round-one"

  /** `roundPath`: a valid round has the page of its own name; anything else falls back to the first round's page. */
  function RoundPath(round: string): (path: string)
    ensures round in VALID_ROUNDS ==> path == "/" + round
    ensures round !in VALID_ROUNDS ==> path == "/" + DEFAULT_ROUND
  {
    match round
    case "pre-round-one" => "/pre-round-one"
    case "round-one" => "/round-one"
    case "round-two" => "/round-two"
    case _ => "/pre-round-one"
  }

  /** Distinct valid rounds are shown on distinct pages. */
  lemma RoundPathInjective(r1: string, r2: string)
    requires r1 in VALID_ROUNDS && r2 in VALID_ROUNDS && r1 != r2
    ensures RoundPath(r1) != RoundPath(r2)
  {
    assert ("/" + r1)[1..] == r1 && ("/" + r2)[1..] == r2;
  }

  /**
   * The validation inside `getCurrentRound`: a missing or empty row reads as the
   * first round, and so does a stored value that is not a valid round.
   */
  function CurrentRound(stored: Option<string>): (round: string)
    ensures round in VALID_ROUNDS
    ensures stored.Some? && stored.value in VALID_ROUNDS ==> round == stored.value
    ensures !(stored.Some? && stored.value in VALID_ROUNDS) ==> round == DEFAULT_ROUND
  {
    var round := if Truthy(stored) then stored.value else DEFAULT_ROUND;
    if round !in VALID_ROUNDS then DEFAULT_ROUND else round
  }

  class RoundSetting {
    /** The `value` of the settings row keyed `current_round`, if there is one. */
    var stored: Option<string>
    /** The module's own subscriber set; clients subscribe to it directly. */
    const channel: Events.Channel<string>

    ghost predicate Valid()
      reads this, channel
    {
      channel.Valid()
    }

    constructor (stored: Option<string>)
      ensures Valid() && fresh(channel)
      ensures this.stored == stored && channel.subscribers == []
    {
      this.stored := stored;
      channel := new Events.Channel<string>();
    }

    function GetCurrentRound(): (round: string)
      reads this
      ensures round in VALID_ROUNDS
    {
      CurrentRound(stored)
    }

    /**
     * `setCurrentRound`: an invalid round throws before anything is written or
     * sent; a valid one is stored, then broadcast to the subscribers.
     */
    method SetCurrentRound(round: string, fails: (Events.Handler, string) -> bool)
      returns (result: Result<string>, delivered: seq<Events.Handler>)
      requires Valid()
      modifies this, channel
      ensures Valid()
      ensures round !in VALID_ROUNDS ==>
        && result == Failure("Invalid round")
        && stored == old(stored)
        && channel.subscribers == old(channel.subscribers)
        && delivered == []
      ensures round in VALID_ROUNDS ==>
        && result == Success(round)
        && stored == Some(round)
        && GetCurrentRound() == round
        && delivered == old(channel.subscribers)
        && channel.subscribers == Events.Survivors(old(channel.subscribers), round, fails)
    {
      if round !in VALID_ROUNDS {
        return Failure("Invalid round"), [];
      }
      stored := Some(round);
      delivered := channel.Broadcast(round, fails);
      result := Success(round);
    }
  }
}
