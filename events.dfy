/**
 * The in-memory event bus of lib/events.js: a module-level Set of subscriber
 * callbacks, and the typed event records the game broadcasts through it.
 * lib/round.js keeps a second set of the same kind; both are `Channel`s here.
 */
module Events {
  import opened Seqs

  /** A subscriber callback, identified by an id (the callbacks themselves are not modelled). */
  type Handler = nat

  /** `{type, payload, ts}`: `ts` is the `Date.now()` value the caller supplies. */
  datatype Event<P> = Event(kind: string, payload: P, ts: int)

  /** `makeEvent(type, payload)`, with the clock reading passed in. */
  function MakeEvent<P>(kind: string, payload: P, ts: int): (e: Event<P>)
    ensures e.kind == kind && e.payload == payload && e.ts == ts
  {
    Event(kind, payload, ts)
  }

  /** The handlers of `s` that do not throw on `msg`, in subscription order. */
  function Survivors<M>(s: seq<Handler>, msg: M, fails: (Handler, M) -> bool): seq<Handler> {
    if s == [] then []
    else Survivors(s[..|s| - 1], msg, fails) + (if fails(s[|s| - 1], msg) then [] else [s[|s| - 1]])
  }

  /** The survivors are the handlers of `s` that do not throw, and a set stays a set. */
  lemma {:induction false} SurvivorsMembers<M>(s: seq<Handler>, msg: M, fails: (Handler, M) -> bool)
    ensures forall h :: h in Survivors(s, msg, fails) <==> h in s && !fails(h, msg)
    ensures Distinct(s) ==> Distinct(Survivors(s, msg, fails))
  {
    if s != [] {
      var init := s[..|s| - 1];
      var last := s[|s| - 1];
      SurvivorsMembers(init, msg, fails);
      assert forall h :: h in s <==> h in init || h == last;
      assert Distinct(s) ==> Distinct(init) && last !in init by {
        if Distinct(s) {
          forall i | 0 <= i < |init| ensures init[i] != last && init[i] == s[i] { }
        }
      }
    }
  }

  /** Survivors of a longer prefix: the new handler is kept exactly when it does not throw. */
  lemma SurvivorsSnoc<M>(s: seq<Handler>, h: Handler, msg: M, fails: (Handler, M) -> bool)
    ensures Survivors(s + [h], msg, fails) == Survivors(s, msg, fails) + (if fails(h, msg) then [] else [h])
  {
    assert (s + [h])[..|s + [h]| - 1] == s;
  }

  /**
   * The live set while Broadcast runs on snapshot `s`: the survivors of the
   * `i` handlers already called, then the handlers still to come.
   */
  ghost function Live<M>(s: seq<Handler>, i: nat, msg: M, fails: (Handler, M) -> bool): seq<Handler>
    requires i <= |s|
  {
    Survivors(s[..i], msg, fails) + s[i..]
  }

  /** One step of Broadcast: calling handler `s[i]` removes it from the live set exactly when it throws. */
  lemma DeliveryStep<M>(s: seq<Handler>, i: nat, msg: M, fails: (Handler, M) -> bool)
    requires Distinct(s) && i < |s|
    ensures fails(s[i], msg) ==> Live(s, i + 1, msg, fails) == Without(Live(s, i, msg, fails), s[i])
    ensures !fails(s[i], msg) ==> Live(s, i + 1, msg, fails) == Live(s, i, msg, fails)
  {
    var h, done, rest := s[i], Survivors(s[..i], msg, fails), s[i + 1..];
    assert s[..i + 1] == s[..i] + [h];
    SurvivorsSnoc(s[..i], h, msg, fails);
    SurvivorsMembers(s[..i], msg, fails);
    assert s[i..] == [h] + rest;
    if fails(h, msg) {
      assert h !in s[..i] && h !in rest by {
        forall j | 0 <= j < |s| && j != i ensures s[j] != h { }
      }
      assert h !in done;
      WithoutMiddle(done, h, rest);
      assert done + s[i..] == done + [h] + rest;
      assert Survivors(s[..i + 1], msg, fails) == done + [];
      assert done + [] == done;
    } else {
      assert (done + [h]) + rest == done + s[i..];
    }
  }

  /** Before the first call the live set is the snapshot; after the last it is the survivors. */
  lemma LiveEnds<M>(s: seq<Handler>, msg: M, fails: (Handler, M) -> bool)
    ensures Live(s, 0, msg, fails) == s
    ensures Live(s, |s|, msg, fails) == Survivors(s, msg, fails)
  {
    assert s[..0] == [] && s[0..] == s;
    assert s[..|s|] == s && s[|s|..] == [];
    assert Survivors(s, msg, fails) + [] == Survivors(s, msg, fails);
  }

  /**
   * A subscriber Set. JavaScript Sets iterate in insertion order, so the set is a
   * sequence without repeats. Which handlers throw on which message is the
   * parameter `fails` of Broadcast.
   */
  class Channel<M> {
    var subscribers: seq<Handler>

    ghost predicate Valid()
      reads this
    {
      Distinct(subscribers)
    }

    constructor ()
      ensures Valid() && subscribers == []
    {
      subscribers := [];
    }

    /** `subscribe(send)`: adding a handler that is already present changes nothing. */
    method Subscribe(h: Handler)
      requires Valid()
      modifies this
      ensures Valid()
      ensures h in subscribers
      ensures subscribers == AddOnce(old(subscribers), h)
    {
      subscribers := AddOnce(subscribers, h);
    }

    /** The closure `subscribe` returns: deletes exactly `h`; `removed` is what `Set.delete` reports. */
    method Unsubscribe(h: Handler) returns (removed: bool)
      requires Valid()
      modifies this
      ensures Valid()
      ensures removed == (h in old(subscribers))
      ensures subscribers == Without(old(subscribers), h)
      ensures forall g :: g in subscribers <==> g in old(subscribers) && g != h
    {
      removed := h in subscribers;
      subscribers := Without(subscribers, h);
    }

    /**
     * The body of the delivery loop, `try { send(event) } catch { subscribers.delete(send) }`:
     * `called` lists the handlers called so far, and `send` joins them.
     */
    method Deliver(snapshot: seq<Handler>, i: nat, msg: M, fails: (Handler, M) -> bool, called: seq<Handler>)
      returns (calledNow: seq<Handler>)
      requires Distinct(snapshot) && i < |snapshot|
      requires subscribers == Live(snapshot, i, msg, fails)
      requires called == snapshot[..i]
      modifies this
      ensures subscribers == Live(snapshot, i + 1, msg, fails)
      ensures calledNow == snapshot[..i + 1]
    {
      var send := snapshot[i];
      calledNow := called + [send];
      assert snapshot[..i + 1] == snapshot[..i] + [send];
      DeliveryStep(snapshot, i, msg, fails);
      if fails(send, msg) {
        subscribers := Without(subscribers, send);
      }
    }

    /**
     * `broadcast(event)`: calls every handler of a snapshot taken at the start,
     * once each and in order (`delivered`), and deletes each handler that throws.
     */
    method Broadcast(msg: M, fails: (Handler, M) -> bool) returns (delivered: seq<Handler>)
      requires Valid()
      modifies this
      ensures Valid()
      ensures delivered == old(subscribers)
      ensures Distinct(delivered)
      ensures subscribers == Survivors(old(subscribers), msg, fails)
    {
      var snapshot := subscribers;
      LiveEnds(snapshot, msg, fails);
      delivered := [];
      var i := 0;
      while i < |snapshot|
        invariant 0 <= i <= |snapshot|
        invariant delivered == snapshot[..i]
        invariant subscribers == Live(snapshot, i, msg, fails)
      {
        delivered := Deliver(snapshot, i, msg, fails, delivered);
        i := i + 1;
      }
      assert snapshot[..i] == snapshot;
      SurvivorsMembers(snapshot, msg, fails);
    }
  }
}
