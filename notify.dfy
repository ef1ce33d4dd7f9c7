/**
 * The client-side credential holder of the client API: one optional token
 * and a broadcast channel that announces each change of the held access
 * token made through `set` and `unset` as a `Refresh` or an `Invalid`
 * message.
 *
 * The broadcast channel is modelled by its log: the sequence of every
 * message ever sent. A receiver is a cursor into that log; it sees the
 * messages sent after it subscribed, in order.
 */
module Notify {

  datatype Option<+T> = None | Some(value: T)

  /** The result of `try_get`: the serialised token, or an error message. */
  datatype Result<+T> = Ok(value: T) | Err(message: string)

  /** The two notifications the holder broadcasts. */
  datatype TokenState = Refresh | Invalid

  /**
   * The identity provider's token response. Only `accessToken` is ever
   * inspected by the holder; every other field of the response is folded
   * into `rest`, which the holder stores and serialises but never compares.
   */
  datatype Token = Token(accessToken: string, rest: string)

  /** The error `try_get` reports when no token is held. */
  const NoAccessToken: string := "No access token"

  /** The capacity argument the broadcast channel is created with. */
  const ChannelCapacity: nat := 100

  /** A call that changes the held token and may broadcast. */
  datatype Op = Set(newToken: Token) | Unset

  /** The abstract state of a holder: the token it holds and every message it has sent. */
  datatype Hub = Hub(token: Option<Token>, published: seq<TokenState>)

  /** A receiver handed out by `subscribe`: the position in the log of the next message it will read. */
  datatype Receiver = Receiver(cursor: nat)

  /** The state of a freshly constructed holder: nothing held, nothing sent. */
  function NewHub(): (h: Hub)
    ensures h.token == None && h.published == []
  {
    Hub(None, [])
  }

  /** `set` counts a token as new when nothing was held or its access token differs from the held one. */
  predicate IsNew(held: Option<Token>, t: Token)
    ensures IsNew(held, t) <==> held.None? || held.value.accessToken != t.accessToken
    ensures IsNew(held, t) ==> held != Some(t)
  {
    match held
    case None => true
    case Some(prev) => prev.accessToken != t.accessToken
  }

  /**
   * The token held after `op`: the new token after `set`, none after `unset`,
   * whatever was held before.
   */
  function Apply(held: Option<Token>, op: Op): (after: Option<Token>)
    ensures op.Set? ==> after == Some(op.newToken)
    ensures op.Unset? ==> after == None
  {
    match op
    case Set(t) => Some(t)
    case Unset => None
  }

  /**
   * The messages broadcast by `op` when `held` is the token held before it:
   * one `Refresh` for a new token, one `Invalid` for clearing a held token,
   * nothing otherwise.
   */
  function Emits(held: Option<Token>, op: Op): (out: seq<TokenState>)
    ensures out == [Refresh] <==> op.Set? && IsNew(held, op.newToken)
    ensures out == [Invalid] <==> op.Unset? && held.Some?
    ensures out == [] <==> (op.Set? && !IsNew(held, op.newToken)) || (op.Unset? && held.None?)
  {
    match op
    case Set(t) => if IsNew(held, t) then [Refresh] else []
    case Unset => if held.Some? then [Invalid] else []
  }

  /**
   * One call on the holder: the token is replaced first, then the message (if
   * any) is sent. The log only grows, by at most one message, and exactly by
   * the transition's message.
   */
  function Step(h: Hub, op: Op): (r: Hub)
    ensures r.token == Apply(h.token, op)
    ensures h.published <= r.published && |r.published| <= |h.published| + 1
    ensures r.published[|h.published|..] == Emits(h.token, op)
  {
    Hub(Apply(h.token, op), h.published + Emits(h.token, op))
  }

  /**
   * A sequence of calls on the holder. The log only ever grows, and after a
   * non-empty sequence the held token is decided by the last call alone.
   */
  function Run(h: Hub, ops: seq<Op>): (r: Hub)
    ensures h.published <= r.published
    ensures |r.published| <= |h.published| + |ops|
    ensures ops != [] ==> r.token == Apply(h.token, ops[|ops| - 1])
    decreases |ops|
  {
    if ops == [] then h else Run(Step(h, ops[0]), ops[1..])
  }

  /** The messages a receiver at `cursor` has still to read. */
  function Pending(log: seq<TokenState>, rx: Receiver): seq<TokenState>
    requires rx.cursor <= |log|
  {
    log[rx.cursor..]
  }

  /**
   * The invariant that `set` and `unset` keep: a token is held exactly when
   * the last message sent is `Refresh`, and every `Invalid` directly follows
   * a `Refresh`.
   */
  predicate Consistent(h: Hub) {
    && (h.token.Some? <==> (|h.published| > 0 && h.published[|h.published| - 1] == Refresh))
    && InvalidFollowsRefresh(h.published)
  }

  predicate InvalidFollowsRefresh(log: seq<TokenState>) {
    forall j :: 0 <= j < |log| && log[j] == Invalid ==> 0 < j && log[j - 1] == Refresh
  }

  /**
   * The holder itself. `token` is the field the source updates in place;
   * `published` is the channel's log, which receivers read through cursors.
   */
  class ClientToken {
    var token: Option<Token>
    var published: seq<TokenState>
    const capacity: nat

    ghost function Snapshot(): Hub
      reads this
    {
      Hub(token, published)
    }

    /** Holds while the token has been changed only through `Set` and `Unset`. */
    ghost predicate Valid()
      reads this
    {
      Consistent(Snapshot())
    }

    /** A new holder holds no token and has sent nothing; its channel is created with capacity argument 100. */
    constructor ()
      ensures Snapshot() == NewHub()
      ensures capacity == ChannelCapacity
      ensures Valid()
    {
      token := None;
      published := [];
      capacity := ChannelCapacity;
    }

    /** True exactly when no token is held. */
    function IsEmpty(): (empty: bool)
      reads this
      ensures empty <==> token == None
    {
      token.None?
    }

    /**
     * The held token serialised by `serialize`, whose own failure is passed
     * on; "No access token" when nothing is held.
     */
    function TryGet(serialize: Token -> Result<string>): (r: Result<string>)
      reads this
      ensures IsEmpty() ==> r == Err(NoAccessToken)
      ensures !IsEmpty() ==> r == serialize(token.value)
    {
      match token
      case None => Err(NoAccessToken)
      case Some(t) => serialize(t)
    }

    /** The raw read accessor: the optional token itself. */
    function Current(): (held: Option<Token>)
      reads this
      ensures held == token
      ensures held.None? <==> IsEmpty()
    {
      token
    }

    /**
     * Stores `newToken` unconditionally, then broadcasts `Refresh` when it is
     * new. Sending never fails the call: with no receiver the message is
     * simply not delivered to anyone.
     */
    method Set(newToken: Token)
      modifies this
      ensures token == Some(newToken)
      ensures published == old(published) + (if IsNew(old(token), newToken) then [Refresh] else [])
      ensures Snapshot() == Step(old(Snapshot()), Op.Set(newToken))
      ensures old(Valid()) ==> Valid()
    {
      var isNew := IsNew(token, newToken);
      token := Some(newToken);
      if isNew {
        published := published + [Refresh];
      }
    }

    /** Clears a held token and broadcasts `Invalid`; does nothing when no token is held. */
    method Unset()
      modifies this
      ensures token == None
      ensures published == old(published) + (if old(token).Some? then [Invalid] else [])
      ensures Snapshot() == Step(old(Snapshot()), Op.Unset)
      ensures old(Valid()) ==> Valid()
    {
      if token.Some? {
        token := None;
        published := published + [Invalid];
      }
    }

    /** A new receiver, positioned after every message already sent. */
    method Subscribe() returns (rx: Receiver)
      ensures rx.cursor == |published|
      ensures Pending(published, rx) == []
    {
      rx := Receiver(|published|);
    }

    /** The raw write accessor: overwrites the token and broadcasts nothing. */
    method RawWrite(held: Option<Token>)
      modifies this
      ensures token == held
      ensures published == old(published)
    {
      token := held;
    }
  }
}
