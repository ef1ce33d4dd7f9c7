/**
 * What the credential holder promises over whole runs of `set` and `unset`:
 * its log is exactly the sequence of changes of the held access token, a
 * receiver sees those changes in order from the moment it subscribed, and
 * two `Invalid` messages are never sent without a `Refresh` between them.
 */
module NotifyProperties {
  import opened Notify

  /** The bearer value a state holds, `None` standing for "no token". */
  function AccessToken(held: Option<Token>): Option<string> {
    match held
    case None => None
    case Some(t) => Some(t.accessToken)
  }

  /**
   * The notification a change of state deserves, defined on the states alone:
   * none when the bearer value is the same, `Refresh` when a token is now
   * held, `Invalid` when none is.
   */
  function Transition(before: Option<Token>, after: Option<Token>): seq<TokenState> {
    if AccessToken(before) == AccessToken(after) then []
    else if after.Some? then [Refresh]
    else [Invalid]
  }

  /** The successive tokens held while `ops` run, starting from `held`. */
  function Trajectory(held: Option<Token>, ops: seq<Op>): (states: seq<Option<Token>>)
    ensures |states| == |ops| + 1
    ensures states[0] == held
    decreases |ops|
  {
    if ops == [] then [held] else [held] + Trajectory(Apply(held, ops[0]), ops[1..])
  }

  /** The notifications deserved along a sequence of states, in order. */
  function Transitions(states: seq<Option<Token>>): seq<TokenState>
    decreases |states|
  {
    if |states| < 2 then [] else Transition(states[0], states[1]) + Transitions(states[1..])
  }

  /** Between any two `Invalid` messages of `log` there is a `Refresh`. */
  predicate RefreshBetweenInvalids(log: seq<TokenState>) {
    forall i, j :: 0 <= i < j < |log| && log[i] == Invalid && log[j] == Invalid ==>
      exists k :: i < k < j && log[k] == Refresh
  }

  /** What one call broadcasts is exactly the change of state it makes. */
  lemma EmitsIsTransition(held: Option<Token>, op: Op)
    ensures Emits(held, op) == Transition(held, Apply(held, op))
  {
  }

  /** The log of a run is the old log followed by the transitions along the run. */
  lemma {:induction false} RunPublishesTransitions(h: Hub, ops: seq<Op>)
    ensures Run(h, ops).published == h.published + Transitions(Trajectory(h.token, ops))
    decreases |ops|
  {
    if ops != [] {
      var next := Step(h, ops[0]);
      RunPublishesTransitions(next, ops[1..]);
      EmitsIsTransition(h.token, ops[0]);
      var rest := Trajectory(next.token, ops[1..]);
      assert Trajectory(h.token, ops) == [h.token] + rest;
      assert Transitions([h.token] + rest) == Transition(h.token, next.token) + Transitions(rest) by {
        assert ([h.token] + rest)[1..] == rest;
      }
    }
  }

  /**
   * A receiver that subscribes before `ops` run reads exactly the changes of
   * the held access token those calls make, in order, and nothing sent
   * before it subscribed.
   */
  lemma SubscriberSeesTransitions(h: Hub, ops: seq<Op>)
    ensures Receiver(|h.published|).cursor <= |Run(h, ops).published|
    ensures Pending(Run(h, ops).published, Receiver(|h.published|)) == Transitions(Trajectory(h.token, ops))
  {
    RunPublishesTransitions(h, ops);
  }

  /** A new holder starts in the invariant. */
  lemma NewHubIsConsistent()
    ensures Consistent(NewHub())
  {
  }

  /** `set` and `unset` keep the holder's invariant. */
  lemma StepKeepsConsistent(h: Hub, op: Op)
    requires Consistent(h)
    ensures Consistent(Step(h, op))
  {
  }

  lemma {:induction false} RunKeepsConsistent(h: Hub, ops: seq<Op>)
    requires Consistent(h)
    ensures Consistent(Run(h, ops))
    decreases |ops|
  {
    if ops != [] {
      StepKeepsConsistent(h, ops[0]);
      RunKeepsConsistent(Step(h, ops[0]), ops[1..]);
    }
  }

  lemma FollowsGivesBetween(log: seq<TokenState>)
    requires InvalidFollowsRefresh(log)
    ensures RefreshBetweenInvalids(log)
  {
    forall i, j | 0 <= i < j < |log| && log[i] == Invalid && log[j] == Invalid
      ensures exists k :: i < k < j && log[k] == Refresh
    {
      assert log[j - 1] == Refresh;
    }
  }

  lemma SuffixKeepsBetween(log: seq<TokenState>, c: nat)
    requires c <= |log|
    requires RefreshBetweenInvalids(log)
    ensures RefreshBetweenInvalids(log[c..])
  {
    var s := log[c..];
    forall i, j | 0 <= i < j < |s| && s[i] == Invalid && s[j] == Invalid
      ensures exists k :: i < k < j && s[k] == Refresh
    {
      assert log[c + i] == Invalid && log[c + j] == Invalid;
      var k :| c + i < k < c + j && log[k] == Refresh;
      assert s[k - c] == Refresh;
    }
  }

  /**
   * Starting from a new holder and changing the token only through `set`
   * and `unset`: the first message is never `Invalid`, two `Invalid`s are
   * never sent without a `Refresh` between them, and a token is held
   * exactly when the last message sent was `Refresh`.
   */
  lemma NoDoubleInvalid(ops: seq<Op>)
    ensures Run(NewHub(), ops).published != [] ==> Run(NewHub(), ops).published[0] == Refresh
    ensures RefreshBetweenInvalids(Run(NewHub(), ops).published)
    ensures var r := Run(NewHub(), ops);
      r.token.Some? <==> (|r.published| > 0 && r.published[|r.published| - 1] == Refresh)
  {
    NewHubIsConsistent();
    RunKeepsConsistent(NewHub(), ops);
    FollowsGivesBetween(Run(NewHub(), ops).published);
  }

  /**
   * Whenever a receiver subscribed, it never reads two `Invalid` messages
   * without a `Refresh` between them.
   */
  lemma ReceiverNeverSeesDoubleInvalid(before: seq<Op>, after: seq<Op>)
    ensures var h := Run(NewHub(), before);
      Pending(Run(h, after).published, Receiver(|h.published|)) == Transitions(Trajectory(h.token, after))
    ensures var h := Run(NewHub(), before);
      RefreshBetweenInvalids(Pending(Run(h, after).published, Receiver(|h.published|)))
  {
    var h := Run(NewHub(), before);
    SubscriberSeesTransitions(h, after);
    NewHubIsConsistent();
    RunKeepsConsistent(NewHub(), before);
    RunKeepsConsistent(h, after);
    FollowsGivesBetween(Run(h, after).published);
    SuffixKeepsBetween(Run(h, after).published, |h.published|);
  }

  /** Setting the same token twice broadcasts once; clearing twice broadcasts once. */
  lemma RepeatedCallsAreIdempotent(h: Hub, t: Token)
    ensures Step(Step(h, Op.Set(t)), Op.Set(t)) == Step(h, Op.Set(t))
    ensures Step(Step(h, Op.Unset), Op.Unset) == Step(h, Op.Unset)
  {
  }

  /**
   * A token with the held access token replaces the held one, claims and
   * all, but broadcasts nothing.
   */
  lemma SameAccessTokenIsSilent(h: Hub, t: Token)
    requires h.token.Some? && h.token.value.accessToken == t.accessToken
    ensures Step(h, Op.Set(t)) == Hub(Some(t), h.published)
  {
  }

  /**
   * `set(a)`, `set(a)`, `set(b)`, `unset()` on a new holder sends
   * `Refresh`, `Refresh`, `Invalid`; a receiver that subscribed after the
   * first `set` reads `Refresh`, `Invalid`.
   */
  lemma RefreshRefreshInvalidScenario(a: Token, b: Token)
    requires a.accessToken != b.accessToken
    ensures Run(NewHub(), [Op.Set(a), Op.Set(a), Op.Set(b), Op.Unset]).published == [Refresh, Refresh, Invalid]
    ensures var h := Step(NewHub(), Op.Set(a));
      Pending(Run(h, [Op.Set(a), Op.Set(b), Op.Unset]).published, Receiver(|h.published|)) == [Refresh, Invalid]
  {
    var h1 := Step(NewHub(), Op.Set(a));
    assert h1 == Hub(Some(a), [Refresh]);
    var h2 := Step(h1, Op.Set(a));
    assert h2 == Hub(Some(a), [Refresh]);
    var h3 := Step(h2, Op.Set(b));
    assert h3 == Hub(Some(b), [Refresh, Refresh]);
    var h4 := Step(h3, Op.Unset);
    assert h4 == Hub(None, [Refresh, Refresh, Invalid]);
    var ops := [Op.Set(a), Op.Set(b), Op.Unset];
    RunSteps(h4, []);
    RunSteps(h3, [Op.Unset]);
    assert [Op.Unset][1..] == [];
    RunSteps(h2, [Op.Set(b), Op.Unset]);
    assert [Op.Set(b), Op.Unset][1..] == [Op.Unset];
    RunSteps(h1, ops);
    assert ops[1..] == [Op.Set(b), Op.Unset];
    RunSteps(NewHub(), [Op.Set(a)] + ops);
    assert ([Op.Set(a)] + ops)[1..] == ops;
    assert [Op.Set(a), Op.Set(a), Op.Set(b), Op.Unset] == [Op.Set(a)] + ops;
  }

  /**
   * Unfolds `Run` by one call; it states no property of the holder and
   * exists only so that the scenario proof can step through a concrete run.
   */
  lemma RunSteps(h: Hub, ops: seq<Op>)
    ensures ops == [] ==> Run(h, ops) == h
    ensures ops != [] ==> Run(h, ops) == Run(Step(h, ops[0]), ops[1..])
  {
  }

  /**
   * With a serialiser that never fails, `try_get` succeeds exactly when
   * `is_empty` is false; otherwise it reports "No access token".
   */
  lemma TryGetFailsExactlyWhenEmpty(c: ClientToken, serialize: Token -> Result<string>)
    requires forall t :: serialize(t).Ok?
    ensures c.TryGet(serialize).Ok? <==> !c.IsEmpty()
    ensures c.TryGet(serialize).Err? ==> c.TryGet(serialize).message == NoAccessToken
  {
  }

  /**
   * The same scenario on a holder object: a receiver taken after the first
   * `Set` reads `Refresh` for the changed token and then `Invalid`, and the
   * holder ends empty.
   */
  method HolderScenario(a: Token, b: Token) returns (seen: seq<TokenState>, got: Result<string>)
    requires a.accessToken != b.accessToken
    ensures seen == [Refresh, Invalid]
    ensures got == Err(NoAccessToken)
  {
    var holder := new ClientToken();
    holder.Set(a);
    var rx := holder.Subscribe();
    holder.Set(a);
    holder.Set(b);
    holder.Unset();
    seen := Pending(holder.published, rx);
    got := holder.TryGet((t: Token) => Ok(t.accessToken));
  }

  /** A holder whose token was changed only through `Set` and `Unset` never sent two `Invalid`s without a `Refresh` between them. */
  lemma ValidHasNoDoubleInvalid(c: ClientToken)
    requires c.Valid()
    ensures RefreshBetweenInvalids(c.published)
  {
    FollowsGivesBetween(c.published);
  }

  /**
   * The raw write accessor falls outside that guarantee: writing a token back
   * without `Set` lets a second `Unset` send `Invalid` right after `Invalid`.
   */
  method RawWriteAllowsDoubleInvalid(a: Token) returns (log: seq<TokenState>)
    ensures log == [Refresh, Invalid, Invalid]
    ensures !RefreshBetweenInvalids(log)
  {
    var holder := new ClientToken();
    holder.Set(a);
    holder.Unset();
    holder.RawWrite(Some(a));
    holder.Unset();
    log := holder.published;
    assert log[1] == Invalid && log[2] == Invalid;
  }
}
