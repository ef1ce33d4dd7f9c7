# ClientToken: the client API's credential holder

This project models `ClientToken` from `libs/client-api/src/notify.rs`. It is
the client-side holder of the identity provider's token response. It holds at
most one token. It announces each change of the held access token made
through `set` and `unset` on a broadcast channel created with capacity
argument 100, as `TokenState::Refresh` or `TokenState::Invalid`. A `set` that
keeps the access token but changes the other fields, and a write through
`DerefMut`, change the token without any message.

- `set(t)` always stores `t`. It broadcasts `Refresh` only when no token was
  held or the held `access_token` differs from `t`'s.
- `unset()` clears a held token and broadcasts `Invalid`. With no token held
  it does nothing.
- `is_empty()` and `try_get()` only read. `try_get()` fails with
  "No access token" when nothing is held.
- `subscribe()` hands out a receiver that reads every message sent after it
  subscribed.

Files:

- `notify.dfy`, module `Notify`: the datatypes, the state transition as pure
  functions (`IsNew`, `Apply`, `Emits`, `Step`, `Run`), the invariant
  `Consistent`, and the class `ClientToken`. The class has the mutable
  `token` field and the channel's log `published`. Its `Set` and `Unset`
  methods are proved against `Step`.
- `notify_properties.dfy`, module `NotifyProperties`: lemmas over whole runs.
  They compare the log with an independent reference, `Transitions`, which
  gives the message each change of the held access token deserves. They also
  prove the invariant and the "no two `Invalid`s without a `Refresh`"
  property, and work through a set/set/set/unset scenario.

Modelling choices:

- The broadcast channel is its log: the sequence of every message sent. A
  receiver is the log position of the next message it will read, like the
  position counter a tokio broadcast receiver keeps. It reads
  `published[cursor..]`.
- The token response is `Token(accessToken, rest)`. Its other fields are not
  part of this model and are never compared, so `rest` stands in for them.
- `serde_json::to_string` is a parameter of `TryGet`: a function from a token
  to a serialised string or an error. Its error is passed on, as the
  source's `?` does.
- `Deref` is `Current` (read the optional token). `DerefMut` is `RawWrite`
  (overwrite it). `RawWrite` broadcasts nothing and may break the invariant
  `Valid()`; `RawWriteAllowsDoubleInvalid` shows a run where it does. The
  run-level lemmas therefore cover only `set`/`unset` runs.

## Model

| member | source | states |
|---|---|---|
| `Notify.ClientToken.constructor` | libs/client-api/src/notify.rs:21-27 | a new holder holds no token, has sent nothing, keeps the channel's capacity argument 100 and satisfies the invariant |
| `Notify.ClientToken.IsEmpty` | libs/client-api/src/notify.rs:29-31 | true exactly when no token is held |
| `Notify.ClientToken.TryGet` | libs/client-api/src/notify.rs:33-38 | an empty holder yields the error "No access token"; a holder with a token yields that token's serialisation, failure included |
| `NotifyProperties.TryGetFailsExactlyWhenEmpty` | libs/client-api/src/notify.rs:29-38 | with a serialiser that never fails, `try_get` succeeds exactly when `is_empty` is false, and its only error is "No access token" |
| `Notify.ClientToken.Current` | libs/client-api/src/notify.rs:84-90 | the raw read accessor yields the held optional token itself, so `None` exactly when the holder is empty |
| `Notify.ClientToken.Set` | libs/client-api/src/notify.rs:48-60 | the held token becomes the new one whether or not anything is sent; the log grows by one `Refresh` exactly when nothing was held or the access token differs, and otherwise is unchanged; sending never undoes the store; the invariant is kept |
| `Notify.ClientToken.Unset` | libs/client-api/src/notify.rs:68-74 | the holder ends empty; the log grows by one `Invalid` exactly when a token was held, and an empty holder is left as it was; the invariant is kept |
| `Notify.ClientToken.Subscribe` | libs/client-api/src/notify.rs:76-81 | a new receiver is positioned at the end of the log, so it reads nothing sent before it subscribed |
| `Notify.ClientToken.RawWrite` | libs/client-api/src/notify.rs:92-96 | the raw write accessor replaces the token and sends nothing |
| `Notify.NewHub` | libs/client-api/src/notify.rs:21-27 | the state of a new holder: no token held, nothing sent |
| `NotifyProperties.NewHubIsConsistent` | libs/client-api/src/notify.rs:21-27 | a new holder starts in the invariant |
| `Notify.IsNew` | libs/client-api/src/notify.rs:50-53 | a token counts as new exactly when nothing is held or the held access token differs; a new token is never the held one |
| `Notify.Apply` | libs/client-api/src/notify.rs:54 | after `set(t)` the held token is `t`, and after `unset` (line 70) it is none, whatever was held before |
| `Notify.Step` | libs/client-api/src/notify.rs:48-74 | one call: the held token is the one `Apply` gives, and the log grows by exactly the messages `Emits` gives, at most one |
| `Notify.Emits` | libs/client-api/src/notify.rs:50-73 | one call sends `[Refresh]` exactly for a new token, `[Invalid]` exactly for clearing a held token, and nothing in every other case |
| `Notify.Run` | libs/client-api/src/notify.rs:48-74 | over any sequence of calls the log only grows, by at most one message per call, and the final token is set by the last call alone |
| `NotifyProperties.EmitsIsTransition` | libs/client-api/src/notify.rs:50-73 | what one call sends equals the reference transition between the token before and after it |
| `NotifyProperties.RunPublishesTransitions` | libs/client-api/src/notify.rs:48-74 | the log after a run is the old log followed by the reference transitions along the run's successive tokens |
| `NotifyProperties.SubscriberSeesTransitions` | libs/client-api/src/notify.rs:76-81 | a receiver that subscribed before a run reads exactly the changes of the held access token in order, and nothing earlier |
| `NotifyProperties.StepKeepsConsistent` | libs/client-api/src/notify.rs:48-74 | `set` and `unset` keep the invariant: a token is held exactly when the last message was `Refresh`, and every `Invalid` directly follows a `Refresh` |
| `NotifyProperties.RunKeepsConsistent` | libs/client-api/src/notify.rs:48-74 | every run of `set`/`unset` calls keeps that invariant |
| `NotifyProperties.NoDoubleInvalid` | libs/client-api/src/notify.rs:50-73 | from a new holder, the first message is never `Invalid`, two `Invalid`s always have a `Refresh` between them, and a token is held exactly when the last message was `Refresh` |
| `NotifyProperties.ReceiverNeverSeesDoubleInvalid` | libs/client-api/src/notify.rs:69-81 | whenever a receiver subscribed, it reads the reference transitions and never two `Invalid`s without a `Refresh` between them |
| `NotifyProperties.RepeatedCallsAreIdempotent` | libs/client-api/src/notify.rs:50-73 | setting the same token twice, or clearing twice, has the effect of doing it once |
| `NotifyProperties.SameAccessTokenIsSilent` | libs/client-api/src/notify.rs:50-54 | a token with the held access token replaces the held token and sends nothing |
| `NotifyProperties.RefreshRefreshInvalidScenario` | libs/client-api/src/notify.rs:48-81 | `set(a)`, `set(a)`, `set(b)`, `unset()` sends `Refresh`, `Refresh`, `Invalid`; a receiver taken after the first `set` reads `Refresh`, `Invalid` |
| `NotifyProperties.ValidHasNoDoubleInvalid` | libs/client-api/src/notify.rs:48-74 | a holder changed only through `Set` and `Unset` has never sent two `Invalid`s without a `Refresh` between them |
| `NotifyProperties.RawWriteAllowsDoubleInvalid` | libs/client-api/src/notify.rs:92-96 | writing a token back through the raw accessor lets `unset` send `Invalid` right after `Invalid`: `set(a)`, `unset()`, raw write of `a`, `unset()` sends `Refresh`, `Invalid`, `Invalid` |
| `NotifyProperties.HolderScenario` | libs/client-api/src/notify.rs:21-81 | the same scenario on a holder object: the receiver reads `Refresh`, `Invalid`, and `try_get` then fails with "No access token" |

## Left out

- Concurrency and async delivery of the tokio broadcast channel: receivers read the log directly and never block.
- The channel's bounded buffer: only the capacity argument 100 is kept. tokio rounds a broadcast channel's capacity up to a power of two, so the channel buffers 128 messages, and a receiver that falls more than 128 messages behind gets a lag error. This model has no lagging receivers.
- Receiver count and the send error: with no receiver, tokio's `send` returns an error, which the source discards. The model appends to the log either way. A receiver that subscribes later does not see the message in either case.
- Dropping a receiver: it has no effect on the holder, so it is not modelled.
- `serde_json::to_string`: it is a function parameter of `TryGet`. JSON's format is not part of this model.
- The token response's fields other than `access_token` (`GotrueTokenResponse` is not part of this model); they are one opaque string.
- `tracing` debug and trace events: logging only.
- `src/application.rs`, `libs/gotrue/src/api.rs` and `src/middleware/request_id.rs`: server bootstrap, the HTTP client to the identity provider and request-id middleware, all I/O and framework plumbing. The access-control chain, permission caches and change-feed listeners are only constructed there, and their code is not part of this model.
