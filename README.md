# iogo adapter core, modelled in Dafny

This project models the synchronous core of the ioBroker iogo adapter
(`main.js`). That core is the part that decides who gets a push notification
and what the notification says. It has four pieces:

- **The `message` handler.** A command message first passes a duplicate
  filter. The filter holds two process-wide variables: the time and the
  serialization of the last accepted message. A `send` command is then
  dispatched to `sendMessage`. When the message carries a callback, the
  count is sent back to the sender.
- **`sendMessage`.** It validates the text, deletes four option keys from
  the options object in place, and converts the text to a string. It then
  resolves the recipients against the registry `users` (a map from user
  name to push token):
  - a recipient string is stripped of whitespace and split on commas, and
    each piece that names a registered user gets one helper call, in order,
    with duplicates kept;
  - unknown pieces are reported in one warning;
  - with no recipient string, every registry entry gets one helper call.
- **`_sendMessageHelper`.** It builds the push payload
  `{to, priority, notification: {title, body}}` and hands it to the FCM
  client when one exists.
- **`stateChange`.** Its token branch writes the token of the state
  `iogo.0.nis.token` into the registry under the name `nis`.

The restore of the stored registry at start-up is modelled as well.

The files are:

| file | module | contents |
|---|---|---|
| `js.dfy` | `Js` | JavaScript values: truthiness, `typeof`, property reads, `\|\|`, `toString`; objects are heap references (`JsObject`) so `delete` is an in-place update |
| `jsstring.dfy` | `JsString` | `replace(/\s/g,'')`, `split(',')` and its inverse `join`, `indexOf` and first-match `replace`, the decimal rendering of integers |
| `dedup.dfy` | `Dedup` | the duplicate filter as a state machine over `(lastMessageTime, lastMessageText)` and its behaviour over whole traces |
| `registry.dfy` | `Registry` | recipient resolution: the pieces of a recipient string, the helper calls they cause, the match count, the unknown warning, the broadcast |
| `push.dfy` | `Push` | the payload object literal and the argument binding of the helper |
| `adapter.dfy` | `Iogo` | the adapter's state as a class `Adapter` and the handlers as methods over it |
| `scenarios.dfy` | `Scenarios` | worked cases: "alice, carol", a repeat after 500 ms, a null token |

Each handler is a method of `Iogo.Adapter`. The class fields are:

- `lastMessageTime` and `lastMessageText`;
- `users`;
- `fcm`, which tells whether the client was created;
- a ghost log `calls` of every helper call, as `(token, name)`;
- `outbox`, the payloads handed to `fcm.send`;
- `warnings`, the logged warnings;
- `replies`, the `sendTo` answers.

`sendMessage` and the handlers return a ghost sequence `sent` of the helper
calls they make. Their contracts are stated through specification functions:

- `SendCompletion` gives the result;
- `SendCalls` relates `sent` to `users`;
- `SendWarnings` gives the warnings;
- `Payloads` gives the FCM payloads.

Lemmas about those functions carry the properties.

Some consequences of the code that its structure alone does not make
obvious, and which the model states:

- **`sendMessage` returns 0, not the number of recipients.**
  `sendMessage` sums the helper's return values (`count +=` at main.js:228
  and 236), and the reply sends that sum back (main.js:113). But
  `_sendMessageHelper` increments its local `count` (`count++`,
  main.js:264) only inside the asynchronous `fcm.send` callback, and it
  has already returned 0 by then (main.js:243, 269). So the count that
  `sendMessage` returns, and that the handler sends back, is always 0 for
  a valid text, unless a truthy non-string recipient makes `user.replace`
  throw (main.js:223); then there is no result and no reply.
- **A token state set to null does not remove the user.** The entry ends up
  holding `null`, which is not `undefined`, so the user still receives
  calls, with a null token (`Scenarios.NullTokenKeepsRecipient`).
- **Only one token state is handled.** That is the literal id
  `iogo.0.nis.token`, so the only name the handler ever writes is `nis`.
- **A null state throws.** `state.val` on a deleted (null) state raises a
  TypeError before the registry is touched.

## Model

| member | source | states |
|---|---|---|
| Js.Prop | main.js:89 | a property read is undefined unless the value is an object holding that key, and then it is the key's value |
| Js.TypeOf | main.js:198 | `typeof` is "object" exactly for null and objects, "undefined" exactly for undefined |
| Js.Or | main.js:249 | `a \|\| b` is truthy iff either operand is, is `a` when `a` is truthy, and is `b` when `a` is falsy |
| Js.ToStringValue | main.js:213-215 | undefined, null and objects are kept; every other primitive becomes a string; strings are unchanged |
| Js.ToStringValuePrimitives | main.js:213-215 | a boolean becomes "true"/"false"; a number becomes its canonical decimal numeral (no leading zeros, a minus sign exactly for negative numbers, no "-0"), which parses back to the same number |
| JsString.RemoveWhitespace | main.js:223 | the result holds no `\s` character, is no longer than the input, and is the input itself when it holds none |
| JsString.RemoveWhitespaceChars | main.js:223 | exactly the non-whitespace characters of the input remain |
| JsString.RemoveWhitespaceAppend | main.js:223 | stripping whitespace distributes over concatenation |
| JsString.Split | main.js:223 | `split` yields at least one piece; no piece holds the separator; every character of a piece comes from the input |
| JsString.JoinSplit | main.js:223 | joining the pieces of a split with the separator gives back the string |
| JsString.SplitJoin | main.js:223 | splitting a join of separator-free pieces gives back the pieces |
| JsString.IndexOf | main.js:75 | `indexOf` returns the first position where the pattern occurs, or none when it occurs nowhere |
| JsString.IndexOfFirst | main.js:75 | when `i` is the first occurrence, `indexOf` returns exactly `i` |
| JsString.ReplaceFirstPrefix | main.js:75 | replacing a pattern that starts the string removes exactly that prefix |
| JsString.ReplaceFirstSuffix | main.js:75 | a pattern whose first character does not appear before it is replaced where it ends the string |
| JsString.NumberToString | main.js:214 | `n.toString()` of an integer is a canonical decimal numeral: no leading zeros, no "-0", and a leading minus exactly when n is negative |
| JsString.CanonicalDigitsUnique | main.js:214 | a digit string without a leading zero is the rendering of its own value |
| JsString.CanonicalNumeralUnique | main.js:214 | every canonical numeral is the rendering of the integer it denotes, so the rendering of n is the only canonical numeral of value n |
| JsString.NumberToStringRoundTrip | main.js:214 | reading the numeral back gives the number |
| Dedup.Accepted | main.js:91-99 | the messages a trace lets through are a subset of the trace and no more numerous |
| Dedup.RepeatsInsideWindowDropped | main.js:93-96 | after a message accepted at a nonzero time t0, any number of repeats arriving before t0 + 1200 are all dropped and leave the filter unchanged |
| Dedup.FirstAcceptedOutsideWindow | main.js:93-99 | the first message a trace accepts is never a repeat of the held message inside the window |
| Dedup.AcceptedRepeatsSpaced | main.js:93-99 | two consecutive accepted messages with equal serialization are at least 1200 ms apart, unless the first was stamped 0 |
| Dedup.RunHoldsLastAccepted | main.js:98-99 | after any trace the filter holds the time and serialization of the last accepted message, or its old value when none was accepted |
| Registry.PiecesShape | main.js:223 | the pieces of a recipient string: at least one, each free of commas and whitespace, and joined with commas they give the string with whitespace removed |
| Registry.RecipientCallsSound | main.js:225-229 | every helper call goes to a piece naming a registered user and carries that user's token; there are no more calls than pieces |
| Registry.RecipientCallsSnoc | main.js:225-229 | one more piece adds a call for it exactly when it names a registered user, and adds one to `matches` exactly then |
| Registry.RecipientCallsAppend | main.js:225-229 | the calls follow the order of the pieces: the calls of a concatenation are the calls of each part, in order |
| Registry.AllKnownCalls | main.js:225-229 | when every piece is registered there is exactly one call per piece, in order, with that piece's token |
| Registry.CallsPerRecipient | main.js:225-229 | duplicates are kept: a registered name gets one call per occurrence among the pieces, an unregistered name none |
| Registry.MatchesCountsCalls | main.js:224-228 | `matches` equals the number of helper calls |
| Registry.MatchesAllIff | main.js:224-231 | `matches` is at most the number of pieces, and equals it iff every piece names a registered user |
| Registry.UnknownWarningIff | main.js:231 | the unknown-recipients warning is issued iff some piece is unregistered; it reports `length - matches` unknown of `length`, with a positive unknown count |
| Registry.CallsFor | main.js:235-237 | the loop over a key enumeration makes one call per key, in that order, each with that key's token |
| Registry.CallsForSnoc | main.js:235-237 | one more key adds one call for it |
| Registry.EnumerationIsBroadcast | main.js:235-237 | calling the helper once per key of a duplicate-free enumeration of the registry is a broadcast: each entry once, with its token, and no other name |
| Registry.BroadcastSize | main.js:235-237 | a broadcast makes exactly as many calls as the registry has entries, one per entry |
| Push.MakePayload | main.js:247-254 | the payload goes to the token, carries the text as body, and takes priority and title from the arguments when truthy, else "normal" and "ioBroker news" |
| Push.PayloadsSnoc | main.js:228 | one more helper call submits one more payload, built from its token |
| Push.PayloadsAppend | main.js:225-229 | the payloads of two runs of helper calls are the payloads of the first run followed by those of the second |
| Push.PayloadsLength | main.js:256-257 | one payload per helper call |
| Push.SendMessagePayload | main.js:242-254 | through `sendMessage`'s argument binding, every payload has priority "normal" and has the options value itself as title when truthy, else "ioBroker news" |
| Iogo.TokenIdNamesUser | main.js:75 | the name derived from the id "iogo.0.nis.token" is "nis" |
| Iogo.StripOptionKeys | main.js:205-210 | after the deletes, a key remains iff it was present and is not one of text/title/user/priority or held undefined, and every remaining key keeps its value |
| Iogo.StripOptionKeysIdempotent | main.js:205-210 | a second strip of the same object deletes nothing more |
| Iogo.StripOptions | main.js:205-210 | the four conditional deletes turn the object's properties into their stripped form |
| Iogo.SendFromHandlerNeverRejects | main.js:104-110 | the handler only calls `sendMessage` with arguments that pass its text check |
| Iogo.RecipientStep | main.js:225-229 | one more piece extends the calls, the payloads and `matches` by the call, payload and count of that piece when it is registered, and by nothing otherwise |
| Iogo.RecipientLogStep | main.js:225-229 | the logs after one more piece are the logs of the pieces so far extended by that piece's call and, when the client exists, its payload |
| Iogo.BroadcastStep | main.js:235-237 | one more registry key extends the calls and payloads by that key's call and payload |
| Iogo.BroadcastLogStep | main.js:235-237 | the logs after one more key are the logs of the keys so far extended by that key's call and, when the client exists, its payload |
| Iogo.Adapter.constructor | main.js:47-51 | the filter starts at time 0 with the empty text, the registry empty, and no client |
| Iogo.Adapter.Start | main.js:130 | the FCM client exists after start-up |
| Iogo.Adapter.RestoreUsers | main.js:183-193 | the registry becomes the parsed stored value when the stored value is truthy and parses; otherwise it is unchanged |
| Iogo.Adapter.OnStateChange | main.js:74-78 | the id "iogo.0.nis.token" sets the entry "nis" to the state's value, null included, changing no other entry; a null state throws and changes nothing; any other id changes nothing |
| Iogo.Adapter.SendMessageHelper | main.js:242-270 | one helper call is logged, the payload is submitted exactly when the client exists, and the synchronous return is 0 |
| Iogo.Adapter.VisitPiece | main.js:225-229 | a piece is matched iff it names a registered user, and then gets one helper call with that user's token and, when the client exists, one payload; otherwise nothing changes |
| Iogo.Adapter.SendToRecipients | main.js:223-230 | for the pieces of a recipient string: `matches` counts the registered pieces; the logged calls and the submitted payloads are one per registered piece, in order |
| Iogo.Adapter.RegistryKeys | main.js:235 | the keys `for (u in users)` visits: each registry key exactly once |
| Iogo.Adapter.SendToAll | main.js:234-237 | one helper call per registry entry, as a broadcast, with one payload per call when the client exists; returns 0 |
| Iogo.Adapter.SendToKeys | main.js:235-237 | for keys of the registry taken in a given order: one call per key in that order, with one payload per call when the client exists |
| Iogo.Adapter.SendToNamed | main.js:220-232 | for a recipient string: the calls and payloads of its registered pieces, and the unknown-recipients warning exactly when some piece is unregistered |
| Iogo.Adapter.Dispatch | main.js:217-239 | a non-string truthy recipient throws and sends nothing; a recipient string sends to its registered pieces and warns about the unknown ones; no recipient broadcasts |
| Iogo.Adapter.SendMessage | main.js:197-240 | an invalid text returns undefined, warns, and sends nothing; otherwise the option keys are stripped in place, the text is converted, and the calls, payloads, warnings and result are those of the recipient branch taken |
| Iogo.Adapter.PassFilter | main.js:89-99 | a message is accepted iff it carries a command and is not a repeat inside the window; every command message steps the filter, and a message without a command leaves it unchanged |
| Iogo.Adapter.SendFromMessage | main.js:105-111 | `sendMessage` receives the message's text, recipient and the message itself when the message is an object, and the message alone otherwise; the result is a TypeError for a truthy non-string recipient and 0 otherwise (a null, undefined, 0 or empty recipient broadcasts) |
| Iogo.Adapter.SendCase | main.js:104-113 | a `send` with a truthy message has exactly the effects of `sendMessage`, and replies with the count to the sender when the message carries a callback and the call did not throw |
| Iogo.Adapter.HandleCommand | main.js:101-116 | a `send` with a truthy message calls `sendMessage` with the text, recipient and message object, or with the message alone when it is not an object, and replies with the count when there is a callback; every other command message does nothing and leaves the message object unchanged |
| Iogo.Adapter.OnMessage | main.js:88-117 | without a command nothing changes; a repeat inside the window is dropped and nothing is sent; a message that is not an accepted `send` leaves its message object unchanged; every other command message becomes the filter's last message, and an accepted `send` has exactly the effects of `sendMessage` and the reply |
| Scenarios.RemoveWhitespacePair | main.js:223 | "a, c" loses its blank and nothing else when `a` and `c` hold no whitespace |
| Scenarios.PiecesOfPair | main.js:223 | "a, c" yields the pieces `a` and `c` |
| Scenarios.OneKnownOneUnknown | main.js:223-231 | with `a` registered and `c` not (for instance "alice, carol"), there is one call, for `a`, and a warning of 1 unknown of 2 |
| Scenarios.SecondSendDropped | main.js:93-99 | from the start-up filter, the same message at a nonzero time t0 and again at t0 + 500: only the first is accepted |
| Scenarios.NullTokenKeepsRecipient | main.js:76 | after the token state is set to null, "nis" is still registered and receives one call with a null token |

## Left out

- `fcm.send` and its completion callback (main.js:256-267) are network I/O
  into a foreign library. Handing a payload to `fcm.send` is modelled as
  appending it to `outbox`. The callback is not modelled. That covers its
  increment of `count` after the helper has returned, and its error branch,
  which reads the undefined names `options` and `error`.
- Host I/O is left out: `setState`, `getState`, `sendTo` and
  `subscribeStates` (main.js:78, 113, 154, 183). Logging other than the two
  warnings of `sendMessage` (main.js:200, 231), which are recorded in
  `warnings`, is left out too, and so is `console.log`. The answer `sendTo` sends is recorded in `replies`. The
  state read by `getState('users')` is the `state` parameter of
  `RestoreUsers`.
- `JSON.stringify` and `JSON.parse` are left out. The serialization used by
  the filter is the `signature` parameter of `OnMessage`. The outcome of
  parsing the stored registry is the `parsed` parameter of `RestoreUsers`.
  `parsed` has type `Option<Users>`, so it cannot represent a parse that
  gives null, a number, a string or a boolean. In the source such a `users`
  value changes how later reads and writes behave, and for null makes
  `users[tmp] = …` (main.js:76) and `users[value]` (main.js:226) throw;
  that is not modelled.
- Iogo.Adapter.OnMessage: the clock is read once per message, as the `now` parameter.
  The source reads `new Date()` separately in the test (main.js:93) and in
  the update (main.js:98).
- Numbers are integers. NaN, infinities, fractions and exponent notation in
  `toString` are not modelled.
- Functions and symbols are not modelled as values.
- Only own properties are modelled. Keys inherited from `Object.prototype`
  (`users["toString"]` and similar) are not.
- Iogo.Adapter.SendToAll: the order of `for (u in users)` is left open. The
  contract states that each key is visited exactly once, not in which order.
- `checkPassword` and `checkGroup` (main.js:175-181) are host calls with no
  logic. The `unload`, `objectChange` and `ready` handlers are lifecycle
  plumbing.
- The `ack` test of `stateChange` (main.js:82-84) only logs.
