/** The iogo adapter's process-wide state and its handlers (main.js): the
    duplicate-message filter and `send` dispatch of the `message` handler,
    the token branch of `stateChange`, the restore of the stored registry,
    `sendMessage` and `_sendMessageHelper`. */
module Iogo {
  import opened Js
  import opened JsString
  import opened Dedup
  import opened Registry
  import opened Push

  /** The one token state the `stateChange` handler reacts to (main.js:74). */
  const TokenStateId: string := "iogo.0.nis.token"

  /** A state as the host delivers it to `stateChange` and `getState`. */
  datatype State = State(val: Value, ack: bool)

  /** An answer sent back over the message box, `adapter.sendTo(from, command, result, callback)`. */
  datatype Reply = Reply(to: Value, command: Value, result: Value, callback: Value)

  /** The user name the token branch derives from the id (main.js:75). */
  lemma TokenIdNamesUser()
    ensures ReplaceFirst(ReplaceFirst(TokenStateId, "iogo.0.", ""), ".token", "") == "nis"
  {
    var user, suffix := "nis", ".token";
    assert TokenStateId == "iogo.0." + (user + suffix);
    ReplaceFirstPrefix("iogo.0.", user + suffix, "");
    assert "" + (user + suffix) == user + suffix;
    assert '.' !in user;
    ReplaceFirstSuffix(user, suffix, "");
    assert user + "" == user;
  }

  /** The guard of main.js:198-203: `sendMessage` gives up when the text is
      falsy but not 0 and `options` is falsy and not null. */
  predicate RejectsText(text: Value, options: Value) {
    !Truthy(text) && TypeOf(options) != "object" && text != Num(0) && !Truthy(options)
  }

  /** The option keys `sendMessage` deletes (main.js:206-209). */
  const OptionKeys: set<string> := {"text", "title", "user", "priority"}

  /** `if (options.k !== undefined) delete options.k;` */
  function DeleteDefined(props: map<string, Value>, k: string): map<string, Value> {
    if k in props && props[k] != Undefined then props - {k} else props
  }

  /** The properties of `options` after main.js:205-210: each of the four
      keys is removed unless it is absent or holds undefined, and nothing
      else changes. */
  function StripOptionKeys(props: map<string, Value>): (r: map<string, Value>)
    ensures forall k :: k in r <==> k in props && (k !in OptionKeys || props[k] == Undefined)
    ensures forall k :: k in r ==> r[k] == props[k]
  {
    DeleteDefined(DeleteDefined(DeleteDefined(DeleteDefined(props, "text"), "title"), "user"), "priority")
  }

  /** Stripping is idempotent: a second `sendMessage` with the same options
      object deletes nothing more. */
  lemma StripOptionKeysIdempotent(props: map<string, Value>)
    ensures StripOptionKeys(StripOptionKeys(props)) == StripOptionKeys(props)
  {
  }

  /** The four conditional deletes of main.js:205-210 on an options object. */
  method StripOptions(o: JsObject)
    modifies o
    ensures o.props == StripOptionKeys(old(o.props))
  {
    if "text" in o.props && o.props["text"] != Undefined { o.props := o.props - {"text"}; }
    if "title" in o.props && o.props["title"] != Undefined { o.props := o.props - {"title"}; }
    if "user" in o.props && o.props["user"] != Undefined { o.props := o.props - {"user"}; }
    if "priority" in o.props && o.props["priority"] != Undefined { o.props := o.props - {"priority"}; }
  }

  /** A message that carries a command (main.js:89). */
  predicate HasCommand(obj: Value)
    reads Footprint(obj)
  {
    Truthy(obj) && Truthy(Prop(obj, "command"))
  }

  /** A message that passes the filter and reaches the `send` case with a
      truthy message (main.js:89-104). */
  predicate IsAcceptedSend(obj: Value, g: Gate, signature: string, now: int)
    reads Footprint(obj)
  {
    HasCommand(obj) && !IsRepeat(g, signature, now) && IsSend(obj)
  }

  /** The `send` case with a truthy message (main.js:102-104). */
  predicate IsSend(obj: Value)
    reads Footprint(obj)
  {
    Prop(obj, "command") == Str("send") && Truthy(Prop(obj, "message"))
  }

  /** The arguments the `send` case passes to `sendMessage`: text, user and
      the message object itself when the message is an object
      (main.js:106-107), the message alone otherwise (main.js:110). */
  function SendArguments(message: Value): (Value, Value, Value)
    reads Footprint(message)
  {
    if message.Obj? then (Prop(message, "text"), Prop(message, "user"), message)
    else (message, Undefined, Undefined)
  }

  /** The handler only calls `sendMessage` with a truthy message, so the
      invalid-text branch of `sendMessage` is never taken from it. */
  lemma SendFromHandlerNeverRejects(message: Value)
    requires Truthy(message)
    ensures var (text, _, options) := SendArguments(message); !RejectsText(text, options)
  {
  }

  /** A truthy recipient that is not a string: `user.replace` throws (main.js:223). */
  predicate ThrowsOnRecipient(user: Value) {
    Truthy(user) && !user.Str?
  }

  /** What `sendMessage` returns: undefined for an invalid text, the count
      (always 0, see SendMessageHelper) otherwise, unless it throws. */
  function SendCompletion(text: Value, user: Value, options: Value): Completion {
    if RejectsText(text, options) then Return(Undefined)
    else if ThrowsOnRecipient(user) then TypeError
    else Return(Num(0))
  }

  /** The helper calls `sendMessage` makes: none for an invalid text or a
      throwing recipient; one per registered piece of a recipient string;
      one per registry entry, in some order, without one. */
  ghost predicate SendCalls(users: Users, text: Value, user: Value, options: Value, sent: seq<Call>) {
    if RejectsText(text, options) || ThrowsOnRecipient(user) then sent == []
    else if Truthy(user) then sent == RecipientCalls(users, Pieces(user.s))
    else IsBroadcast(sent, users)
  }

  /** The warnings `sendMessage` logs (main.js:200, 231). */
  function SendWarnings(users: Users, text: Value, user: Value, options: Value): seq<Warning> {
    if RejectsText(text, options) then [InvalidText]
    else if ThrowsOnRecipient(user) || !Truthy(user) then []
    else UnknownWarning(users, Pieces(user.s))
  }

  /** Appending to a log that already extends `base` by `a`. */
  lemma Extend<T>(base: seq<T>, mid: seq<T>, a: seq<T>, b: seq<T>)
    requires mid == base + a
    ensures mid + b == base + (a + b)
  {
    assert (base + a) + b == base + (a + b);
  }

  /** One step of the loop over the pieces: the calls, payloads and matches
      of the first i + 1 pieces extend those of the first i by the ones of
      piece i. */
  lemma RecipientStep(users: Users, pieces: seq<string>, i: nat, text: Value, options: Value)
    requires i < |pieces|
    ensures var p := pieces[i];
      && RecipientCalls(users, pieces[..i + 1]) ==
           RecipientCalls(users, pieces[..i]) + (if Known(users, p) then [Call(users[p], p)] else [])
      && Payloads(RecipientCalls(users, pieces[..i + 1]), text, options) ==
           Payloads(RecipientCalls(users, pieces[..i]), text, options) +
           (if Known(users, p) then [MakePayload(users[p], text, options, Undefined)] else [])
      && Matches(users, pieces[..i + 1]) == Matches(users, pieces[..i]) + (if Known(users, p) then 1 else 0)
  {
    var p := pieces[i];
    assert pieces[..i + 1] == pieces[..i] + [p];
    RecipientCallsSnoc(users, pieces[..i], p);
    if Known(users, p) {
      PayloadsSnoc(RecipientCalls(users, pieces[..i]), Call(users[p], p), text, options);
    } else {
      assert RecipientCalls(users, pieces[..i]) + [] == RecipientCalls(users, pieces[..i]);
    }
  }

  /** One step of the loop over the registry keys. */
  lemma BroadcastStep(users: Users, keys: seq<string>, i: nat, text: Value, options: Value)
    requires i < |keys|
    requires forall j :: 0 <= j < |keys| ==> keys[j] in users
    ensures var u := keys[i];
      && CallsFor(users, keys[..i + 1]) == CallsFor(users, keys[..i]) + [Call(users[u], u)]
      && Payloads(CallsFor(users, keys[..i + 1]), text, options) ==
           Payloads(CallsFor(users, keys[..i]), text, options) + [MakePayload(users[u], text, options, Undefined)]
  {
    var u := keys[i];
    assert keys[..i + 1] == keys[..i] + [u];
    CallsForSnoc(users, keys[..i], u);
    PayloadsSnoc(CallsFor(users, keys[..i]), Call(users[u], u), text, options);
  }

  /** The logs of helper calls and payloads after piece i, given the logs
      before it and the effect of the callback on piece i. */
  lemma RecipientLogStep(users: Users, pieces: seq<string>, i: nat, text: Value, options: Value, client: bool,
                         calls0: seq<Call>, callsBefore: seq<Call>, callsAfter: seq<Call>,
                         outbox0: seq<Payload>, outboxBefore: seq<Payload>, outboxAfter: seq<Payload>)
    requires i < |pieces|
    requires callsBefore == calls0 + RecipientCalls(users, pieces[..i])
    requires outboxBefore == outbox0 + Submitted(client, RecipientCalls(users, pieces[..i]), text, options)
    requires var p := pieces[i];
      callsAfter == callsBefore + (if Known(users, p) then [Call(users[p], p)] else [])
    requires var p := pieces[i];
      outboxAfter == outboxBefore + (if client && Known(users, p) then [MakePayload(users[p], text, options, Undefined)] else [])
    ensures callsAfter == calls0 + RecipientCalls(users, pieces[..i + 1])
    ensures outboxAfter == outbox0 + Submitted(client, RecipientCalls(users, pieces[..i + 1]), text, options)
    ensures Matches(users, pieces[..i + 1]) == Matches(users, pieces[..i]) + (if Known(users, pieces[i]) then 1 else 0)
  {
    var p := pieces[i];
    var done := RecipientCalls(users, pieces[..i]);
    RecipientStep(users, pieces, i, text, options);
    if Known(users, p) {
      Extend(calls0, callsBefore, done, [Call(users[p], p)]);
    } else {
      assert callsBefore + [] == callsBefore && done + [] == done;
    }
    if client && Known(users, p) {
      Extend(outbox0, outboxBefore, Payloads(done, text, options), [MakePayload(users[p], text, options, Undefined)]);
    } else {
      assert outboxBefore + [] == outboxBefore && Payloads(done, text, options) + [] == Payloads(done, text, options);
    }
  }

  /** The logs of helper calls and payloads after key i of the broadcast. */
  lemma BroadcastLogStep(users: Users, keys: seq<string>, i: nat, text: Value, options: Value, client: bool,
                         calls0: seq<Call>, callsBefore: seq<Call>, callsAfter: seq<Call>,
                         outbox0: seq<Payload>, outboxBefore: seq<Payload>, outboxAfter: seq<Payload>)
    requires i < |keys|
    requires forall j :: 0 <= j < |keys| ==> keys[j] in users
    requires callsBefore == calls0 + CallsFor(users, keys[..i])
    requires outboxBefore == outbox0 + Submitted(client, CallsFor(users, keys[..i]), text, options)
    requires var u := keys[i];
      callsAfter == callsBefore + [Call(users[u], u)]
    requires var u := keys[i];
      outboxAfter == outboxBefore + (if client then [MakePayload(users[u], text, options, Undefined)] else [])
    ensures callsAfter == calls0 + CallsFor(users, keys[..i + 1])
    ensures outboxAfter == outbox0 + Submitted(client, CallsFor(users, keys[..i + 1]), text, options)
  {
    var u := keys[i];
    var done := CallsFor(users, keys[..i]);
    BroadcastStep(users, keys, i, text, options);
    Extend(calls0, callsBefore, done, [Call(users[u], u)]);
    if client {
      Extend(outbox0, outboxBefore, Payloads(done, text, options), [MakePayload(users[u], text, options, Undefined)]);
    } else {
      assert outboxBefore + [] == outboxBefore;
    }
  }

  class Adapter {
    /** `lastMessageTime` and `lastMessageText` (main.js:47-48). */
    var lastMessageTime: int
    var lastMessageText: string
    /** The registry `users` (main.js:49). */
    var users: Users
    /** Whether `main` has created the FCM client `fcm` (main.js:130). */
    var fcm: bool
    /** Every call of `_sendMessageHelper`, in order. */
    ghost var calls: seq<Call>
    /** Every payload handed to `fcm.send`, in order. */
    var outbox: seq<Payload>
    /** The warnings `sendMessage` logged. */
    var warnings: seq<Warning>
    /** The answers sent with `adapter.sendTo`. */
    var replies: seq<Reply>

    /** The duplicate filter's two variables. */
    function Filter(): Gate
      reads this
    {
      Gate(lastMessageTime, lastMessageText)
    }

    /** The state when the adapter process starts. */
    constructor ()
      ensures Filter() == InitialGate && users == map[] && !fcm
      ensures calls == [] && outbox == [] && warnings == [] && replies == []
    {
      lastMessageTime, lastMessageText := 0, "";
      users := map[];
      fcm := false;
      calls, outbox, warnings, replies := [], [], [], [];
    }

    /** `fcm = new FCM(serverKey)` in `main` (main.js:130). */
    method Start()
      modifies this`fcm
      ensures fcm
    {
      fcm := true;
    }

    /** The `getState('users', …)` callback of `main` (main.js:183-193):
        `parsed` is the outcome of `JSON.parse(state.val)`, None when it
        threw. The registry is replaced only by a successful parse of a
        truthy stored value. */
    method RestoreUsers(state: Option<State>, parsed: Option<Users>)
      modifies this`users
      ensures users == if state.Some? && Truthy(state.value.val) && parsed.Some? then parsed.value else old(users)
    {
      if state.Some? && Truthy(state.value.val) {
        if parsed.Some? {
          users := parsed.value;
        }
      }
    }

    /** The `stateChange` handler (main.js:70-85). Only the id
        "iogo.0.nis.token" touches the registry: it sets the entry "nis" to
        the new value, null included, and leaves every other entry alone.
        A deleted state (null) makes `state.val` throw. */
    method OnStateChange(id: string, state: Option<State>) returns (r: Completion)
      modifies this`users
      ensures id == TokenStateId && state.Some? ==> r == Return(Undefined) && users == old(users)["nis" := state.value.val]
      ensures id == TokenStateId && state.None? ==> r == TypeError && users == old(users)
      ensures id != TokenStateId ==> r == Return(Undefined) && users == old(users)
    {
      if id == TokenStateId {
        var tmp := ReplaceFirst(ReplaceFirst(id, "iogo.0.", ""), ".token", "");
        TokenIdNamesUser();
        if state.None? {
          return TypeError;
        }
        users := users[tmp := state.value.val];
      }
      return Return(Undefined);
    }

    /** `_sendMessageHelper(token, user, text, title, priority)`
        (main.js:242-270): builds the payload, hands it to `fcm.send` when
        the client exists, and returns 0 at once; the count is incremented
        only in the asynchronous completion callback. */
    method SendMessageHelper(token: Value, user: string, text: Value, title: Value, priority: Value) returns (count: int)
      modifies this`calls, this`outbox
      ensures count == 0
      ensures calls == old(calls) + [Call(token, user)]
      ensures outbox == old(outbox) + (if fcm then [MakePayload(token, text, title, priority)] else [])
    {
      count := 0;
      var message := MakePayload(token, text, title, priority);
      calls := calls + [Call(token, user)];
      if fcm {
        outbox := outbox + [message];
      }
    }

    /** The `forEach` callback of main.js:225-229 for one piece: a piece
        naming a registered user is matched and gets one helper call. */
    method VisitPiece(value: string, text: Value, options: Value) returns (count: int, matched: bool)
      modifies this`calls, this`outbox
      ensures count == 0 && matched == Known(users, value)
      ensures calls == old(calls) + (if matched then [Call(users[value], value)] else [])
      ensures outbox == old(outbox) + (if fcm && matched then [MakePayload(users[value], text, options, Undefined)] else [])
    {
      count, matched := 0, false;
      if value in users && users[value] != Undefined {
        matched := true;
        count := SendMessageHelper(users[value], value, text, options, Undefined);
      }
    }

    /** The loop of main.js:223-230 over the pieces of the recipient string:
        each piece that names a registered user is counted and gets one
        helper call, with the helper's `title` bound to `options`. */
    method SendToRecipients(pieces: seq<string>, text: Value, options: Value) returns (count: int, matches: nat)
      modifies this`calls, this`outbox
      ensures count == 0 && matches == Matches(users, pieces)
      ensures calls == old(calls) + RecipientCalls(users, pieces)
      ensures outbox == old(outbox) + Submitted(fcm, RecipientCalls(users, pieces), text, options)
    {
      count, matches := 0, 0;
      ghost var registry, client, calls0, outbox0 := users, fcm, calls, outbox;
      var i := 0;
      while i < |pieces|
        invariant 0 <= i <= |pieces|
        invariant users == registry && fcm == client
        invariant count == 0 && matches == Matches(registry, pieces[..i])
        invariant calls == calls0 + RecipientCalls(registry, pieces[..i])
        invariant outbox == outbox0 + Submitted(client, RecipientCalls(registry, pieces[..i]), text, options)
      {
        var value := pieces[i];
        ghost var callsBefore, outboxBefore := calls, outbox;
        var c, matched := VisitPiece(value, text, options);
        count := count + c;
        if matched {
          matches := matches + 1;
        }
        RecipientLogStep(registry, pieces, i, text, options, client, calls0, callsBefore, calls, outbox0, outboxBefore, outbox);
        i := i + 1;
      }
      assert pieces[..|pieces|] == pieces;
    }

    /** The keys `for (u in users)` visits, each once. */
    method RegistryKeys() returns (keys: seq<string>)
      ensures forall i, j :: 0 <= i < j < |keys| ==> keys[i] != keys[j]
      ensures forall n :: n in users <==> n in keys
    {
      keys := [];
      var remaining := users.Keys;
      while remaining != {}
        invariant remaining <= users.Keys
        invariant forall n :: n in users ==> (n in remaining <==> n !in keys)
        invariant forall n :: n in keys ==> n in users
        invariant forall i, j :: 0 <= i < j < |keys| ==> keys[i] != keys[j]
        decreases remaining
      {
        var u :| u in remaining;
        keys := keys + [u];
        remaining := remaining - {u};
      }
    }

    /** The loop `for (u in users)` of main.js:235-237: one helper call per
        registry entry. The iteration order is left open. */
    method SendToAll(text: Value, options: Value) returns (count: int, ghost sent: seq<Call>)
      modifies this`calls, this`outbox
      ensures count == 0
      ensures IsBroadcast(sent, users)
      ensures calls == old(calls) + sent
      ensures outbox == old(outbox) + Submitted(fcm, sent, text, options)
    {
      var keys := RegistryKeys();
      count := SendToKeys(keys, text, options);
      sent := CallsFor(users, keys);
      EnumerationIsBroadcast(users, keys);
    }

    /** The body of `for (u in users)` run for the registry keys `keys`, in
        that order. */
    method SendToKeys(keys: seq<string>, text: Value, options: Value) returns (count: int)
      requires forall i :: 0 <= i < |keys| ==> keys[i] in users
      modifies this`calls, this`outbox
      ensures count == 0
      ensures calls == old(calls) + CallsFor(users, keys)
      ensures outbox == old(outbox) + Submitted(fcm, CallsFor(users, keys), text, options)
    {
      count := 0;
      ghost var registry, client, calls0, outbox0 := users, fcm, calls, outbox;
      var i := 0;
      while i < |keys|
        invariant 0 <= i <= |keys|
        invariant users == registry && fcm == client
        invariant count == 0
        invariant calls == calls0 + CallsFor(registry, keys[..i])
        invariant outbox == outbox0 + Submitted(client, CallsFor(registry, keys[..i]), text, options)
      {
        var u := keys[i];
        ghost var callsBefore, outboxBefore := calls, outbox;
        var c := SendMessageHelper(users[u], u, text, options, Undefined);
        count := count + c;
        BroadcastLogStep(registry, keys, i, text, options, client, calls0, callsBefore, calls, outbox0, outboxBefore, outbox);
        i := i + 1;
      }
      assert keys[..|keys|] == keys;
    }

    /** The recipient-string branch of `sendMessage` (main.js:220-232):
        the helper calls go to the registered pieces, and the unknown ones
        are reported in one warning. */
    method SendToNamed(user: string, text: Value, options: Value) returns (count: int)
      modifies this`calls, this`outbox, this`warnings
      ensures count == 0
      ensures calls == old(calls) + RecipientCalls(users, Pieces(user))
      ensures outbox == old(outbox) + Submitted(fcm, RecipientCalls(users, Pieces(user)), text, options)
      ensures warnings == old(warnings) + UnknownWarning(users, Pieces(user))
    {
      var pieces := Pieces(user);
      var matches;
      count, matches := SendToRecipients(pieces, text, options);
      if |pieces| != matches {
        warnings := warnings + [UnknownRecipients(|pieces| - matches, |pieces|)];
      }
    }

    /** main.js:217-239: the recipient-string branch and the broadcast
        branch of `sendMessage`, once the text has been checked and converted. */
    method Dispatch(text: Value, user: Value, options: Value) returns (r: Completion, ghost sent: seq<Call>)
      modifies this`calls, this`outbox, this`warnings
      ensures r == (if ThrowsOnRecipient(user) then TypeError else Return(Num(0)))
      ensures ThrowsOnRecipient(user) ==> sent == [] && warnings == old(warnings)
      ensures Truthy(user) && user.Str? ==>
        sent == RecipientCalls(users, Pieces(user.s)) && warnings == old(warnings) + UnknownWarning(users, Pieces(user.s))
      ensures !Truthy(user) ==> IsBroadcast(sent, users) && warnings == old(warnings)
      ensures calls == old(calls) + sent
      ensures outbox == old(outbox) + Submitted(fcm, sent, text, options)
    {
      if Truthy(user) {
        if !user.Str? {
          return TypeError, [];
        }
        var count := SendToNamed(user.s, text, options);
        return Return(Num(count)), RecipientCalls(users, Pieces(user.s));
      }
      var count;
      count, sent := SendToAll(text, options);
      return Return(Num(count)), sent;
    }

    /** `sendMessage(text, user, options)` (main.js:197-240); `sent` is the
        sequence of helper calls it makes. */
    method SendMessage(text: Value, user: Value, options: Value) returns (r: Completion, ghost sent: seq<Call>)
      modifies this`calls, this`outbox, this`warnings, Footprint(options)
      ensures r == SendCompletion(text, user, options)
      ensures SendCalls(users, text, user, options, sent)
      ensures calls == old(calls) + sent
      ensures outbox == old(outbox) + Submitted(fcm, sent, ToStringValue(text), options)
      ensures warnings == old(warnings) + SendWarnings(users, text, user, options)
      ensures options.Obj? ==> options.o.props == StripOptionKeys(old(options.o.props))
    {
      if !Truthy(text) && TypeOf(options) != "object" {
        if !Truthy(text) && text != Num(0) && !Truthy(options) {
          warnings := warnings + [InvalidText];
          return Return(Undefined), [];
        }
      }
      assert !RejectsText(text, options);

      if Truthy(options) && options.Obj? {
        StripOptions(options.o);
      }

      var converted := ToStringValue(text);
      r, sent := Dispatch(converted, user, options);
    }

    /** The filter of main.js:89-99: a message without a command is ignored,
        a repeat inside the window is dropped, and any other message becomes
        the filter's last message. */
    method PassFilter(obj: Value, signature: string, now: int) returns (accepted: bool)
      modifies this`lastMessageTime, this`lastMessageText
      ensures accepted <==> HasCommand(obj) && !IsRepeat(old(Filter()), signature, now)
      ensures HasCommand(obj) ==> Filter() == Step(old(Filter()), signature, now)
      ensures !HasCommand(obj) ==> Filter() == old(Filter())
    {
      if !Truthy(obj) || !Truthy(Prop(obj, "command")) {
        return false;
      }
      if lastMessageTime != 0 && lastMessageText == signature && now - lastMessageTime < FilterWindowMs {
        return false;
      }
      lastMessageTime := now;
      lastMessageText := signature;
      return true;
    }

    /** main.js:105-111: `sendMessage` called with the text, recipient
        and options taken from the message when it is an object, with the
        message alone as text otherwise. */
    method SendFromMessage(message: Value) returns (count: Completion, ghost sent: seq<Call>)
      requires Truthy(message)
      modifies this`calls, this`outbox, this`warnings, Footprint(message)
      ensures calls == old(calls) + sent
      ensures var args := old(SendArguments(message));
        var text, user, options := args.0, args.1, args.2;
        && count == (if ThrowsOnRecipient(user) then TypeError else Return(Num(0)))
        && SendCalls(users, text, user, options, sent)
        && outbox == old(outbox) + Submitted(fcm, sent, ToStringValue(text), options)
        && warnings == old(warnings) + SendWarnings(users, text, user, options)
        && (options.Obj? ==> options.o.props == StripOptionKeys(old(options.o.props)))
    {
      var args := SendArguments(message);
      SendFromHandlerNeverRejects(message);
      count, sent := SendMessage(args.0, args.1, args.2);
    }

    /** The `send` case for a truthy message (main.js:104-113): the count is
        sent back when the message carries a callback. */
    method SendCase(obj: Value) returns (r: Completion, ghost sent: seq<Call>)
      requires IsSend(obj)
      modifies this`calls, this`outbox, this`warnings, this`replies, Footprint(Prop(obj, "message"))
      ensures calls == old(calls) + sent
      ensures var args, callback, from := old(SendArguments(Prop(obj, "message"))), old(Prop(obj, "callback")), old(Prop(obj, "from"));
        var text, user, options := args.0, args.1, args.2;
        && SendCalls(users, text, user, options, sent)
        && outbox == old(outbox) + Submitted(fcm, sent, ToStringValue(text), options)
        && warnings == old(warnings) + SendWarnings(users, text, user, options)
        && (options.Obj? ==> options.o.props == StripOptionKeys(old(options.o.props)))
        && r == (if ThrowsOnRecipient(user) then TypeError else Return(Undefined))
        && replies == old(replies) +
             (if ThrowsOnRecipient(user) || !Truthy(callback) then [] else [Reply(from, Str("send"), Num(0), callback)])
    {
      var count;
      count, sent := SendFromMessage(Prop(obj, "message"));
      if count.TypeError? {
        return TypeError, sent;
      }
      assert Prop(obj, "callback") == old(Prop(obj, "callback"));
      assert Prop(obj, "from") == old(Prop(obj, "from"));
      if Truthy(Prop(obj, "callback")) {
        replies := replies + [Reply(Prop(obj, "from"), Prop(obj, "command"), count.value, Prop(obj, "callback"))];
      }
      return Return(Undefined), sent;
    }

    /** The `switch (obj.command)` of main.js:101-116 for an accepted
        message: a `send` with a truthy message is dispatched to
        `sendMessage`, and answered with the count when it carries a
        callback; every other message does nothing. */
    method HandleCommand(obj: Value) returns (r: Completion, ghost sent: seq<Call>)
      requires HasCommand(obj)
      modifies this`calls, this`outbox, this`warnings, this`replies, Footprint(Prop(obj, "message"))
      ensures calls == old(calls) + sent
      ensures old(!IsSend(obj)) ==>
        && r == Return(Undefined) && sent == []
        && outbox == old(outbox) && warnings == old(warnings) && replies == old(replies)
        && unchanged(old(Footprint(Prop(obj, "message"))))
      ensures old(IsSend(obj)) ==>
        var args, callback, from := old(SendArguments(Prop(obj, "message"))), old(Prop(obj, "callback")), old(Prop(obj, "from"));
        var text, user, options := args.0, args.1, args.2;
        && SendCalls(users, text, user, options, sent)
        && outbox == old(outbox) + Submitted(fcm, sent, ToStringValue(text), options)
        && warnings == old(warnings) + SendWarnings(users, text, user, options)
        && (options.Obj? ==> options.o.props == StripOptionKeys(old(options.o.props)))
        && r == (if ThrowsOnRecipient(user) then TypeError else Return(Undefined))
        && replies == old(replies) +
             (if ThrowsOnRecipient(user) || !Truthy(callback) then [] else [Reply(from, Str("send"), Num(0), callback)])
    {
      if Prop(obj, "command") == Str("send") && Truthy(Prop(obj, "message")) {
        r, sent := SendCase(obj);
      } else {
        r, sent := Return(Undefined), [];
      }
    }

    /** The `message` handler (main.js:88-117). `signature` stands for
        `JSON.stringify(obj)` and `now` for the clock reading; `sent` is the
        sequence of helper calls. A message without a command changes
        nothing; a repeat inside the window is dropped and changes nothing;
        any other command message becomes the filter's last message, and a
        `send` with a truthy message is dispatched and, when it carries a
        callback, answered with the count. */
    method OnMessage(obj: Value, signature: string, now: int) returns (r: Completion, ghost sent: seq<Call>)
      modifies this`lastMessageTime, this`lastMessageText, this`calls, this`outbox, this`warnings, this`replies
      modifies Footprint(Prop(obj, "message"))
      ensures calls == old(calls) + sent
      ensures old(HasCommand(obj)) ==> Filter() == Step(old(Filter()), signature, now)
      ensures old(!HasCommand(obj)) ==> Filter() == old(Filter())
      ensures old(!IsAcceptedSend(obj, Filter(), signature, now)) ==>
        && r == Return(Undefined) && sent == []
        && outbox == old(outbox) && warnings == old(warnings) && replies == old(replies)
        && unchanged(old(Footprint(Prop(obj, "message"))))
      ensures old(IsAcceptedSend(obj, Filter(), signature, now)) ==>
        var args, callback, from := old(SendArguments(Prop(obj, "message"))), old(Prop(obj, "callback")), old(Prop(obj, "from"));
        var text, user, options := args.0, args.1, args.2;
        && SendCalls(users, text, user, options, sent)
        && outbox == old(outbox) + Submitted(fcm, sent, ToStringValue(text), options)
        && warnings == old(warnings) + SendWarnings(users, text, user, options)
        && (options.Obj? ==> options.o.props == StripOptionKeys(old(options.o.props)))
        && r == (if ThrowsOnRecipient(user) then TypeError else Return(Undefined))
        && replies == old(replies) +
             (if ThrowsOnRecipient(user) || !Truthy(callback) then [] else [Reply(from, Str("send"), Num(0), callback)])
    {
      var accepted := PassFilter(obj, signature, now);
      if !accepted {
        return Return(Undefined), [];
      }
      r, sent := HandleCommand(obj);
    }
  }
}
