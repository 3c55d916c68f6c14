/** The push message `_sendMessageHelper` builds (main.js:242-254) and the
    way `sendMessage` binds its arguments (main.js:228, 236): the helper's
    fourth parameter is named `title` and receives `sendMessage`'s
    `options`, and its fifth, `priority`, is never passed. */
module Push {
  import opened Js
  import opened Registry

  const DefaultPriority: string := "normal"
  const DefaultTitle: string := "ioBroker news"

  datatype Notification = Notification(title: Value, body: Value)

  /** `{to, priority, notification: {title, body}}`. */
  datatype Payload = Payload(to: Value, priority: Value, notification: Notification)

  /** The object literal of main.js:247-254. */
  function MakePayload(token: Value, text: Value, title: Value, priority: Value): (p: Payload)
    ensures p.to == token && p.notification.body == text
    ensures Truthy(p.priority) && Truthy(p.notification.title)
    ensures Truthy(priority) ==> p.priority == priority
    ensures Truthy(title) ==> p.notification.title == title
    ensures !Truthy(priority) ==> p.priority == Str(DefaultPriority)
    ensures !Truthy(title) ==> p.notification.title == Str(DefaultTitle)
  {
    Payload(token, Or(priority, Str(DefaultPriority)), Notification(Or(title, Str(DefaultTitle)), text))
  }

  /** The payloads submitted for a sequence of helper calls made by
      `sendMessage(…)` with converted text `text` and options `options`. */
  function Payloads(cs: seq<Call>, text: Value, options: Value): seq<Payload>
    decreases |cs|
  {
    if cs == [] then []
    else Payloads(cs[..|cs| - 1], text, options) + [MakePayload(cs[|cs| - 1].token, text, options, Undefined)]
  }

  /** The payloads handed to `fcm.send` for the helper calls `cs`: those
      of `cs` when the client exists (main.js:256), none otherwise. */
  function Submitted(client: bool, cs: seq<Call>, text: Value, options: Value): seq<Payload> {
    if client then Payloads(cs, text, options) else []
  }

  /** What a payload from `sendMessage` carries: the recipient's token, the
      text, priority "normal" always, and as title the options value itself
      when it is truthy, "ioBroker news" otherwise. */
  lemma {:induction false} SendMessagePayload(cs: seq<Call>, text: Value, options: Value, i: nat)
    requires i < |cs|
    ensures |Payloads(cs, text, options)| == |cs|
    ensures var p := Payloads(cs, text, options)[i];
      && p.to == cs[i].token
      && p.priority == Str(DefaultPriority)
      && p.notification.title == (if Truthy(options) then options else Str(DefaultTitle))
      && p.notification.body == text
    decreases |cs|
  {
    PayloadsLength(cs[..|cs| - 1], text, options);
    if i < |cs| - 1 {
      SendMessagePayload(cs[..|cs| - 1], text, options, i);
    }
  }

  /** Appending a call appends its payload. */
  lemma PayloadsSnoc(cs: seq<Call>, c: Call, text: Value, options: Value)
    ensures Payloads(cs + [c], text, options) == Payloads(cs, text, options) + [MakePayload(c.token, text, options, Undefined)]
  {
    assert (cs + [c])[..|cs|] == cs;
  }

  /** The payloads of two runs of helper calls, one after the other. */
  lemma {:induction false} PayloadsAppend(a: seq<Call>, b: seq<Call>, text: Value, options: Value)
    ensures Payloads(a + b, text, options) == Payloads(a, text, options) + Payloads(b, text, options)
    decreases |b|
  {
    if b == [] {
      assert a + b == a;
    } else {
      var init, last := b[..|b| - 1], b[|b| - 1];
      assert a + b == (a + init) + [last];
      PayloadsSnoc(a + init, last, text, options);
      PayloadsAppend(a, init, text, options);
      assert init + [last] == b;
      PayloadsSnoc(init, last, text, options);
    }
  }

  /** One payload per helper call. */
  lemma {:induction false} PayloadsLength(cs: seq<Call>, text: Value, options: Value)
    ensures |Payloads(cs, text, options)| == |cs|
    decreases |cs|
  {
    if cs != [] {
      PayloadsLength(cs[..|cs| - 1], text, options);
    }
  }
}
