/** Worked cases of the adapter's logic on concrete registries and
    messages, in terms of the model's functions. */
module Scenarios {
  import opened Js
  import opened JsString
  import opened Dedup
  import opened Registry

  /** Stripping the blank of "a, c". */
  lemma RemoveWhitespacePair(a: string, c: string)
    requires NoWhitespace(a) && NoWhitespace(c)
    ensures RemoveWhitespace((a + [',']) + ([' '] + c)) == a + [','] + c
  {
    var l, r := a + [','], [' '] + c;
    RemoveWhitespaceAppend(l, r);
    assert NoWhitespace(l) by {
      assert forall i :: 0 <= i < |a| ==> l[i] == a[i];
    }
    assert r[1..] == c;
  }

  /** "a, c" splits into the two names. */
  lemma PiecesOfPair(a: string, c: string)
    requires NoWhitespace(a) && NoWhitespace(c) && ',' !in a && ',' !in c
    ensures Pieces(a + ", " + c) == [a, c]
  {
    assert a + ", " + c == (a + [',']) + ([' '] + c);
    RemoveWhitespacePair(a, c);
    SplitJoin([a, c], ',');
    assert Join([a, c], ',') == a + [','] + c;
  }

  /** A registered name `a` and an unregistered name `c` written as
      "a, c" (for instance "alice, carol" against `{alice: "tokA", bob:
      "tokB"}`): one call, for `a`, and the warning reports 1 of 2
      recipients unknown. */
  lemma OneKnownOneUnknown(users: Users, a: string, c: string)
    requires NoWhitespace(a) && NoWhitespace(c) && ',' !in a && ',' !in c
    requires Known(users, a) && !Known(users, c)
    ensures Pieces(a + ", " + c) == [a, c]
    ensures RecipientCalls(users, [a, c]) == [Call(users[a], a)]
    ensures UnknownWarning(users, [a, c]) == [UnknownRecipients(1, 2)]
  {
    PiecesOfPair(a, c);
    assert [a] + [c] == [a, c] && [] + [a] == [a];
    RecipientCallsSnoc(users, [], a);
    RecipientCallsSnoc(users, [a], c);
  }

  /** The same recipient string sent twice 500 ms apart: the second is a
      repeat inside the window and is dropped. */
  lemma SecondSendDropped(signature: string, t0: int)
    requires t0 != 0
    ensures var trace := [Arrival(signature, t0), Arrival(signature, t0 + 500)];
      Accepted(InitialGate, trace) == [Arrival(signature, t0)]
  {
    var trace := [Arrival(signature, t0), Arrival(signature, t0 + 500)];
    assert trace[1..] == [Arrival(signature, t0 + 500)];
    RepeatsInsideWindowDropped(t0, signature, trace[1..]);
  }

  /** A token state set to null does not remove the user: the entry holds
      null, which is not undefined, so the name still receives calls. */
  lemma NullTokenKeepsRecipient(users: Users)
    ensures var u := users["nis" := Null];
      Known(u, "nis") && RecipientCalls(u, ["nis"]) == [Call(Null, "nis")]
  {
    var u := users["nis" := Null];
    assert ["nis"][..0] == [];
  }
}
