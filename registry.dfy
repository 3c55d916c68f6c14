/** Recipient resolution in `sendMessage` (main.js:220-238): the registry
    `users` maps a user name to its push token; a recipient string is
    stripped of whitespace and split on commas, and each piece that names a
    registered user gets one call of the per-recipient helper, in order and
    with duplicates kept. Without a recipient string every registry entry
    gets one call. */
module Registry {
  import opened Js
  import opened JsString

  /** The module-level `users` object (main.js:49): name to token. */
  type Users = map<string, Value>

  /** One invocation of `_sendMessageHelper(token, user, ...)`. */
  datatype Call = Call(token: Value, name: string)

  /** The warnings `sendMessage` writes to the log. */
  datatype Warning =
    | InvalidText                              // main.js:200
    | UnknownRecipients(unknown: int, total: int)  // main.js:231

  /** `users[name] !== undefined`. */
  predicate Known(users: Users, name: string) {
    name in users && users[name] != Undefined
  }

  /** `user.replace(/\s/g, '').split(',')`. */
  function Pieces(user: string): seq<string> {
    Split(RemoveWhitespace(user), ',')
  }

  /** The pieces of a recipient string: at least one, each free of commas
      and whitespace, and joined with commas they give the string with its
      whitespace removed. */
  lemma PiecesShape(user: string)
    ensures var ps := Pieces(user);
      && |ps| >= 1
      && (forall i :: 0 <= i < |ps| ==> ',' !in ps[i] && NoWhitespace(ps[i]))
      && Join(ps, ',') == RemoveWhitespace(user)
  {
    RemoveWhitespaceChars(user);
    JoinSplit(RemoveWhitespace(user), ',');
  }

  /** The helper calls the loop of main.js:225-230 makes for `pieces`. */
  function RecipientCalls(users: Users, pieces: seq<string>): seq<Call>
    decreases |pieces|
  {
    if pieces == [] then []
    else
      var last := pieces[|pieces| - 1];
      RecipientCalls(users, pieces[..|pieces| - 1]) + (if Known(users, last) then [Call(users[last], last)] else [])
  }

  /** Every call goes to a registered name among the pieces, with that
      name's token, and there are no more calls than pieces. */
  lemma {:induction false} RecipientCallsSound(users: Users, pieces: seq<string>)
    ensures var cs := RecipientCalls(users, pieces);
      && |cs| <= |pieces|
      && forall i :: 0 <= i < |cs| ==>
           Known(users, cs[i].name) && cs[i].token == users[cs[i].name] && cs[i].name in pieces
    decreases |pieces|
  {
    if pieces != [] {
      var init := pieces[..|pieces| - 1];
      RecipientCallsSound(users, init);
      assert forall p :: p in init ==> p in pieces;
    }
  }

  /** One more piece: a call for it when it is registered. */
  lemma RecipientCallsSnoc(users: Users, pieces: seq<string>, p: string)
    ensures RecipientCalls(users, pieces + [p]) ==
      RecipientCalls(users, pieces) + (if Known(users, p) then [Call(users[p], p)] else [])
    ensures Matches(users, pieces + [p]) == Matches(users, pieces) + (if Known(users, p) then 1 else 0)
  {
    assert (pieces + [p])[..|pieces|] == pieces;
  }

  /** The calls follow the order of the pieces: the calls for a
      concatenation of recipient lists are the calls for the first list
      followed by those for the second. */
  lemma {:induction false} RecipientCallsAppend(users: Users, p: seq<string>, q: seq<string>)
    ensures RecipientCalls(users, p + q) == RecipientCalls(users, p) + RecipientCalls(users, q)
    decreases |q|
  {
    if q == [] {
      assert p + q == p;
    } else {
      var init, last := q[..|q| - 1], q[|q| - 1];
      assert p + q == (p + init) + [last];
      RecipientCallsSnoc(users, p + init, last);
      RecipientCallsAppend(users, p, init);
      assert init + [last] == q;
      RecipientCallsSnoc(users, init, last);
    }
  }

  /** When every piece names a registered user, the calls are exactly one
      per piece, in order. */
  lemma {:induction false} AllKnownCalls(users: Users, pieces: seq<string>)
    requires forall i :: 0 <= i < |pieces| ==> Known(users, pieces[i])
    ensures |RecipientCalls(users, pieces)| == |pieces|
    ensures forall i :: 0 <= i < |pieces| ==>
      pieces[i] in users && RecipientCalls(users, pieces)[i] == Call(users[pieces[i]], pieces[i])
    decreases |pieces|
  {
    if pieces != [] {
      AllKnownCalls(users, pieces[..|pieces| - 1]);
    }
  }

  /** The counter `matches` of main.js:224-227 after the loop. */
  function Matches(users: Users, pieces: seq<string>): nat
    decreases |pieces|
  {
    if pieces == [] then 0
    else Matches(users, pieces[..|pieces| - 1]) + (if Known(users, pieces[|pieces| - 1]) then 1 else 0)
  }

  /** The warning of main.js:231, present iff some piece is unknown. */
  function UnknownWarning(users: Users, pieces: seq<string>): seq<Warning> {
    var m := Matches(users, pieces);
    if |pieces| != m then [UnknownRecipients(|pieces| - m, |pieces|)] else []
  }

  /** How often `name` occurs in a sequence of pieces. */
  function Count(pieces: seq<string>, name: string): nat
    decreases |pieces|
  {
    if pieces == [] then 0
    else Count(pieces[..|pieces| - 1], name) + (if pieces[|pieces| - 1] == name then 1 else 0)
  }

  /** How many of the calls go to `name`. */
  function CallCount(cs: seq<Call>, name: string): nat
    decreases |cs|
  {
    if cs == [] then 0
    else CallCount(cs[..|cs| - 1], name) + (if cs[|cs| - 1].name == name then 1 else 0)
  }

  lemma {:induction false} CallCountAppend(a: seq<Call>, b: seq<Call>, name: string)
    ensures CallCount(a + b, name) == CallCount(a, name) + CallCount(b, name)
    decreases |b|
  {
    if b != [] {
      assert (a + b)[..|a + b| - 1] == a + b[..|b| - 1];
      CallCountAppend(a, b[..|b| - 1], name);
    } else {
      assert a + b == a;
    }
  }

  /** One helper call per matched piece: `matches` counts the calls. */
  lemma {:induction false} MatchesCountsCalls(users: Users, pieces: seq<string>)
    ensures |RecipientCalls(users, pieces)| == Matches(users, pieces)
    decreases |pieces|
  {
    if pieces != [] {
      MatchesCountsCalls(users, pieces[..|pieces| - 1]);
    }
  }

  /** `matches` equals the number of pieces iff every piece names a
      registered user. */
  lemma {:induction false} MatchesAllIff(users: Users, pieces: seq<string>)
    ensures Matches(users, pieces) <= |pieces|
    ensures Matches(users, pieces) == |pieces| <==> forall i :: 0 <= i < |pieces| ==> Known(users, pieces[i])
    decreases |pieces|
  {
    if pieces != [] {
      var init := pieces[..|pieces| - 1];
      MatchesAllIff(users, init);
      assert forall i :: 0 <= i < |init| ==> init[i] == pieces[i];
    }
  }

  /** The unknown-recipients warning is issued exactly when some piece names
      no registered user, and it reports `pieces.length - matches` of
      `pieces.length`. */
  lemma UnknownWarningIff(users: Users, pieces: seq<string>)
    ensures UnknownWarning(users, pieces) != [] <==> exists i :: 0 <= i < |pieces| && !Known(users, pieces[i])
    ensures UnknownWarning(users, pieces) != [] ==>
      UnknownWarning(users, pieces) == [UnknownRecipients(|pieces| - |RecipientCalls(users, pieces)|, |pieces|)]
    ensures UnknownWarning(users, pieces) != [] ==> UnknownWarning(users, pieces)[0].unknown > 0
  {
    MatchesAllIff(users, pieces);
    MatchesCountsCalls(users, pieces);
  }

  /** Duplicates are kept: a registered name gets one call per occurrence
      among the pieces, an unregistered one none. */
  lemma {:induction false} CallsPerRecipient(users: Users, pieces: seq<string>, name: string)
    ensures CallCount(RecipientCalls(users, pieces), name) == if Known(users, name) then Count(pieces, name) else 0
    decreases |pieces|
  {
    if pieces != [] {
      var init := pieces[..|pieces| - 1];
      var last := pieces[|pieces| - 1];
      CallsPerRecipient(users, init, name);
      var tail := if Known(users, last) then [Call(users[last], last)] else [];
      CallCountAppend(RecipientCalls(users, init), tail, name);
      if tail != [] {
        assert tail[..0] == [];
      }
    }
  }

  /** The calls of the loop over `for (u in users)` in the order of the
      names `order`. */
  function CallsFor(users: Users, order: seq<string>): (cs: seq<Call>)
    requires forall i :: 0 <= i < |order| ==> order[i] in users
    ensures |cs| == |order|
    ensures forall i :: 0 <= i < |cs| ==> cs[i] == Call(users[order[i]], order[i])
    decreases |order|
  {
    if order == [] then []
    else CallsFor(users, order[..|order| - 1]) + [Call(users[order[|order| - 1]], order[|order| - 1])]
  }

  /** One more registry key: one more call. */
  lemma CallsForSnoc(users: Users, order: seq<string>, n: string)
    requires forall i :: 0 <= i < |order| ==> order[i] in users
    requires n in users
    ensures CallsFor(users, order + [n]) == CallsFor(users, order) + [Call(users[n], n)]
  {
    assert (order + [n])[..|order|] == order;
  }

  /** A broadcast: one call for each registry entry, carrying that entry's
      token, and no call for any other name. */
  ghost predicate IsBroadcast(cs: seq<Call>, users: Users) {
    && (forall i :: 0 <= i < |cs| ==> cs[i].name in users && cs[i].token == users[cs[i].name])
    && (forall i, j :: 0 <= i < j < |cs| ==> cs[i].name != cs[j].name)
    && (forall name :: name in users ==> exists i :: 0 <= i < |cs| && cs[i].name == name)
  }

  /** Calling the helper once for each name of a duplicate-free enumeration
      of the registry's keys is a broadcast. */
  lemma EnumerationIsBroadcast(users: Users, keys: seq<string>)
    requires forall i, j :: 0 <= i < j < |keys| ==> keys[i] != keys[j]
    requires forall n :: n in users <==> n in keys
    ensures IsBroadcast(CallsFor(users, keys), users)
  {
    var cs := CallsFor(users, keys);
    forall name | name in users ensures exists i :: 0 <= i < |cs| && cs[i].name == name {
      var i :| 0 <= i < |keys| && keys[i] == name;
      assert cs[i].name == name;
    }
  }

  /** The names a sequence of calls goes to. */
  function Names(cs: seq<Call>): set<string> {
    set i | 0 <= i < |cs| :: cs[i].name
  }

  lemma {:induction false} DistinctNamesCard(cs: seq<Call>)
    requires forall i, j :: 0 <= i < j < |cs| ==> cs[i].name != cs[j].name
    ensures |Names(cs)| == |cs|
    decreases |cs|
  {
    if cs != [] {
      var init := cs[..|cs| - 1];
      DistinctNamesCard(init);
      assert Names(cs) == Names(init) + {cs[|cs| - 1].name};
      assert cs[|cs| - 1].name !in Names(init);
    }
  }

  /** A broadcast makes exactly as many calls as the registry has entries,
      and each entry gets exactly one. */
  lemma BroadcastSize(cs: seq<Call>, users: Users)
    requires IsBroadcast(cs, users)
    ensures |cs| == |users|
    ensures forall name :: CallCount(cs, name) == if name in users then 1 else 0
  {
    DistinctNamesCard(cs);
    assert Names(cs) == users.Keys;
    forall name ensures CallCount(cs, name) == if name in users then 1 else 0 {
      DistinctCallCount(cs, name);
    }
  }

  lemma {:induction false} DistinctCallCount(cs: seq<Call>, name: string)
    requires forall i, j :: 0 <= i < j < |cs| ==> cs[i].name != cs[j].name
    ensures CallCount(cs, name) == if name in Names(cs) then 1 else 0
    decreases |cs|
  {
    if cs != [] {
      var init := cs[..|cs| - 1];
      DistinctCallCount(init, name);
      assert Names(cs) == Names(init) + {cs[|cs| - 1].name};
      assert cs[|cs| - 1].name !in Names(init);
    }
  }
}
