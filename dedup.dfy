/** The duplicate-message filter of the `message` handler (main.js:91-99):
    two process-wide variables hold the time and the serialization of the
    last accepted command message; an equal serialization that arrives less
    than 1200 ms later is dropped. Drops do not refresh the variables, so
    the window is measured from the last ACCEPTED message. */
module Dedup {

  /** The filter window, in milliseconds. */
  const FilterWindowMs: int := 1200

  /** The values of `lastMessageTime` and `lastMessageText`. */
  datatype Gate = Gate(lastTime: int, lastText: string)

  /** Their values when the adapter starts (main.js:47-48). */
  const InitialGate: Gate := Gate(0, "")

  /** The condition of main.js:93. `lastMessageTime` is tested for
      truthiness, so a last time of 0 never filters. */
  predicate IsRepeat(g: Gate, signature: string, now: int) {
    g.lastTime != 0 && g.lastText == signature && now - g.lastTime < FilterWindowMs
  }

  /** The filter's effect on its two variables for one command message. */
  function Step(g: Gate, signature: string, now: int): Gate {
    if IsRepeat(g, signature, now) then g else Gate(now, signature)
  }

  /** A command-bearing message as the filter sees it: its serialization
      and the clock reading at its arrival. */
  datatype Arrival = Arrival(signature: string, now: int)

  /** The filter's variables after a sequence of command messages. */
  function Run(g: Gate, trace: seq<Arrival>): Gate
    decreases |trace|
  {
    if trace == [] then g
    else Run(Step(g, trace[0].signature, trace[0].now), trace[1..])
  }

  /** The messages of a trace that pass the filter, in order. */
  function Accepted(g: Gate, trace: seq<Arrival>): (a: seq<Arrival>)
    ensures |a| <= |trace|
    ensures forall x :: x in a ==> x in trace
    decreases |trace|
  {
    if trace == [] then []
    else
      var rest := Accepted(Step(g, trace[0].signature, trace[0].now), trace[1..]);
      assert forall x :: x in trace[1..] ==> x in trace;
      if IsRepeat(g, trace[0].signature, trace[0].now) then rest
      else [trace[0]] + rest
  }

  /** After a message is accepted at a nonzero time t0, every repeat of it
      that arrives before t0 + 1200 is dropped and leaves the filter as it
      was, however many such repeats arrive. */
  lemma {:induction false} RepeatsInsideWindowDropped(t0: int, signature: string, trace: seq<Arrival>)
    requires t0 != 0
    requires forall k :: 0 <= k < |trace| ==>
      trace[k].signature == signature && trace[k].now - t0 < FilterWindowMs
    ensures Accepted(Gate(t0, signature), trace) == []
    ensures Run(Gate(t0, signature), trace) == Gate(t0, signature)
    decreases |trace|
  {
    if trace != [] {
      assert IsRepeat(Gate(t0, signature), trace[0].signature, trace[0].now);
      RepeatsInsideWindowDropped(t0, signature, trace[1..]);
    }
  }

  /** The first message a trace lets through is never a repeat, within the
      window, of the message the filter holds. */
  lemma {:induction false} FirstAcceptedOutsideWindow(g: Gate, trace: seq<Arrival>)
    requires Accepted(g, trace) != []
    ensures var x := Accepted(g, trace)[0];
      g.lastTime != 0 && x.signature == g.lastText ==> x.now - g.lastTime >= FilterWindowMs
    decreases |trace|
  {
    if IsRepeat(g, trace[0].signature, trace[0].now) {
      FirstAcceptedOutsideWindow(g, trace[1..]);
    }
  }

  /** Two consecutive accepted messages with the same serialization are at
      least 1200 ms apart (unless the first was stamped 0, which the
      truthiness test does not treat as a last time). */
  lemma {:induction false} AcceptedRepeatsSpaced(g: Gate, trace: seq<Arrival>)
    ensures var a := Accepted(g, trace);
      forall k :: 0 <= k < |a| - 1 && a[k].signature == a[k + 1].signature && a[k].now != 0 ==>
        a[k + 1].now - a[k].now >= FilterWindowMs
    decreases |trace|
  {
    if trace != [] {
      var x := trace[0];
      var g' := Step(g, x.signature, x.now);
      AcceptedRepeatsSpaced(g', trace[1..]);
      var rest := Accepted(g', trace[1..]);
      if !IsRepeat(g, x.signature, x.now) && rest != [] {
        FirstAcceptedOutsideWindow(g', trace[1..]);
        var a := Accepted(g, trace);
        assert a == [x] + rest;
        forall k | 0 <= k < |a| - 1 && a[k].signature == a[k + 1].signature && a[k].now != 0
          ensures a[k + 1].now - a[k].now >= FilterWindowMs
        {
          if k > 0 {
            assert a[k] == rest[k - 1] && a[k + 1] == rest[k];
          }
        }
      }
    }
  }

  /** The filter holds the last accepted message: after any trace with at
      least one accepted message, the filter's variables are the time and
      serialization of the last one accepted. */
  lemma {:induction false} RunHoldsLastAccepted(g: Gate, trace: seq<Arrival>)
    ensures var a := Accepted(g, trace);
      Run(g, trace) == if a == [] then g else Gate(a[|a| - 1].now, a[|a| - 1].signature)
    decreases |trace|
  {
    if trace != [] {
      RunHoldsLastAccepted(Step(g, trace[0].signature, trace[0].now), trace[1..]);
    }
  }
}
