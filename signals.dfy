/**
 * Values shared by both controller variants: an optional inbound payload, the
 * level sequence an alarm writes to the red LED, and the ordered effects an
 * alarm has on the outside world.
 */
module Signals {

  datatype Option<+T> = None | Some(value: T)

  /**
   * The levels written to the red LED by `n` alarm cycles, in order: each cycle
   * switches the LED on and then off again.
   */
  function Blinks(n: nat): seq<bool>
  {
    if n == 0 then [] else Blinks(n - 1) + [true, false]
  }

  /** `n` cycles write `2 * n` levels that alternate on, off, on, off, ... */
  lemma {:induction false} BlinksAlternate(n: nat)
    ensures |Blinks(n)| == 2 * n
    ensures forall i :: 0 <= i < 2 * n ==> Blinks(n)[i] == (i % 2 == 0)
  {
    if n > 0 {
      BlinksAlternate(n - 1);
    }
  }

  /** The LED is switched on exactly `n` times, and after a non-empty run it is left off. */
  lemma {:induction false} BlinksCount(n: nat)
    ensures multiset(Blinks(n))[true] == n
    ensures multiset(Blinks(n))[false] == n
    ensures n > 0 ==> Blinks(n)[|Blinks(n)| - 1] == false
  {
    if n > 0 {
      BlinksCount(n - 1);
    }
  }

  /** One outward effect: a write to the red LED, or a message handed to the MQTT client. */
  datatype Effect<P> = Red(on: bool) | Pub(message: P)

  /** The LED writes of a level sequence, in order. */
  function RedWrites<P>(levels: seq<bool>): seq<Effect<P>> {
    seq(|levels|, i requires 0 <= i < |levels| => Red(levels[i]))
  }

  /** The messages among some effects, in order. */
  function Pubs<P>(effects: seq<Effect<P>>): seq<P>
    decreases |effects|
  {
    if effects == [] then []
    else (if effects[0].Pub? then [effects[0].message] else []) + Pubs(effects[1..])
  }

  lemma AppendAssoc<T>(a: seq<T>, b: seq<T>, c: seq<T>)
    ensures (a + b) + c == a + (b + c)
  {
  }

  /** The effect of handing `message` to the client: none when there is no usable client. */
  function Report<P>(connected: bool, message: P): seq<Effect<P>> {
    if connected then [Pub(message)] else []
  }

  lemma PubsReport<P>(connected: bool, message: P)
    ensures Pubs(Report(connected, message)) == if connected then [message] else []
  {
  }

  /** One more blink cycle appends an on write and an off write. */
  lemma RedWritesCycle<P>(levels: seq<bool>)
    ensures RedWrites<P>(levels + [true, false]) == RedWrites<P>(levels) + [Red(true), Red(false)]
  {
  }

  lemma {:induction false} PubsAppend<P>(a: seq<Effect<P>>, b: seq<Effect<P>>)
    ensures Pubs(a + b) == Pubs(a) + Pubs(b)
    decreases |a|
  {
    if a == [] {
      assert a + b == b;
    } else {
      var head := if a[0].Pub? then [a[0].message] else [];
      assert (a + b)[0] == a[0];
      assert (a + b)[1..] == a[1..] + b;
      calc {
        Pubs(a + b);
        head + Pubs(a[1..] + b);
        { PubsAppend(a[1..], b); }
        head + (Pubs(a[1..]) + Pubs(b));
        (head + Pubs(a[1..])) + Pubs(b);
        Pubs(a) + Pubs(b);
      }
    }
  }

  /** LED writes publish nothing. */
  lemma {:induction false} PubsRedWrites<P>(levels: seq<bool>)
    ensures Pubs(RedWrites<P>(levels)) == []
    decreases |levels|
  {
    if levels != [] {
      assert RedWrites<P>(levels)[1..] == RedWrites<P>(levels[1..]);
      PubsRedWrites<P>(levels[1..]);
    }
  }
}
