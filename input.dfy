/** The keyboard input sampler of ui.js: a set of held key codes and a one-shot kick latch
    that `GetInput` clears as it reports it. */
module Input {

  const SPACE: string := "Space"

  /** What one call of `getInput` reports. */
  datatype InputSnapshot = InputSnapshot(left: bool, right: bool, up: bool, down: bool, kick: bool)

  /** The handler's state as a value: the held codes and the queued kick. */
  datatype Latch = Latch(pressed: set<string>, kickQueued: bool)

  /** The three things that can happen to a handler: a key goes down, a key goes up, the game reads it. */
  datatype KeyEvent = KeyDown(code: string) | KeyUp(code: string) | Read

  /** The snapshot a read reports; arrow keys and WASD are aliases. */
  function Sample(l: Latch): InputSnapshot {
    InputSnapshot(
      "ArrowLeft" in l.pressed || "KeyA" in l.pressed,
      "ArrowRight" in l.pressed || "KeyD" in l.pressed,
      "ArrowUp" in l.pressed || "KeyW" in l.pressed,
      "ArrowDown" in l.pressed || "KeyS" in l.pressed,
      l.kickQueued)
  }

  /** The effect of one event on the handler's state. */
  function Deliver(l: Latch, e: KeyEvent): (r: Latch)
    ensures e.KeyDown? ==> r.pressed == l.pressed + {e.code} && r.kickQueued == (l.kickQueued || e.code == SPACE)
    ensures e.KeyUp? ==> e.code !in r.pressed && r.pressed + {e.code} == l.pressed + {e.code} && r.kickQueued == l.kickQueued
    ensures e.Read? ==> r.pressed == l.pressed && !r.kickQueued
  {
    match e
    case KeyDown(code) => Latch(l.pressed + {code}, l.kickQueued || code == SPACE)
    case KeyUp(code) => Latch(l.pressed - {code}, l.kickQueued)
    case Read => l.(kickQueued := false)
  }

  /** The handler's state after the events, delivered in order. */
  function After(l: Latch, events: seq<KeyEvent>): Latch
    decreases |events|
  {
    if events == [] then l else Deliver(After(l, events[..|events| - 1]), events[|events| - 1])
  }

  /** Holding a key down (auto-repeat) changes nothing after the first key-down. */
  lemma KeyDownIdempotent(l: Latch, code: string)
    ensures Deliver(Deliver(l, KeyDown(code)), KeyDown(code)) == Deliver(l, KeyDown(code))
  {
  }

  /** How many reads among the events report a kick. */
  function KicksReported(l: Latch, events: seq<KeyEvent>): nat
    decreases |events|
  {
    if events == [] then 0
    else
      var before := events[..|events| - 1];
      KicksReported(l, before) + (if events[|events| - 1] == Read && After(l, before).kickQueued then 1 else 0)
  }

  /** How many Space key-downs there are among the events. */
  function SpacePresses(events: seq<KeyEvent>): nat
    decreases |events|
  {
    if events == [] then 0
    else SpacePresses(events[..|events| - 1]) + (if events[|events| - 1] == KeyDown(SPACE) then 1 else 0)
  }

  /** Each Space press is reported by at most one read: the kicks reported so far and the one still
      queued together never exceed the presses (plus a kick queued at the start). */
  lemma {:induction false} KickReportedAtMostOnce(l: Latch, events: seq<KeyEvent>)
    ensures KicksReported(l, events) + (if After(l, events).kickQueued then 1 else 0)
            <= SpacePresses(events) + (if l.kickQueued then 1 else 0)
  {
    if events != [] {
      KickReportedAtMostOnce(l, events[..|events| - 1]);
    }
  }

  /** A kick is queued exactly when some Space press has not been followed by a read yet
      (or one was queued at the start and nothing has read it). */
  lemma {:induction false} KickQueuedIffUnreadPress(l: Latch, events: seq<KeyEvent>)
    ensures After(l, events).kickQueued <==>
              (exists i :: 0 <= i < |events| && events[i] == KeyDown(SPACE) && forall j :: i < j < |events| ==> events[j] != Read)
              || (l.kickQueued && forall j :: 0 <= j < |events| ==> events[j] != Read)
  {
    if events != [] {
      var n := |events| - 1;
      var before := events[..n];
      KickQueuedIffUnreadPress(l, before);
      assert forall j :: 0 <= j < n ==> before[j] == events[j];
      if events[n] == Read {
        assert !After(l, events).kickQueued;
      } else if events[n] == KeyDown(SPACE) {
        assert After(l, events).kickQueued;
      } else {
        if exists i :: 0 <= i < n && before[i] == KeyDown(SPACE) && forall j :: i < j < n ==> before[j] != Read {
          var i :| 0 <= i < n && before[i] == KeyDown(SPACE) && forall j :: i < j < n ==> before[j] != Read;
          assert events[i] == KeyDown(SPACE) && forall j :: i < j < |events| ==> events[j] != Read;
        }
        if exists i :: 0 <= i < |events| && events[i] == KeyDown(SPACE) && forall j :: i < j < |events| ==> events[j] != Read {
          var i :| 0 <= i < |events| && events[i] == KeyDown(SPACE) && forall j :: i < j < |events| ==> events[j] != Read;
          assert i < n && before[i] == KeyDown(SPACE);
        }
      }
    }
  }

  /** The handler object returned by createInputHandler, with its two key listeners and getInput as methods. */
  class InputHandler {
    var pressed: set<string>
    var kickQueued: bool

    function State(): Latch
      reads this
    {
      Latch(pressed, kickQueued)
    }

    constructor ()
      ensures pressed == {} && !kickQueued
    {
      pressed := {};
      kickQueued := false;
    }

    method OnKeyDown(code: string)
      modifies this
      ensures State() == Deliver(old(State()), KeyDown(code))
      ensures pressed == old(pressed) + {code}
      ensures kickQueued == (old(kickQueued) || code == SPACE)
    {
      pressed := pressed + {code};
      if code == SPACE {
        kickQueued := true;
      }
    }

    method OnKeyUp(code: string)
      modifies this
      ensures State() == Deliver(old(State()), KeyUp(code))
      ensures pressed == old(pressed) - {code} && kickQueued == old(kickQueued)
    {
      pressed := pressed - {code};
    }

    method GetInput() returns (input: InputSnapshot)
      modifies this
      ensures input == Sample(old(State())) && State() == Deliver(old(State()), Read)
      ensures input.left <==> "ArrowLeft" in pressed || "KeyA" in pressed
      ensures input.right <==> "ArrowRight" in pressed || "KeyD" in pressed
      ensures input.up <==> "ArrowUp" in pressed || "KeyW" in pressed
      ensures input.down <==> "ArrowDown" in pressed || "KeyS" in pressed
      ensures input.kick == old(kickQueued) && !kickQueued && pressed == old(pressed)
    {
      input := InputSnapshot(
        "ArrowLeft" in pressed || "KeyA" in pressed,
        "ArrowRight" in pressed || "KeyD" in pressed,
        "ArrowUp" in pressed || "KeyW" in pressed,
        "ArrowDown" in pressed || "KeyS" in pressed,
        kickQueued);
      kickQueued := false;
    }
  }

  /** Two reads in a row: the second never reports a kick, and both report the same held keys. */
  method ReadTwice(handler: InputHandler) returns (first: InputSnapshot, second: InputSnapshot)
    modifies handler
    ensures first.kick == old(handler.kickQueued) && !second.kick
    ensures first.(kick := false) == second
    ensures handler.pressed == old(handler.pressed) && !handler.kickQueued
  {
    first := handler.GetInput();
    second := handler.GetInput();
  }
}
