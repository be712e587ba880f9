/**
 * Synthetic input: `post_key_combo` and `post_mouse_click`. Posting is modelled as appending to
 * the event source's log; an event the system declines to create is skipped.
 */
module Synthesis {
  import opened Primitives

  /** The six mouse-button event types the tap is registered for and the synthesizer posts. */
  datatype MouseEventType =
    LeftMouseDown | LeftMouseUp | RightMouseDown | RightMouseUp | OtherMouseDown | OtherMouseUp

  predicate IsDown(t: MouseEventType) {
    t == LeftMouseDown || t == RightMouseDown || t == OtherMouseDown
  }

  /** The mouse button a synthetic mouse event is created for (`CGMouseButton`). */
  datatype MouseButton = Left | Right | Center

  /** A screen location, only ever copied from the intercepted event. */
  datatype Point = Point(x: real, y: real)

  /** A posted synthetic event: a key transition with the Command flag, or a mouse transition. */
  datatype Synthetic =
    | KeyEvent(keycode: u16, keyDown: bool, commandFlag: bool)
    | MouseEvent(eventType: MouseEventType, location: Point, mouseButton: MouseButton, buttonNumber: i64)

  /** Key code of '[', which with Command means "navigate back". */
  const KEYCODE_LEFT_BRACKET: u16 := 0x21
  /** Key code of ']', which with Command means "navigate forward". */
  const KEYCODE_RIGHT_BRACKET: u16 := 0x1E

  /** The events `post_key_combo` tries to post: key down, then key up, both with Command. */
  function KeyCombo(keycode: u16): seq<Synthetic> {
    [KeyEvent(keycode, true, true), KeyEvent(keycode, false, true)]
  }

  function MouseButtonFor(button: i64): MouseButton {
    match button
    case 0 => Left
    case 1 => Right
    case _ => Center
  }

  function DownTypeFor(button: i64): MouseEventType {
    match button
    case 0 => LeftMouseDown
    case 1 => RightMouseDown
    case _ => OtherMouseDown
  }

  function UpTypeFor(button: i64): MouseEventType {
    match button
    case 0 => LeftMouseUp
    case 1 => RightMouseUp
    case _ => OtherMouseUp
  }

  /** One emulated click of `button` at `location`: its down event then its up event. */
  function ClickPair(location: Point, button: i64): seq<Synthetic> {
    [MouseEvent(DownTypeFor(button), location, MouseButtonFor(button), button),
     MouseEvent(UpTypeFor(button), location, MouseButtonFor(button), button)]
  }

  /** The events `post_mouse_click` tries to post for `clicks` clicks. */
  function MouseClicks(location: Point, button: i64, clicks: nat): seq<Synthetic> {
    if clicks == 0 then [] else MouseClicks(location, button, clicks - 1) + ClickPair(location, button)
  }

  lemma {:induction false} MouseClicksLength(location: Point, button: i64, clicks: nat)
    ensures |MouseClicks(location, button, clicks)| == 2 * clicks
  {
    if clicks > 0 {
      MouseClicksLength(location, button, clicks - 1);
    }
  }

  /**
   * The shape of a click sequence: `2 * clicks` events alternating down, up, all at `location`,
   * all tagged with `button`; downs are even positions and each is followed by its up.
   */
  lemma {:induction false} MouseClicksShape(location: Point, button: i64, clicks: nat)
    ensures |MouseClicks(location, button, clicks)| == 2 * clicks
    ensures forall k :: 0 <= k < |MouseClicks(location, button, clicks)| ==>
      var e := MouseClicks(location, button, clicks)[k];
      && e.MouseEvent?
      && e.location == location
      && e.buttonNumber == button
      && e.mouseButton == MouseButtonFor(button)
      && e.eventType == (if k % 2 == 0 then DownTypeFor(button) else UpTypeFor(button))
  {
    if clicks > 0 {
      MouseClicksShape(location, button, clicks - 1);
    }
  }

  /**
   * The events of `attempts` that get posted when creation attempt number `start + k` makes the
   * k-th of them and the attempts numbered in `refused` fail.
   */
  function Surviving(attempts: seq<Synthetic>, start: nat, refused: set<nat>): seq<Synthetic> {
    if attempts == [] then []
    else (if start in refused then [] else [attempts[0]]) + Surviving(attempts[1..], start + 1, refused)
  }

  /** Skipping failed creations splits over concatenation. */
  lemma {:induction false} SurvivingAppend(a: seq<Synthetic>, b: seq<Synthetic>, start: nat, refused: set<nat>)
    ensures Surviving(a + b, start, refused) == Surviving(a, start, refused) + Surviving(b, start + |a|, refused)
  {
    if a == [] {
      assert a + b == b;
    } else {
      assert (a + b)[0] == a[0];
      assert (a + b)[1..] == a[1..] + b;
      SurvivingAppend(a[1..], b, start + 1, refused);
    }
  }

  /** Two attempts in a row: the first, then the second, each posted unless refused. */
  lemma SurvivingPair(x: Synthetic, y: Synthetic, start: nat, refused: set<nat>)
    ensures Surviving([x, y], start, refused) == Surviving([x], start, refused) + Surviving([y], start + 1, refused)
  {
    SurvivingAppend([x], [y], start, refused);
    assert [x] + [y] == [x, y];
  }

  /** When no attempt in range is refused, every intended event is posted, in order. */
  lemma {:induction false} SurvivingNoneRefused(attempts: seq<Synthetic>, start: nat, refused: set<nat>)
    requires forall n: nat :: start <= n < start + |attempts| ==> n !in refused
    ensures Surviving(attempts, start, refused) == attempts
  {
    if attempts != [] {
      SurvivingNoneRefused(attempts[1..], start + 1, refused);
    }
  }

  /** What gets posted is never more than what was attempted, and never anything else. */
  lemma {:induction false} SurvivingIsSubset(attempts: seq<Synthetic>, start: nat, refused: set<nat>)
    ensures |Surviving(attempts, start, refused)| <= |attempts|
    ensures forall e :: e in Surviving(attempts, start, refused) ==> e in attempts
  {
    if attempts != [] {
      SurvivingIsSubset(attempts[1..], start + 1, refused);
    }
  }

  /**
   * The synthetic event source and the system's posting queue. `attempts` counts event creations
   * so far; `refused` names the creation attempts the system declines.
   */
  class EventSource {
    var posted: seq<Synthetic>
    var attempts: nat
    const refused: set<nat>

    constructor (refused: set<nat>)
      ensures posted == [] && attempts == 0 && this.refused == refused
    {
      posted := [];
      attempts := 0;
      this.refused := refused;
    }

    /** `CGEvent::new_*`: one creation attempt, which succeeds unless its number is refused. */
    method NewEvent() returns (ok: bool)
      modifies this`attempts
      ensures attempts == old(attempts) + 1
      ensures ok <==> old(attempts) !in refused
    {
      ok := attempts !in refused;
      attempts := attempts + 1;
    }

    /** `CGEvent::post` at the HID tap location. */
    method Post(e: Synthetic)
      modifies this`posted
      ensures posted == old(posted) + [e]
    {
      posted := posted + [e];
    }

    /** One `if let Ok(ev) = CGEvent::new_* { ...; ev.post(..) }` step: create, then post if created. */
    method TryPost(e: Synthetic)
      modifies this`attempts, this`posted
      ensures attempts == old(attempts) + 1
      ensures posted == old(posted) + Surviving([e], old(attempts), refused)
    {
      var ok := NewEvent();
      if ok {
        Post(e);
      }
    }
  }

  /** `post_key_combo`: key down then key up of `keycode`, each with the Command flag, each skipped if not created. */
  method PostKeyCombo(source: EventSource, keycode: u16)
    modifies source
    ensures source.attempts == old(source.attempts) + 2
    ensures source.posted == old(source.posted) + Surviving(KeyCombo(keycode), old(source.attempts), source.refused)
  {
    source.TryPost(KeyEvent(keycode, true, true));
    source.TryPost(KeyEvent(keycode, false, true));
    SurvivingPair(KeyEvent(keycode, true, true), KeyEvent(keycode, false, true), old(source.attempts), source.refused);
  }

  lemma AppendAssoc(a: seq<Synthetic>, b: seq<Synthetic>, c: seq<Synthetic>)
    ensures (a + b) + c == a + (b + c)
  {
  }

  /** The attempts of click `clicks + 1` come right after the `2 * clicks` attempts before it. */
  lemma ClickStep(location: Point, button: i64, clicks: nat, start: nat, refused: set<nat>)
    ensures Surviving(MouseClicks(location, button, clicks + 1), start, refused) ==
      Surviving(MouseClicks(location, button, clicks), start, refused) +
      Surviving(ClickPair(location, button), start + 2 * clicks, refused)
  {
    MouseClicksLength(location, button, clicks);
    SurvivingAppend(MouseClicks(location, button, clicks), ClickPair(location, button), start, refused);
  }

  /** One pass of the loop in `post_mouse_click`: the click's down event, then its up event. */
  method PostClick(source: EventSource, location: Point, button: i64)
    modifies source
    ensures source.attempts == old(source.attempts) + 2
    ensures source.posted == old(source.posted) + Surviving(ClickPair(location, button), old(source.attempts), source.refused)
  {
    var mouseButton := MouseButtonFor(button);
    var down := MouseEvent(DownTypeFor(button), location, mouseButton, button);
    var up := MouseEvent(UpTypeFor(button), location, mouseButton, button);
    source.TryPost(down);
    source.TryPost(up);
    SurvivingPair(down, up, old(source.attempts), source.refused);
  }

  /**
   * `post_mouse_click`: one click, or two when `double`, of `button` at `location`; each click's
   * down precedes its up and each event is skipped if not created.
   */
  method PostMouseClick(source: EventSource, location: Point, button: i64, double: bool)
    modifies source
    ensures source.attempts == old(source.attempts) + 2 * (if double then 2 else 1)
    ensures source.posted == old(source.posted) +
      Surviving(MouseClicks(location, button, if double then 2 else 1), old(source.attempts), source.refused)
  {
    var clicks := if double then 2 else 1;
    ghost var start, log := source.attempts, source.posted;
    ghost var done: seq<Synthetic> := [];
    for i := 0 to clicks
      invariant source.attempts == start + 2 * i
      invariant done == Surviving(MouseClicks(location, button, i), start, source.refused)
      invariant source.posted == log + done
    {
      ghost var pair := Surviving(ClickPair(location, button), start + 2 * i, source.refused);
      PostClick(source, location, button);
      ClickStep(location, button, i, start, source.refused);
      AppendAssoc(log, done, pair);
      done := done + pair;
    }
  }
}
