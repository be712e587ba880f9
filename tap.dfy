/**
 * The event-tap callback of `start_mouse_remap`: per intercepted mouse-button event, resolve an
 * action; forward the event unchanged for `Default`, otherwise suppress it and, on a down
 * transition, post the replacement input.
 */
module Tap {
  import opened Wrappers
  import opened Primitives
  import opened Actions
  import opened Config
  import opened Resolver
  import opened Store
  import opened Synthesis

  /** An intercepted event: its type, its button-number field and its location. */
  datatype TapEvent = TapEvent(eventType: MouseEventType, buttonNumber: i64, location: Point)

  /** What the callback hands back to the dispatch pipeline: the event itself, or nothing. */
  function Forwarded(action: Action, event: TapEvent): Option<TapEvent> {
    if action == Default then Some(event) else None
  }

  /** The replacement input the callback tries to post for `action` on `event`. */
  function Synthesized(action: Action, event: TapEvent): seq<Synthetic> {
    if action == Default || !IsDown(event.eventType) then []
    else
      match action
      case Disabled => []
      case Back => KeyCombo(KEYCODE_LEFT_BRACKET)
      case Forward => KeyCombo(KEYCODE_RIGHT_BRACKET)
      case MiddleClick => MouseClicks(event.location, 2, 1)
      case DoubleClick => MouseClicks(event.location, 0, 2)
      case Default => []
  }

  /** The tap callback. */
  method TapCallback(state: AppState, source: EventSource, event: TapEvent) returns (result: Option<TapEvent>)
    modifies source
    ensures result == Forwarded(state.ResolveAction(event.buttonNumber), event)
    ensures source.attempts == old(source.attempts) + |Synthesized(state.ResolveAction(event.buttonNumber), event)|
    ensures source.posted == old(source.posted) +
      Surviving(Synthesized(state.ResolveAction(event.buttonNumber), event), old(source.attempts), source.refused)
  {
    var action := state.ResolveAction(event.buttonNumber);
    if action == Default {
      return Some(event);
    }
    if IsDown(event.eventType) {
      match action {
        case Disabled =>
        case Back => PostKeyCombo(source, KEYCODE_LEFT_BRACKET);
        case Forward => PostKeyCombo(source, KEYCODE_RIGHT_BRACKET);
        case MiddleClick =>
          PostMouseClick(source, event.location, 2, false);
          MouseClicksLength(event.location, 2, 1);
        case DoubleClick =>
          PostMouseClick(source, event.location, 0, true);
          MouseClicksLength(event.location, 0, 2);
        case Default =>
      }
    }
    return None;
  }

  /** `Default` forwards the original event unchanged and posts nothing. */
  lemma DefaultPassesThrough(event: TapEvent)
    ensures Forwarded(Default, event) == Some(event)
    ensures Synthesized(Default, event) == []
  {
  }

  /** Every other action suppresses the event, down and up alike. */
  lemma RemapSuppresses(action: Action, event: TapEvent)
    requires action != Default
    ensures Forwarded(action, event) == None
  {
  }

  /** Replacement input is only posted on down transitions; `Disabled` posts nothing at all. */
  lemma SynthesisOnlyOnDown(action: Action, event: TapEvent)
    requires !IsDown(event.eventType) || action == Disabled
    ensures Synthesized(action, event) == []
  {
  }

  /** Back and Forward post Command+[ and Command+], key down before key up. */
  lemma NavigationChords(event: TapEvent)
    requires IsDown(event.eventType)
    ensures Synthesized(Back, event) == [KeyEvent(0x21, true, true), KeyEvent(0x21, false, true)]
    ensures Synthesized(Forward, event) == [KeyEvent(0x1E, true, true), KeyEvent(0x1E, false, true)]
  {
  }

  /** MiddleClick posts one OtherMouseDown/OtherMouseUp pair for button 2 at the event's location. */
  lemma MiddleClickPair(event: TapEvent)
    requires IsDown(event.eventType)
    ensures Synthesized(MiddleClick, event) ==
      [MouseEvent(OtherMouseDown, event.location, Center, 2), MouseEvent(OtherMouseUp, event.location, Center, 2)]
  {
    assert MouseClicks(event.location, 2, 1) == [] + ClickPair(event.location, 2);
  }

  /** DoubleClick posts two LeftMouseDown/LeftMouseUp pairs for button 0 at the event's location. */
  lemma DoubleClickPairs(event: TapEvent)
    requires IsDown(event.eventType)
    ensures Synthesized(DoubleClick, event) ==
      [MouseEvent(LeftMouseDown, event.location, Left, 0), MouseEvent(LeftMouseUp, event.location, Left, 0),
       MouseEvent(LeftMouseDown, event.location, Left, 0), MouseEvent(LeftMouseUp, event.location, Left, 0)]
  {
    var loc := event.location;
    assert MouseClicks(loc, 0, 1) == ClickPair(loc, 0);
    assert MouseClicks(loc, 0, 2) == ClickPair(loc, 0) + ClickPair(loc, 0);
  }

  /**
   * Every synthesized mouse event is at the intercepted event's location, and in every synthesized
   * sequence each down (even position) is immediately followed by its up.
   */
  /** Two synthetic events belong to one key chord or one click: same key code, or same button and location. */
  predicate SamePress(down: Synthetic, up: Synthetic) {
    || (down.KeyEvent? && up.KeyEvent? && down.keycode == up.keycode)
    || (down.MouseEvent? && up.MouseEvent? && down.buttonNumber == up.buttonNumber
        && down.mouseButton == up.mouseButton && down.location == up.location)
  }

  lemma {:induction false} SynthesizedOrdered(action: Action, event: TapEvent)
    ensures |Synthesized(action, event)| % 2 == 0
    ensures forall k :: 0 <= k < |Synthesized(action, event)| && k % 2 == 0 ==>
      SamePress(Synthesized(action, event)[k], Synthesized(action, event)[k + 1])
    ensures forall k :: 0 <= k < |Synthesized(action, event)| ==>
      var e := Synthesized(action, event)[k];
      && (e.MouseEvent? ==> e.location == event.location && (IsDown(e.eventType) <==> k % 2 == 0))
      && (e.KeyEvent? ==> e.commandFlag && (e.keyDown <==> k % 2 == 0))
  {
    if IsDown(event.eventType) {
      match action {
        case MiddleClick => MouseClicksShape(event.location, 2, 1);
        case DoubleClick => MouseClicksShape(event.location, 0, 2);
        case _ =>
      }
    }
  }

  /**
   * A press and its release under unchanged stores: for a remapped button both transitions are
   * suppressed and only the press posts input, so one press gives one logical action.
   */
  lemma PressAndReleaseOnce(action: Action, press: TapEvent, release: TapEvent)
    requires action != Default
    requires IsDown(press.eventType) && !IsDown(release.eventType)
    ensures Forwarded(action, press) == None && Forwarded(action, release) == None
    ensures Synthesized(action, release) == []
  {
  }

  /**
   * Each transition is resolved afresh: when the stores change between a press and its release
   * (say the device is unplugged), a suppressed press can be followed by a forwarded release.
   */
  lemma StaleReleaseForwarded(settings: Settings, press: TapEvent, release: TapEvent)
    requires settings.selectedDevice.Some?
    requires Resolve(settings, {settings.selectedDevice.value}, press.buttonNumber) != Default
    requires release.buttonNumber == press.buttonNumber
    ensures Forwarded(Resolve(settings, {settings.selectedDevice.value}, press.buttonNumber), press) == None
    ensures Forwarded(Resolve(settings, {}, release.buttonNumber), release) == Some(release)
  {
  }

  /**
   * Synthetic events pass through the tap like physical ones, and resolution does not ask which
   * device an event came from: when the middle slot is mapped to MiddleClick, the OtherMouseDown
   * it posts resolves to MiddleClick again.
   */
  lemma MiddleClickRetriggers(settings: Settings, available: set<string>, event: TapEvent)
    requires IsDown(event.eventType)
    requires Resolve(settings, available, 2) == MiddleClick
    ensures var e := Synthesized(MiddleClick, event)[0];
      && e.MouseEvent?
      && Resolve(settings, available, e.buttonNumber) == MiddleClick
      && Synthesized(MiddleClick, TapEvent(e.eventType, e.buttonNumber, e.location)) == Synthesized(MiddleClick, event)
  {
    MiddleClickPair(event);
  }
}
