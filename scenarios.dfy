/**
 * The engine end to end: state built through `AppState`'s own operations, events through the tap
 * callback, the device registry filled from an enumeration.
 */
module Scenarios {
  import opened Wrappers
  import opened Primitives
  import opened Actions
  import opened Config
  import opened Resolver
  import opened Store
  import opened Synthesis
  import opened Tap
  import opened Enumeration

  /** An attached mouse with vendor 0x04f2, product 0x0112 and serial "ABC". */
  function Mouse(): HidDeviceInfo {
    HidDeviceInfo(0x01, 0x02, 0x04f2, 0x0112, Some("USB Optical Mouse"), None, Some("ABC"))
  }

  /** Settings that select `id` and map the given slot to the given action string. */
  function SelectWith(id: string, slot: string, action: string): Settings {
    Settings("system", false, Some(id), map[id := DeviceConfig("USB Optical Mouse", map[slot := action])])
  }

  const MOUSE_ID: string := "04f2:0112:ABC"

  /** Enumerating only that mouse reports it, as `04f2:0112:ABC`. */
  lemma MouseListed()
    ensures MouseDevicesOf([Mouse()]) == [MouseDevice(MOUSE_ID, "USB Optical Mouse")]
  {
    MouseKept();
    MouseId();
    assert [Mouse()][..0] == [];
  }

  lemma MouseKept()
    ensures Kept(Mouse())
  {
    NoKNoTrackpad("USB Optical Mouse");
  }

  lemma MouseId()
    ensures DeviceId(0x04f2, 0x0112, Some("ABC")) == MOUSE_ID
  {
    assert Hex4(0x04f2) == "04f2";
    assert Hex4(0x0112) == "0112";
  }

  /**
   * A fresh state after an enumeration that lists only the mouse and a save of settings that
   * select it and map `slot` to `action`.
   */
  method AttachedMouseWith(slot: string, action: string) returns (st: AppState)
    ensures fresh(st)
    ensures st.SnapshotSettings() == SelectWith(MOUSE_ID, slot, action)
    ensures st.AttachedIds() == {MOUSE_ID}
  {
    st := new AppState();
    var listed := ListOnlyMouse();
    st.UpdateSettings(SelectWith(MOUSE_ID, slot, action));
    st.UpdateDevices(listed);
    assert listed[0].id == MOUSE_ID;
  }

  /** `list_mouse_devices` over an enumeration holding only the mouse. */
  method ListOnlyMouse() returns (listed: seq<MouseDevice>)
    ensures |listed| == 1 && listed[0].id == MOUSE_ID
  {
    listed := ListMouseDevices([Mouse()]);
    MouseListed();
  }

  /**
   * The right button mapped to "Back": a right-button press resolves to Back, posts exactly one
   * Command+[ chord and no native right click.
   */
  method RightButtonBack(location: Point) returns (action: Action, forwarded: Option<TapEvent>, posted: seq<Synthetic>)
    ensures action == Back && forwarded == None
    ensures posted == [KeyEvent(0x21, true, true), KeyEvent(0x21, false, true)]
  {
    var st := AttachedMouseWith("right", "Back");
    action := st.ResolveAction(1);
    var source := new EventSource({});
    forwarded := TapCallback(st, source, TapEvent(RightMouseDown, 1, location));
    SurvivingNoneRefused(KeyCombo(KEYCODE_LEFT_BRACKET), 0, {});
    posted := source.posted;
  }

  /**
   * The middle button mapped to "Double Click": the press posts two left clicks at its location;
   * the release is suppressed too and posts nothing, so no native middle click occurs.
   */
  method MiddleButtonDoubleClick(location: Point)
    returns (pressForwarded: Option<TapEvent>, releaseForwarded: Option<TapEvent>, posted: seq<Synthetic>)
    ensures pressForwarded == None && releaseForwarded == None
    ensures posted ==
      [MouseEvent(LeftMouseDown, location, Left, 0), MouseEvent(LeftMouseUp, location, Left, 0),
       MouseEvent(LeftMouseDown, location, Left, 0), MouseEvent(LeftMouseUp, location, Left, 0)]
  {
    var st := AttachedMouseWith("middle", "Double Click");
    assert st.ResolveAction(2) == DoubleClick;
    var source := new EventSource({});
    var press := TapEvent(OtherMouseDown, 2, location);
    pressForwarded := TapCallback(st, source, press);
    DoubleClickPairs(press);
    SurvivingNoneRefused(Synthesized(DoubleClick, press), 0, {});
    ghost var afterPress := source.posted;
    var release := TapEvent(OtherMouseUp, 2, location);
    releaseForwarded := TapCallback(st, source, release);
    assert Synthesized(DoubleClick, release) == [];
    assert source.posted == afterPress;
    posted := source.posted;
  }

  /**
   * The configured device is unplugged: the next enumeration no longer lists it, and from then on
   * every button passes through, with no change to the settings.
   */
  method UnpluggedDevice() returns (before: Action, st: AppState)
    ensures before == Back
    ensures st.SnapshotSettings() == SelectWith(MOUSE_ID, "right", "Back")
    ensures forall button: i64 :: st.ResolveAction(button) == Default
  {
    st := AttachedMouseWith("right", "Back");
    before := st.ResolveAction(1);
    var listed := ListMouseDevices([]);
    st.UpdateDevices(listed);
  }

  /** Storing the same settings twice is not observable in later resolutions. */
  method ReplaceTwice(settings: Settings, list: seq<MouseDevice>, button: i64) returns (once: Action, twice: Action)
    ensures once == twice
    ensures settings.selectedDevice.Some? ==>
      (once != Default ==> exists k :: 0 <= k < |list| && list[k].id == settings.selectedDevice.value)
  {
    var st := new AppState();
    st.UpdateDevices(list);
    st.UpdateSettings(settings);
    once := st.ResolveAction(button);
    st.UpdateSettings(settings);
    twice := st.ResolveAction(button);
  }
}
