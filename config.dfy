/** The configuration the remapping engine reads: `Settings`, `DeviceConfig`, button slots. */
module Config {
  import opened Wrappers
  import opened Primitives

  /** Per-device configuration: a display name and slot name -> action string. */
  datatype DeviceConfig = DeviceConfig(name: string, buttons: map<string, string>)

  /** The whole settings snapshot; replaced wholesale, never merged. */
  datatype Settings = Settings(
    theme: string,
    startup: bool,
    selectedDevice: Option<string>,
    devices: map<string, DeviceConfig>)

  /** An attached pointing device as enumeration reports it. */
  datatype MouseDevice = MouseDevice(id: string, name: string)

  /** The configuration key of physical button `button`; buttons without a slot have none. */
  function SlotKey(button: i64): (k: Option<string>)
    ensures k.Some? <==> 0 <= button < 5
    ensures 0 <= button < 5 ==> k.value == ["left", "right", "middle", "button4", "button5"][button]
  {
    match button
    case 0 => Some("left")
    case 1 => Some("right")
    case 2 => Some("middle")
    case 3 => Some("button4")
    case 4 => Some("button5")
    case _ => None
  }

  /** Distinct buttons have distinct slots, so no two buttons share a configuration entry. */
  lemma SlotKeyInjective(b1: i64, b2: i64)
    requires SlotKey(b1).Some? && SlotKey(b1) == SlotKey(b2)
    ensures b1 == b2
  {
  }

  /** `default_buttons`: every slot present, each set to "Default". */
  function DefaultButtons(): (m: map<string, string>)
    ensures forall b: i64 :: SlotKey(b).Some? ==> SlotKey(b).value in m && m[SlotKey(b).value] == "Default"
    ensures forall k :: k in m ==> exists b: i64 :: SlotKey(b) == Some(k)
  {
    assert SlotKey(0) == Some("left") && SlotKey(1) == Some("right") && SlotKey(2) == Some("middle");
    assert SlotKey(3) == Some("button4") && SlotKey(4) == Some("button5");
    map["left" := "Default", "right" := "Default", "middle" := "Default",
        "button4" := "Default", "button5" := "Default"]
  }

  /** `DeviceConfig::default`. */
  function DefaultDeviceConfig(): (c: DeviceConfig)
    ensures c.name == "" && c.buttons == DefaultButtons()
  {
    DeviceConfig("", DefaultButtons())
  }

  /** `Settings::default`, also what a poisoned settings lock yields. */
  function DefaultSettings(): (s: Settings)
    ensures s.theme == "system" && !s.startup
    ensures s.selectedDevice.None? && s.devices == map[]
  {
    Settings("system", false, None, map[])
  }
}
