/**
 * `resolve_action`: from a settings snapshot, the live set of attached device ids and a physical
 * button number to an `Action`. Every failed step of the lookup chain falls back to `Default`.
 */
module Resolver {
  import opened Wrappers
  import opened Primitives
  import opened Actions
  import opened Config

  /** The five lookups succeed: a selected device, attached, configured, and a button with a slot. */
  predicate Remappable(settings: Settings, available: set<string>, button: i64) {
    && settings.selectedDevice.Some?
    && settings.selectedDevice.value in available
    && settings.selectedDevice.value in settings.devices
    && SlotKey(button).Some?
  }

  /**
   * A non-`Default` result needs every step to succeed and an explicit entry for the slot whose
   * string parses to that action; conversely, when every step succeeds the result is the parse of
   * the slot's entry, and a missing entry counts as "Default".
   */
  function Resolve(settings: Settings, available: set<string>, button: i64): (a: Action)
    ensures a != Default ==>
      && Remappable(settings, available, button)
      && SlotKey(button).value in settings.devices[settings.selectedDevice.value].buttons
      && ParseAction(settings.devices[settings.selectedDevice.value].buttons[SlotKey(button).value]) == a
    ensures Remappable(settings, available, button) ==>
      var buttons := settings.devices[settings.selectedDevice.value].buttons;
      var key := SlotKey(button).value;
      a == (if key in buttons then ParseAction(buttons[key]) else Default)
  {
    match settings.selectedDevice
    case None => Default
    case Some(selected) =>
      if selected !in available then Default
      else if selected !in settings.devices then Default
      else
        match SlotKey(button)
        case None => Default
        case Some(key) =>
          var buttons := settings.devices[selected].buttons;
          ParseAction(if key in buttons then buttons[key] else "Default")
  }

  /** Without a selected device nothing is remapped. */
  lemma NoSelectionNoRemap(settings: Settings, available: set<string>, button: i64)
    requires settings.selectedDevice.None?
    ensures Resolve(settings, available, button) == Default
  {
  }

  /** A selected device that is not attached is never remapped, whatever its configuration says. */
  lemma UnavailableDeviceNoRemap(settings: Settings, available: set<string>, button: i64)
    requires settings.selectedDevice.Some? && settings.selectedDevice.value !in available
    ensures Resolve(settings, available, button) == Default
  {
  }

  /** A selected, attached device without a configuration entry is not remapped. */
  lemma UnconfiguredDeviceNoRemap(settings: Settings, available: set<string>, button: i64)
    requires settings.selectedDevice.Some? && settings.selectedDevice.value !in settings.devices
    ensures Resolve(settings, available, button) == Default
  {
  }

  /** Button numbers outside 0..4, negative ones included, always resolve to `Default`. */
  lemma NoSlotNoRemap(settings: Settings, available: set<string>, button: i64)
    requires button < 0 || button >= 5
    ensures Resolve(settings, available, button) == Default
  {
  }

  /** A device whose configuration is `DeviceConfig::default()` is never remapped. */
  lemma DefaultConfigNoRemap(settings: Settings, available: set<string>, button: i64)
    requires settings.selectedDevice.Some?
    requires settings.selectedDevice.value in settings.devices
    requires settings.devices[settings.selectedDevice.value].buttons == DefaultButtons()
    ensures Resolve(settings, available, button) == Default
  {
    if Remappable(settings, available, button) {
      var key := SlotKey(button).value;
      assert DefaultButtons()[key] == "Default";
    }
  }

  /** `Settings::default()` remaps nothing. */
  lemma DefaultSettingsNoRemap(available: set<string>, button: i64)
    ensures Resolve(DefaultSettings(), available, button) == Default
  {
  }

  /**
   * Only the selected device's own entry, its membership in the live set and the slot's string
   * decide: two snapshots that agree on those resolve every button alike (theme, startup and the
   * other devices' configurations play no part).
   */
  lemma ResolveDependsOnSelectedOnly(s1: Settings, s2: Settings, available1: set<string>, available2: set<string>, button: i64)
    requires s1.selectedDevice == s2.selectedDevice
    requires s1.selectedDevice.Some? ==>
      && (s1.selectedDevice.value in available1 <==> s1.selectedDevice.value in available2)
      && (s1.selectedDevice.value in s1.devices <==> s1.selectedDevice.value in s2.devices)
      && (s1.selectedDevice.value in s1.devices ==>
            s1.devices[s1.selectedDevice.value].buttons == s2.devices[s1.selectedDevice.value].buttons)
    ensures Resolve(s1, available1, button) == Resolve(s2, available2, button)
  {
  }
}
