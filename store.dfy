/**
 * `AppState`: the two shared stores the event tap reads, each behind a lock. Each lock's
 * poisoning (a panic while it was held elsewhere) is a flag; the stores' operations then fall back
 * to `Settings::default()`, to "not attached", or leave the held value alone.
 */
module Store {
  import opened Primitives
  import opened Actions
  import opened Config
  import opened Resolver

  /**
   * Builds the set of ids of `devices`, as `update_devices` does before taking the lock: the result
   * holds exactly the ids that occur in the list.
   */
  method CollectIds(devices: seq<MouseDevice>) returns (ids: set<string>)
    ensures forall id :: id in ids <==> exists k :: 0 <= k < |devices| && devices[k].id == id
  {
    ids := {};
    for i := 0 to |devices|
      invariant forall id :: id in ids <==> exists k :: 0 <= k < i && devices[k].id == id
    {
      ids := ids + {devices[i].id};
    }
  }

  class AppState {
    /** The value behind the settings lock. */
    var settings: Settings
    /** The value behind the device-registry lock: ids of the attached devices. */
    var devices: set<string>
    /** The settings lock is poisoned. */
    var settingsPoisoned: bool
    /** The device-registry lock is poisoned. */
    var devicesPoisoned: bool

    /** `AppState::default()`: default settings, no attached device, healthy locks. */
    constructor ()
      ensures settings == DefaultSettings() && devices == {}
      ensures !settingsPoisoned && !devicesPoisoned
    {
      settings := DefaultSettings();
      devices := {};
      settingsPoisoned := false;
      devicesPoisoned := false;
    }

    /** `update_settings`: replaces the held settings wholesale; a poisoned lock keeps the old value. */
    method UpdateSettings(s: Settings)
      modifies this`settings
      ensures settings == (if settingsPoisoned then old(settings) else s)
      ensures !settingsPoisoned ==> SnapshotSettings() == s
    {
      if !settingsPoisoned {
        settings := s;
      }
    }

    /**
     * `update_devices`: replaces the attached set wholesale with the ids of `list`; ids from
     * earlier calls that are not in `list` are gone. A poisoned lock keeps the old set.
     */
    method UpdateDevices(list: seq<MouseDevice>)
      modifies this`devices
      ensures devicesPoisoned ==> devices == old(devices)
      ensures !devicesPoisoned ==>
        forall id :: id in devices <==> exists k :: 0 <= k < |list| && list[k].id == id
    {
      var s := CollectIds(list);
      if !devicesPoisoned {
        devices := s;
      }
    }

    /** `snapshot_settings`: a copy of the held settings, `Settings::default()` under a poisoned lock. */
    function SnapshotSettings(): (s: Settings)
      reads this
      ensures !settingsPoisoned ==> s == settings
      ensures settingsPoisoned ==> s == DefaultSettings() && s.selectedDevice.None?
    {
      if settingsPoisoned then DefaultSettings() else settings
    }

    /** The attached set as the registry lock yields it: empty under a poisoned lock. */
    function AttachedIds(): (ids: set<string>)
      reads this
      ensures !devicesPoisoned ==> ids == devices
      ensures devicesPoisoned ==> ids == {}
    {
      if devicesPoisoned then {} else devices
    }

    /** `is_selected_device_available`: membership in the registry, `false` under a poisoned lock. */
    function IsSelectedDeviceAvailable(id: string): (r: bool)
      reads this
      ensures r <==> !devicesPoisoned && id in devices
    {
      id in AttachedIds()
    }

    /** `resolve_action`: the resolver applied to the two stores' current snapshots. */
    function ResolveAction(button: i64): (a: Action)
      reads this
      ensures a != Default ==>
        && !settingsPoisoned && !devicesPoisoned
        && settings.selectedDevice.Some?
        && IsSelectedDeviceAvailable(settings.selectedDevice.value)
        && settings.selectedDevice.value in settings.devices
        && 0 <= button < 5
      ensures !settingsPoisoned && !devicesPoisoned ==> a == Resolve(settings, devices, button)
    {
      Resolve(SnapshotSettings(), AttachedIds(), button)
    }
  }

  /** A poisoned settings lock turns every remapping off. */
  lemma PoisonedSettingsNoRemap(st: AppState, button: i64)
    requires st.settingsPoisoned
    ensures st.ResolveAction(button) == Default
  {
  }

  /** A poisoned registry lock counts as "not attached", which also turns every remapping off. */
  lemma PoisonedDevicesNoRemap(st: AppState, button: i64)
    requires st.devicesPoisoned
    ensures st.ResolveAction(button) == Default
  {
  }

  /**
   * The store-level resolution remaps only when the selected device is reported available by
   * `is_selected_device_available`.
   */
  lemma RemapNeedsAvailability(st: AppState, button: i64)
    requires st.ResolveAction(button) != Default
    ensures st.SnapshotSettings().selectedDevice.Some?
    ensures st.IsSelectedDeviceAvailable(st.SnapshotSettings().selectedDevice.value)
  {
  }
}
