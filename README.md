# Edit Mouse: button-remapping engine in Dafny

Edit Mouse remaps the buttons of one selected pointing device to other actions: Back, Forward,
Middle Click, Double Click, or Disabled. A system-wide event tap sees every mouse-button down and
up event. For each one it resolves an action from the current settings and the set of attached
devices. It then either forwards the event unchanged or suppresses it, and on a down transition it
posts replacement input.

This project models that engine:

- `Actions`: the `Action` enumeration and its total string parse (`Action::from`).
- `Config`: `Settings`, `DeviceConfig`, `MouseDevice`, `default_buttons`, the `Default` impls, and
  the button-number-to-slot mapping.
- `Resolver`: `resolve_action` as a pure function of a settings snapshot, the attached-id set and
  the button number.
- `Store`: `AppState` as a class. The two lock-guarded stores are fields. Each lock's poisoning is
  a boolean flag, and the operations take the source's fallbacks when it is set.
- `Synthesis`: `post_key_combo` and `post_mouse_click`. Posting appends to an `EventSource` log.
  Every event creation is a numbered attempt, and the attempts listed in `refused` fail. A failed
  creation means that event is skipped, as the `if let Ok(..)` guards do.
- `Tap`: the event-tap callback as a method. It returns the event to forward, or nothing, and
  posts through the event source.
- `Enumeration`: the pure part of `list_mouse_devices`. This covers the mouse-usage and trackpad
  filter, the name fallback, and the `vvvv:pppp:serial` id with its four-digit lowercase hex
  fields.
- `Scenarios`: the engine end to end. The state is built only through `AppState`'s own operations.
  The fixed scenarios take their device ids from an enumeration. `ReplaceTwice` takes any device
  list.
- `Primitives` and `Wrappers`: `u16`, `i64` and `Option`.

Some observations are proved as lemmas:

- Each transition is resolved afresh. If the stores change between a press and its release, a
  suppressed press can be followed by a forwarded release (`Tap.StaleReleaseForwarded`). So "one
  press, one logical action" (`Tap.PressAndReleaseOnce`) holds only while the stores stay the same.
- Resolution never asks which physical device produced an event. If the events the engine posts
  come back through the same tap, a middle slot mapped to Middle Click re-triggers on its own
  output (`Tap.MiddleClickRetriggers`). The model does not decide whether the system feeds them
  back; the lemma shows what happens when it does.

## Model

| member | source | states |
|---|---|---|
| `Actions.ParseAction` | src-tauri/src/main.rs:474-485 | A non-Default result's canonical name is exactly the input string, and any action whose canonical name is the input is the result. Every other string folds to Default. |
| `Actions.ParseActionName` | src-tauri/src/main.rs:475-483 | Parsing an action's canonical name gives that action back, for all six actions. |
| `Actions.ParseActionIdempotent` | src-tauri/src/main.rs:475-483 | Printing a parse result and parsing it again gives the same action. |
| `Actions.NearMissesFoldToDefault` | src-tauri/src/main.rs:482 | "MiddleClick", "DoubleClick", "back", "Default" and "" all parse to Default. |
| `Config.SlotKey` | src-tauri/src/main.rs:408-415 | A button has a slot key exactly when it is in 0..4. Buttons 0 to 4 get "left", "right", "middle", "button4" and "button5", in that order. |
| `Config.SlotKeyInjective` | src-tauri/src/main.rs:408-415 | Two buttons with the same slot key are the same button. |
| `Config.DefaultDeviceConfig` | src-tauri/src/main.rs:29-36 | `DeviceConfig::default()` has an empty name and the `default_buttons()` map. |
| `Config.DefaultSettings` | src-tauri/src/main.rs:47-56 | `Settings::default()` has theme "system", startup off, no selected device and no device entries. |
| `Config.DefaultButtons` | src-tauri/src/main.rs:12-20 | Every slot the resolver can look up is present and set to "Default", and there are no other keys. |
| `Resolver.Resolve` | src-tauri/src/main.rs:396-418 | A non-Default result needs all of these: a selected device, attached, configured, a button in 0..4, and an explicit entry for the slot that parses to the result. When all steps succeed, the result is the parse of the slot's entry, and a missing entry gives Default. |
| `Resolver.NoSelectionNoRemap` | src-tauri/src/main.rs:398-400 | With no selected device, every button resolves to Default. |
| `Resolver.UnavailableDeviceNoRemap` | src-tauri/src/main.rs:401-403 | A selected device missing from the attached set resolves to Default, even when it is configured. |
| `Resolver.UnconfiguredDeviceNoRemap` | src-tauri/src/main.rs:404-407 | A selected device with no entry in `devices` resolves to Default. |
| `Resolver.NoSlotNoRemap` | src-tauri/src/main.rs:414 | A negative button number, or one of 5 or more, resolves to Default whatever the settings say. |
| `Resolver.DefaultConfigNoRemap` | src-tauri/src/main.rs:29-36 | A device configured with `default_buttons()` resolves every button to Default. |
| `Resolver.DefaultSettingsNoRemap` | src-tauri/src/main.rs:47-56 | `Settings::default()` resolves every button to Default. |
| `Resolver.ResolveDependsOnSelectedOnly` | src-tauri/src/main.rs:396-418 | Only these decide the result: the selected id, its membership in the attached set, whether it has an entry, and that entry's button map. |
| `Store.CollectIds` | src-tauri/src/main.rs:78-81 | The built set holds exactly the ids that occur in the device list. |
| `Store.AppState.constructor` | src-tauri/src/main.rs:64-68 | The state starts with default settings, no attached ids and healthy locks. |
| `Store.AppState.UpdateSettings` | src-tauri/src/main.rs:71-75 | The held settings are replaced wholesale and a later snapshot returns them. Storing the same value again changes nothing. A poisoned lock keeps the old value. |
| `Store.AppState.UpdateDevices` | src-tauri/src/main.rs:77-85 | Afterwards the attached set is exactly the ids of the given list, so ids from earlier calls are gone. A poisoned lock keeps the old set. |
| `Store.AppState.SnapshotSettings` | src-tauri/src/main.rs:87-92 | A healthy lock gives a copy of the held settings. A poisoned lock gives `Settings::default()`, which selects no device. |
| `Store.AppState.AttachedIds` | src-tauri/src/main.rs:94-99 | The ids the registry answers for: the held set when the lock is healthy, and none when it is poisoned. |
| `Store.AppState.ResolveAction` | src-tauri/src/main.rs:396-418 | A non-Default result needs both locks healthy and a selected device in the held settings. That device must be reported available, be configured, and the button must be in 0..4. With both locks healthy the result is the resolver's answer on the held settings and attached set. |
| `Store.AppState.IsSelectedDeviceAvailable` | src-tauri/src/main.rs:94-99 | True exactly when the registry lock is healthy and holds the id. |
| `Store.PoisonedSettingsNoRemap` | src-tauri/src/main.rs:87-92 | A poisoned settings lock makes the snapshot `Settings::default()`, so nothing is remapped. |
| `Store.PoisonedDevicesNoRemap` | src-tauri/src/main.rs:94-99 | A poisoned registry lock counts as "not attached", so nothing is remapped. |
| `Store.RemapNeedsAvailability` | src-tauri/src/main.rs:397-403 | A remapped button implies a selected device in the snapshot that `is_selected_device_available` reports. |
| `Synthesis.MouseClicksLength` | src-tauri/src/main.rs:444-457 | `clicks` clicks make 2 * `clicks` events. |
| `Synthesis.MouseClicksShape` | src-tauri/src/main.rs:431-457 | Every click event is a mouse event at the given location, tagged with the emulated button number and its `CGMouseButton`. Even positions hold the down type and odd positions the up type. |
| `Synthesis.SurvivingNoneRefused` | src-tauri/src/main.rs:446-456 | When no creation in range fails, every intended event is posted, in order. |
| `Synthesis.SurvivingIsSubset` | src-tauri/src/main.rs:446-456 | Skipping failed creations never posts more than was attempted, and never anything that was not attempted. |
| `Synthesis.EventSource.NewEvent` | src-tauri/src/main.rs:421 | Creating an event uses one attempt, and succeeds exactly when that attempt is not refused. |
| `Synthesis.EventSource.Post` | src-tauri/src/main.rs:423 | Posting appends the event to the log, and changes nothing else. |
| `Synthesis.EventSource.TryPost` | src-tauri/src/main.rs:446-451 | One creation attempt is used. The event is appended to the log exactly when its creation is not refused. |
| `Synthesis.PostKeyCombo` | src-tauri/src/main.rs:420-429 | Two creations are attempted. The log gains key down then key up of the key code, both with Command, each only if created. |
| `Synthesis.PostClick` | src-tauri/src/main.rs:446-456 | Two creations are attempted. The log gains the click's down then up at the location, for the emulated button, each only if created. |
| `Synthesis.PostMouseClick` | src-tauri/src/main.rs:431-458 | Two creations are attempted per click, with one click or two when double. The log gains each click's down then up at the location, for the emulated button, each only if created. |
| `Tap.TapCallback` | src-tauri/src/main.rs:343-376 | The event is forwarded unchanged exactly when the resolved action is Default, and suppressed otherwise. The log gains the surviving events of that action's replacement input. |
| `Tap.DefaultPassesThrough` | src-tauri/src/main.rs:347-349 | Default forwards the original event and posts nothing. |
| `Tap.RemapSuppresses` | src-tauri/src/main.rs:375 | Every non-Default action suppresses the event, on down and up alike. |
| `Tap.SynthesisOnlyOnDown` | src-tauri/src/main.rs:351-358 | Up transitions post nothing, and Disabled posts nothing on any transition. |
| `Tap.NavigationChords` | src-tauri/src/main.rs:359-364 | On a down event, Back posts key 0x21 down then up with Command, and Forward posts key 0x1E down then up with Command. |
| `Tap.MiddleClickPair` | src-tauri/src/main.rs:365-367 | On a down event, MiddleClick posts one OtherMouseDown/OtherMouseUp pair for button 2 at the event's location. |
| `Tap.DoubleClickPairs` | src-tauri/src/main.rs:368-370 | On a down event, DoubleClick posts two LeftMouseDown/LeftMouseUp pairs for button 0 at the event's location. |
| `Tap.SynthesizedOrdered` | src-tauri/src/main.rs:420-457 | Every replacement sequence has even length. Mouse events are at the event's location, key events carry Command, and even positions are downs and odd positions ups. Each down and the up after it belong to one press: the same key code, or the same button number, `CGMouseButton` and location. |
| `Tap.PressAndReleaseOnce` | src-tauri/src/main.rs:351-375 | For one remapped action, press and release are both suppressed and only the press posts input. |
| `Tap.StaleReleaseForwarded` | src-tauri/src/main.rs:345-349 | A press remapped while its device is attached, then released after the device left the attached set: the press is suppressed and the release is forwarded. |
| `Tap.MiddleClickRetriggers` | src-tauri/src/main.rs:365-367 | With the middle slot mapped to MiddleClick, the OtherMouseDown it posts resolves to MiddleClick. Fed back, it reproduces the same replacement input. |
| `Enumeration.Hex4` | src-tauri/src/main.rs:144-149 | `{:04x}` of a `u16` is exactly four characters, none of them ':'. |
| `Enumeration.Hex4RoundTrip` | src-tauri/src/main.rs:144-149 | The four hex digits parse back to the printed value. |
| `Enumeration.Hex4Injective` | src-tauri/src/main.rs:144-149 | Different values print differently. |
| `Enumeration.DeviceId` | src-tauri/src/main.rs:143-149 | The id is the vendor hex, ':', the product hex, ':', then the serial or "noserial". |
| `Enumeration.DeviceIdInjective` | src-tauri/src/main.rs:143-149 | Equal ids come from equal vendor ids, product ids and serial strings. |
| `Enumeration.DeviceIdExample` | src-tauri/src/main.rs:143-149 | Vendor 0x046d, product 0xc077 and no serial give "046d:c077:noserial". |
| `Enumeration.DisplayName` | src-tauri/src/main.rs:133-137 | The name is the product string if there is one, else the manufacturer string, else "Unknown Mouse". |
| `Enumeration.ToLower` | src-tauri/src/main.rs:140 | The lowered name has the same length, and each character is the ASCII lowercase of the original's. |
| `Enumeration.Contains` | src-tauri/src/main.rs:140 | True exactly when the pattern occurs at some position of the text. |
| `Enumeration.NoKNoTrackpad` | src-tauri/src/main.rs:140 | A name without 'k' or 'K' never matches the trackpad heuristic, under the model's ASCII lowering. |
| `Enumeration.MagicTrackpadDropped` | src-tauri/src/main.rs:139-142 | A mouse-usage device named "Magic Trackpad" is filtered out. |
| `Enumeration.MouseDevicesOfMembers` | src-tauri/src/main.rs:130-151 | A device is reported exactly when some enumerated HID device has usage page 0x01 and usage 0x02 and a name without "trackpad", and is described by it. The name falls back from product to manufacturer to "Unknown Mouse". |
| `Enumeration.MouseDevicesOfLength` | src-tauri/src/main.rs:130-151 | The filtered list is never longer than the enumeration. |
| `Enumeration.ListMouseDevices` | src-tauri/src/main.rs:128-154 | The loop reports the kept devices, each described, in enumeration order. |
| `Scenarios.MouseListed` | src-tauri/src/main.rs:139-150 | Enumerating a mouse with vendor 0x04f2, product 0x0112 and serial "ABC" reports it as "04f2:0112:ABC". |
| `Scenarios.RightButtonBack` | src-tauri/src/main.rs:359-361 | Right button mapped to "Back": the press resolves to Back, posts exactly one Command+[ chord and no native right click. |
| `Scenarios.MiddleButtonDoubleClick` | src-tauri/src/main.rs:368-370 | Middle button mapped to "Double Click": the press posts two left clicks at its location, and both press and release are suppressed. |
| `Scenarios.UnpluggedDevice` | src-tauri/src/main.rs:77-85 | Once the device drops out of an enumeration, every button resolves to Default. The settings snapshot is still the one that mapped the right button to "Back". |
| `Scenarios.ReplaceTwice` | src-tauri/src/main.rs:71-75 | Storing identical settings a second time does not change later resolutions, and a remap needs the selected id among the listed devices. |

## Left out

- Settings persistence (`settings_path`, `load_settings`, `persist_settings`): file-system and JSON I/O. The model receives settings values directly.
- HID access (`HidApi::new`, `device_list` and their errors) and `log_mouse_devices`. These are foreign-library I/O and console output. The enumeration is a parameter, a sequence of device records.
- Tauri wiring in `main` and the `#[tauri::command]` functions (`get_mouse_devices`, `get_settings`, `save_settings`, autostart, window and tray). This is UI and framework glue.
- Tap installation in `start_mouse_remap`. This covers the `CGEventSource::new` and `CGEventTap::new` failures that end the thread, the run-loop source, `tap.enable` and `CFRunLoop::run_current`. These are OS hooks on their own thread. The model starts from a running tap.
- Notifications a real tap gets besides the six registered mouse-button event types. The model's events carry only those six types.
- Locking and threads: each `Mutex` is a plain field plus a poisoned flag, which nothing in the model sets. Poisoning comes from a panic elsewhere. The model has one `AppState` object, where the source shares it between threads through cloned `Arc`s.
- `CGPoint` coordinates are floating point. The location is a pair of reals that is only copied.
- `set_flags(CGEventFlagCommand)` sets the whole flag word. The model records only whether Command is set.
- Enumeration.ToLower: lowercases ASCII only, not Unicode's full `to_lowercase`, because Dafny strings carry no Unicode case tables. So `Enumeration.NoKNoTrackpad` holds for the model only: Rust lowers U+212A KELVIN SIGN to 'k', so a name spelled with it can match "trackpad" without containing 'k' or 'K'.
- The non-macOS `start_mouse_remap`, which does nothing.
