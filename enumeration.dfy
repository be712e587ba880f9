/**
 * The pure part of `list_mouse_devices`: which HID devices count as mice, their display names,
 * and the `vvvv:pppp:serial` device id.
 */
module Enumeration {
  import opened Wrappers
  import opened Primitives
  import opened Config

  /** What the HID layer reports about one device. */
  datatype HidDeviceInfo = HidDeviceInfo(
    usagePage: u16,
    usage: u16,
    vendorId: u16,
    productId: u16,
    product: Option<string>,
    manufacturer: Option<string>,
    serial: Option<string>)

  /** The lowercase hexadecimal digit of `d`. */
  function HexDigit(d: nat): (c: char)
    requires d < 16
  {
    if d < 10 then ('0' as int + d) as char else ('a' as int + d - 10) as char
  }

  /** The value of a lowercase hexadecimal digit, if `c` is one. */
  function DigitValue(c: char): Option<nat> {
    if '0' <= c <= '9' then Some(c as int - '0' as int)
    else if 'a' <= c <= 'f' then Some(c as int - 'a' as int + 10)
    else None
  }

  /** The value of a string of lowercase hexadecimal digits, most significant first. */
  function ParseHex(s: string): Option<nat> {
    if s == [] then Some(0)
    else match (ParseHex(s[..|s| - 1]), DigitValue(s[|s| - 1]))
      case (Some(high), Some(low)) => Some(high * 16 + low)
      case _ => None
  }

  /** `{:04x}` of a `u16`: exactly four lowercase hex digits, so never a ':'. */
  function Hex4(x: u16): (r: string)
    ensures |r| == 4 && ':' !in r
  {
    var n := x as int;
    [HexDigit(n / 4096), HexDigit(n / 256 % 16), HexDigit(n / 16 % 16), HexDigit(n % 16)]
  }

  lemma DigitRoundTrip(d: nat)
    requires d < 16
    ensures DigitValue(HexDigit(d)) == Some(d)
  {
  }

  /** Appending one digit to a parsed prefix shifts it by one hex place. */
  lemma ParseHexSnoc(s: string, d: nat)
    requires d < 16 && ParseHex(s).Some?
    ensures ParseHex(s + [HexDigit(d)]) == Some(ParseHex(s).value * 16 + d)
  {
    DigitRoundTrip(d);
    assert (s + [HexDigit(d)])[..|s|] == s;
  }

  /** Four digits parse to their value in base 16, most significant first. */
  lemma ParseFourDigits(d3: nat, d2: nat, d1: nat, d0: nat)
    requires d3 < 16 && d2 < 16 && d1 < 16 && d0 < 16
    ensures ParseHex([HexDigit(d3), HexDigit(d2), HexDigit(d1), HexDigit(d0)]) == Some(((d3 * 16 + d2) * 16 + d1) * 16 + d0)
  {
    var c3, c2, c1, c0 := HexDigit(d3), HexDigit(d2), HexDigit(d1), HexDigit(d0);
    ParseHexSnoc([], d3);
    assert [] + [c3] == [c3];
    ParseHexSnoc([c3], d2);
    assert [c3] + [c2] == [c3, c2];
    ParseHexSnoc([c3, c2], d1);
    assert [c3, c2] + [c1] == [c3, c2, c1];
    ParseHexSnoc([c3, c2, c1], d0);
    assert [c3, c2, c1] + [c0] == [c3, c2, c1, c0];
  }

  /** The four base-16 digits that `Hex4` prints recombine to the number. */
  lemma FourDigitsOf(n: nat)
    requires n < 0x1_0000
    ensures ((n / 4096 * 16 + n / 256 % 16) * 16 + n / 16 % 16) * 16 + n % 16 == n
  {
    assert n / 256 == n / 4096 * 16 + n / 256 % 16;
    assert n / 16 == n / 256 * 16 + n / 16 % 16;
  }

  /** `{:04x}` printing parses back to the printed value. */
  lemma Hex4RoundTrip(x: u16)
    ensures ParseHex(Hex4(x)) == Some(x as int)
  {
    var n := x as int;
    ParseFourDigits(n / 4096, n / 256 % 16, n / 16 % 16, n % 16);
    FourDigitsOf(n);
  }

  /** Different `u16` values print differently. */
  lemma Hex4Injective(x: u16, y: u16)
    ensures Hex4(x) == Hex4(y) ==> x == y
  {
    Hex4RoundTrip(x);
    Hex4RoundTrip(y);
  }

  /** The device id: vendor and product as four hex digits each, then the serial or "noserial". */
  function DeviceId(vendorId: u16, productId: u16, serial: Option<string>): (id: string)
    ensures |id| >= 10
    ensures id[..4] == Hex4(vendorId) && id[4] == ':'
    ensures id[5..9] == Hex4(productId) && id[9] == ':'
    ensures id[10..] == serial.GetOr("noserial")
  {
    Hex4(vendorId) + ":" + Hex4(productId) + ":" + serial.GetOr("noserial")
  }

  /**
   * Device identity is stable: equal ids come from equal vendor ids, product ids and serial
   * strings (a device without a serial is indistinguishable from one whose serial is "noserial").
   */
  lemma DeviceIdInjective(v1: u16, p1: u16, s1: Option<string>, v2: u16, p2: u16, s2: Option<string>)
    ensures DeviceId(v1, p1, s1) == DeviceId(v2, p2, s2) ==>
      v1 == v2 && p1 == p2 && s1.GetOr("noserial") == s2.GetOr("noserial")
  {
    if DeviceId(v1, p1, s1) == DeviceId(v2, p2, s2) {
      Hex4Injective(v1, v2);
      Hex4Injective(p1, p2);
    }
  }

  /** The display name: product string, else manufacturer string, else "Unknown Mouse". */
  function DisplayName(h: HidDeviceInfo): (name: string)
    ensures h.product.Some? ==> name == h.product.value
    ensures h.product.None? && h.manufacturer.Some? ==> name == h.manufacturer.value
    ensures h.product.None? && h.manufacturer.None? ==> name == "Unknown Mouse"
  {
    match h.product
    case Some(p) => p
    case None => h.manufacturer.GetOr("Unknown Mouse")
  }

  /** ASCII lowercasing of one character. */
  function LowerChar(c: char): char {
    if 'A' <= c <= 'Z' then (c as int - 'A' as int + 'a' as int) as char else c
  }

  /** ASCII lowercasing; every other character is kept. */
  function ToLower(s: string): (r: string)
    ensures |r| == |s| && forall i :: 0 <= i < |s| ==> r[i] == LowerChar(s[i])
  {
    seq(|s|, i requires 0 <= i < |s| => LowerChar(s[i]))
  }

  /** `t` occurs in `s` starting at position `i`. */
  predicate OccursAt(s: string, t: string, i: int) {
    0 <= i && i + |t| <= |s| && s[i..i + |t|] == t
  }

  /** Substring search (`str::contains`): true exactly when `t` occurs somewhere in `s`. */
  function Contains(s: string, t: string): (r: bool)
    ensures r <==> exists i :: OccursAt(s, t, i)
  {
    if |s| < |t| then false
    else if s[..|t|] == t then assert OccursAt(s, t, 0); true
    else
      var r := Contains(s[1..], t);
      assert forall i :: OccursAt(s[1..], t, i) ==> OccursAt(s, t, i + 1) by {
        forall i | OccursAt(s[1..], t, i) ensures OccursAt(s, t, i + 1) {
          assert s[1..][i..i + |t|] == s[i + 1..i + 1 + |t|];
        }
      }
      assert forall i :: OccursAt(s, t, i) && i > 0 ==> OccursAt(s[1..], t, i - 1) by {
        forall i | OccursAt(s, t, i) && i > 0 ensures OccursAt(s[1..], t, i - 1) {
          assert s[1..][i - 1..i - 1 + |t|] == s[i..i + |t|];
        }
      }
      r
  }

  /** A generic-desktop (usage page 0x01) mouse (usage 0x02) HID collection. */
  predicate IsMouseUsage(h: HidDeviceInfo) {
    h.usagePage == 0x01 && h.usage == 0x02
  }

  /** The trackpad heuristic: the lowercased name contains "trackpad". */
  predicate IsTrackpad(name: string) {
    Contains(ToLower(name), "trackpad")
  }

  /** `list_mouse_devices` keeps a device exactly when it is a mouse by usage and not a trackpad by name. */
  predicate Kept(h: HidDeviceInfo) {
    IsMouseUsage(h) && !IsTrackpad(DisplayName(h))
  }

  /** The entry reported for a kept device. */
  function Describe(h: HidDeviceInfo): MouseDevice {
    MouseDevice(DeviceId(h.vendorId, h.productId, h.serial), DisplayName(h))
  }

  /** The devices `list_mouse_devices` reports for `hid`, in enumeration order. */
  function MouseDevicesOf(hid: seq<HidDeviceInfo>): seq<MouseDevice> {
    if hid == [] then []
    else
      var last := hid[|hid| - 1];
      MouseDevicesOf(hid[..|hid| - 1]) + (if Kept(last) then [Describe(last)] else [])
  }

  /** A device is reported exactly when some enumerated HID device is kept and described by it. */
  lemma {:induction false} MouseDevicesOfMembers(hid: seq<HidDeviceInfo>, d: MouseDevice)
    ensures d in MouseDevicesOf(hid) <==> exists h :: h in hid && Kept(h) && d == Describe(h)
  {
    if hid != [] {
      var init := hid[..|hid| - 1];
      MouseDevicesOfMembers(init, d);
      assert hid == init + [hid[|hid| - 1]];
    }
  }

  /** The filtered list is never longer than the enumeration. */
  lemma {:induction false} MouseDevicesOfLength(hid: seq<HidDeviceInfo>)
    ensures |MouseDevicesOf(hid)| <= |hid|
  {
    if hid != [] {
      MouseDevicesOfLength(hid[..|hid| - 1]);
    }
  }

  /** The loop of `list_mouse_devices` over an enumeration: keeps and describes devices in order. */
  method ListMouseDevices(hid: seq<HidDeviceInfo>) returns (devices: seq<MouseDevice>)
    ensures devices == MouseDevicesOf(hid)
  {
    devices := [];
    for i := 0 to |hid|
      invariant devices == MouseDevicesOf(hid[..i])
    {
      var device := hid[i];
      var name := DisplayName(device);
      var isMouseUsage := device.usagePage == 0x01 && device.usage == 0x02;
      var isTrackpad := Contains(ToLower(name), "trackpad");
      if isMouseUsage && !isTrackpad {
        var id := DeviceId(device.vendorId, device.productId, device.serial);
        devices := devices + [MouseDevice(id, name)];
      }
      assert hid[..i + 1][..i] == hid[..i];
    }
    assert hid[..|hid|] == hid;
  }

  /** A name without the letter k, in either case, is never taken for a trackpad. */
  lemma NoKNoTrackpad(name: string)
    requires forall i :: 0 <= i < |name| ==> name[i] != 'k' && name[i] != 'K'
    ensures !IsTrackpad(name)
  {
    var lowered := ToLower(name);
    if i :| OccursAt(lowered, "trackpad", i) {
      assert "trackpad" == ['t', 'r', 'a', 'c', 'k', 'p', 'a', 'd'];
      assert lowered[i..i + 8] == "trackpad";
      assert lowered[i + 4] == lowered[i..i + 8][4] == 'k';
      assert LowerChar(name[i + 4]) == 'k';
    }
  }

  /** Example: an Apple trackpad that presents itself with mouse usage is filtered out. */
  lemma MagicTrackpadDropped(vendorId: u16, productId: u16)
    ensures !Kept(HidDeviceInfo(0x01, 0x02, vendorId, productId, Some("Magic Trackpad"), None, None))
  {
    var lowered := ToLower("Magic Trackpad");
    assert lowered[6..14] == "trackpad";
    assert OccursAt(lowered, "trackpad", 6);
  }

  /** Example: a serial-less mouse from vendor 0x046d, product 0xc077. */
  lemma DeviceIdExample()
    ensures DeviceId(0x046d, 0xc077, None) == "046d:c077:noserial"
  {
  }
}
