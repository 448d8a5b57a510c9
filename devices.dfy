/** Input devices as the device-assignment screen sees them, and the `PlayerDeviceData` asset
    that carries the chosen devices into the game scene. A list entry may be null in the
    source; entries are `Option<Device>` here so that the null checks of the UI are kept. */
module Devices {
  import opened Wrappers

  datatype DeviceKind = Keyboard | Mouse | Gamepad | Joystick | OtherDevice

  datatype Device = Device(id: nat, kind: DeviceKind, displayName: string)

  type DeviceSlot = Option<Device>

  /** Keyboard and mouse are handled together, outside the per-device scan. */
  predicate IsKeyboardOrMouse(d: Device)
  {
    d.kind == Keyboard || d.kind == Mouse
  }

  /** `device is Keyboard` on a list entry; a null entry is not a keyboard. */
  predicate IsKeyboardSlot(s: DeviceSlot)
  {
    s.Some? && s.value.kind == Keyboard
  }

  /** Number of keyboard entries in a device list. */
  function KeyboardCount(s: seq<DeviceSlot>): (n: nat)
    ensures n <= |s|
    ensures n == 0 <==> forall i :: 0 <= i < |s| ==> !IsKeyboardSlot(s[i])
  {
    if s == [] then 0 else (if IsKeyboardSlot(s[0]) then 1 else 0) + KeyboardCount(s[1..])
  }

  lemma {:induction false} KeyboardCountAppend(s: seq<DeviceSlot>, t: seq<DeviceSlot>)
    ensures KeyboardCount(s + t) == KeyboardCount(s) + KeyboardCount(t)
  {
    if s != [] {
      assert (s + t)[1..] == s[1..] + t;
      KeyboardCountAppend(s[1..], t);
    } else {
      assert s + t == t;
    }
  }

  class PlayerDeviceData {
    var devices: seq<DeviceSlot>

    constructor ()
      ensures devices == []
    {
      devices := [];
    }
  }
}
