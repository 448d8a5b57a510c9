/** The device-assignment screen's bookkeeping (DeviceAssignmentManager.cs): up to
    `targetPlayerCount` input devices are assigned, in the order players first use them.
    Gamepads and other devices are scanned each frame and at most one new one is taken; the
    keyboard and mouse count together as one device, represented by the keyboard and guarded
    by `keyboardMouseAssigned`. Whether a device, or the keyboard and mouse, was used this
    frame is an input, as are the connected devices and `Keyboard.current`. The
    `OnDeviceAssigned`/`OnDeviceUnassigned` events are counted. */
module DeviceAssignmentManager {
  import opened Wrappers
  import opened Devices

  /** A device the per-frame scan would take: not keyboard or mouse, not already assigned,
      and used this frame. */
  predicate Candidate(d: Device, used: bool, taken: seq<DeviceSlot>)
  {
    !IsKeyboardOrMouse(d) && Some(d) !in taken && used
  }

  /** Index of the device the scan takes, if any: the first candidate in device order. */
  function FirstCandidate(devices: seq<Device>, used: seq<bool>, taken: seq<DeviceSlot>): (r: Option<nat>)
    requires |used| == |devices|
    ensures r.None? <==> forall j :: 0 <= j < |devices| ==> !Candidate(devices[j], used[j], taken)
    ensures r.Some? ==> r.value < |devices| && Candidate(devices[r.value], used[r.value], taken)
    ensures r.Some? ==> forall j :: 0 <= j < r.value ==> !Candidate(devices[j], used[j], taken)
  {
    if devices == [] then None
    else if Candidate(devices[0], used[0], taken) then Some(0)
    else match FirstCandidate(devices[1..], used[1..], taken)
      case None => None
      case Some(k) => Some(k + 1)
  }

  /** `RemoveAt(index)`: the list without that entry, the others in order. */
  function RemovedAt(s: seq<DeviceSlot>, index: nat): (r: seq<DeviceSlot>)
    requires index < |s|
    ensures |r| == |s| - 1
    ensures forall j :: 0 <= j < index ==> r[j] == s[j]
    ensures forall j :: index <= j < |r| ==> r[j] == s[j + 1]
  {
    s[..index] + s[index + 1..]
  }

  /** Removing an entry removes a keyboard exactly when that entry is the keyboard. */
  lemma KeyboardCountRemovedAt(s: seq<DeviceSlot>, index: nat)
    requires index < |s|
    ensures KeyboardCount(RemovedAt(s, index)) == KeyboardCount(s) - (if IsKeyboardSlot(s[index]) then 1 else 0)
  {
    var front, back := s[..index], s[index + 1..];
    var rest := [s[index]] + back;
    assert s == front + rest;
    assert RemovedAt(s, index) == front + back;
    KeyboardCountAppend(front, rest);
    KeyboardCountAppend([s[index]], back);
    KeyboardCountAppend(front, back);
  }

  /** The flag says whether the keyboard is in the list, and it is there at most once. */
  predicate KeyboardFlagMatches(keyboardMouseAssigned: bool, taken: seq<DeviceSlot>)
  {
    KeyboardCount(taken) <= 1 && (keyboardMouseAssigned <==> KeyboardCount(taken) == 1)
  }

  class DeviceAssignmentManager {
    var targetPlayerCount: int
    var assignedDevices: seq<DeviceSlot>
    var keyboardMouseAssigned: bool
    var assignedEvents: nat
    var unassignedEvents: nat

    ghost predicate Valid()
      reads this
    {
      KeyboardFlagMatches(keyboardMouseAssigned, assignedDevices)
    }

    /** Field initialisers. */
    constructor ()
      ensures targetPlayerCount == 1 && assignedDevices == [] && !keyboardMouseAssigned
      ensures assignedEvents == 0 && unassignedEvents == 0
      ensures Valid()
    {
      targetPlayerCount := 1;
      assignedDevices := [];
      keyboardMouseAssigned := false;
      assignedEvents, unassignedEvents := 0, 0;
    }

    /** One frame: the first unassigned non-keyboard device used this frame is assigned,
        then the keyboard and mouse are assigned if used and not already assigned. Neither
        step takes the list past `targetPlayerCount`. */
    method Update(devices: seq<Device>, used: seq<bool>, keyboard: Option<Device>, keyboardMouseUsed: bool)
      requires |used| == |devices|
      requires keyboard.Some? ==> keyboard.value.kind == Keyboard
      requires Valid()
      modifies this`assignedDevices, this`keyboardMouseAssigned, this`assignedEvents
      ensures Valid()
      ensures var first := FirstCandidate(devices, used, old(assignedDevices));
        var pad := if first.Some? && |old(assignedDevices)| < targetPlayerCount then [Some(devices[first.value])] else [];
        var mid := old(assignedDevices) + pad;
        var kbm := if !old(keyboardMouseAssigned) && keyboardMouseUsed && |mid| < targetPlayerCount && keyboard.Some?
          then [keyboard] else [];
        assignedDevices == mid + kbm &&
        keyboardMouseAssigned == (old(keyboardMouseAssigned) || kbm != []) &&
        assignedEvents == old(assignedEvents) + |pad| + |kbm|
      ensures |old(assignedDevices)| <= targetPlayerCount ==> |assignedDevices| <= targetPlayerCount
    {
      ScanDevices(devices, used);
      ghost var mid := assignedDevices;
      if !keyboardMouseAssigned && keyboardMouseUsed {
        AssignKeyboardMouse(keyboard);
      }
      KeyboardCountAppend(mid, assignedDevices[|mid|..]);
      assert mid + assignedDevices[|mid|..] == assignedDevices;
    }

    /** The `foreach` over the connected devices in `Update`: the first unassigned
        non-keyboard device used this frame is assigned, if there is room. */
    method ScanDevices(devices: seq<Device>, used: seq<bool>)
      requires |used| == |devices|
      modifies this`assignedDevices, this`assignedEvents
      ensures var first := FirstCandidate(devices, used, old(assignedDevices));
        var pad := if first.Some? && |old(assignedDevices)| < targetPlayerCount then [Some(devices[first.value])] else [];
        assignedDevices == old(assignedDevices) + pad &&
        assignedEvents == old(assignedEvents) + |pad|
      ensures KeyboardCount(assignedDevices) == KeyboardCount(old(assignedDevices))
    {
      ghost var first := FirstCandidate(devices, used, assignedDevices);
      var i := 0;
      while i < |devices|
        invariant 0 <= i <= |devices|
        invariant assignedDevices == old(assignedDevices) && assignedEvents == old(assignedEvents)
        invariant forall j :: 0 <= j < i ==> !Candidate(devices[j], used[j], assignedDevices)
      {
        var device := devices[i];
        if IsKeyboardOrMouse(device) || Some(device) in assignedDevices {
          i := i + 1;
          continue;
        }
        if used[i] {
          assert first == Some(i);
          AssignDevice(device);
          break;
        }
        i := i + 1;
      }
      KeyboardCountAppend(old(assignedDevices), assignedDevices[|old(assignedDevices)|..]);
      assert old(assignedDevices) + assignedDevices[|old(assignedDevices)|..] == assignedDevices;
    }

    /** `AssignKeyboardMouse`: the keyboard is appended, and the flag set, only when there
        is room and a keyboard is connected. */
    method AssignKeyboardMouse(keyboard: Option<Device>)
      modifies this`assignedDevices, this`keyboardMouseAssigned, this`assignedEvents
      ensures var appends := |old(assignedDevices)| < targetPlayerCount && keyboard.Some?;
        assignedDevices == old(assignedDevices) + (if appends then [keyboard] else []) &&
        keyboardMouseAssigned == (old(keyboardMouseAssigned) || appends) &&
        assignedEvents == old(assignedEvents) + (if appends then 1 else 0)
    {
      if |assignedDevices| >= targetPlayerCount {
        return;
      }
      if keyboard.Some? {
        assignedDevices := assignedDevices + [keyboard];
        keyboardMouseAssigned := true;
        assignedEvents := assignedEvents + 1;
      }
    }

    /** `AssignDevice`: a no-op once the target is reached, otherwise that device is
        appended. */
    method AssignDevice(device: Device)
      modifies this`assignedDevices, this`assignedEvents
      ensures var appends := |old(assignedDevices)| < targetPlayerCount;
        assignedDevices == old(assignedDevices) + (if appends then [Some(device)] else []) &&
        assignedEvents == old(assignedEvents) + (if appends then 1 else 0)
    {
      if |assignedDevices| >= targetPlayerCount {
        return;
      }
      assignedDevices := assignedDevices + [Some(device)];
      assignedEvents := assignedEvents + 1;
    }

    /** `UnassignDevice`: an index outside the list changes nothing; otherwise that entry
        goes, the rest keep their order, and the flag is cleared when it was the keyboard. */
    method UnassignDevice(index: int)
      requires Valid()
      modifies this`assignedDevices, this`keyboardMouseAssigned, this`unassignedEvents
      ensures Valid()
      ensures !(0 <= index < |old(assignedDevices)|) ==>
        assignedDevices == old(assignedDevices) && keyboardMouseAssigned == old(keyboardMouseAssigned) &&
        unassignedEvents == old(unassignedEvents)
      ensures 0 <= index < |old(assignedDevices)| ==>
        assignedDevices == RemovedAt(old(assignedDevices), index) &&
        keyboardMouseAssigned == (old(keyboardMouseAssigned) && !IsKeyboardSlot(old(assignedDevices)[index])) &&
        unassignedEvents == old(unassignedEvents) + 1
    {
      if index < 0 || index >= |assignedDevices| {
        return;
      }
      var device := assignedDevices[index];
      if IsKeyboardSlot(device) {
        keyboardMouseAssigned := false;
      }
      KeyboardCountRemovedAt(assignedDevices, index);
      assignedDevices := assignedDevices[..index] + assignedDevices[index + 1..];
      unassignedEvents := unassignedEvents + 1;
    }
  }
}
