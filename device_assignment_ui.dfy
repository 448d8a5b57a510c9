/** The device-assignment screen (DeviceAssignmentUI.cs). Every refresh derives, from the
    manager's target player count and assigned devices, which player panels show, each
    player's device text and ready indicator, player 1's disconnect button and whether the
    start button can be pressed. The buttons go back to mode selection (clearing the
    assignments), start the game (copying the assignments into the `PlayerDeviceData` asset
    and loading the level), or disconnect a player. Widgets are fields of a `View` value;
    the button-listener wiring of `Start` is not modelled. */
module DeviceAssignmentUI {
  import opened Wrappers
  import opened Devices
  import DeviceAssignmentManager

  /** The text shown for a player without a device. */
  const Waiting: string := "Waiting\U{2026}"

  datatype View = View(
    player1Panel: bool, player2Panel: bool,
    player1Text: string, player1Disconnect: bool, player1Ready: bool,
    player2Text: string, player2Ready: bool,
    startInteractable: bool)

  /** Player `p` (0-based) has a device: the list reaches that far and the entry is not
      null. */
  predicate HasDevice(devices: seq<DeviceSlot>, p: nat)
  {
    |devices| > p && devices[p].Some?
  }

  /** What a player's text reads. */
  function DeviceText(devices: seq<DeviceSlot>, p: nat): string
  {
    if HasDevice(devices, p) then devices[p].value.displayName else Waiting
  }

  /** The start gate: exactly the target number of devices, none of them null. */
  predicate AllAssignedSpec(target: int, devices: seq<DeviceSlot>)
  {
    |devices| == target && forall i :: 0 <= i < |devices| ==> devices[i].Some?
  }

  /** The `allAssigned` loop of `RefreshUI`. */
  method AllAssigned(target: int, devices: seq<DeviceSlot>) returns (allAssigned: bool)
    ensures allAssigned <==> AllAssignedSpec(target, devices)
  {
    allAssigned := true;
    if |devices| == target {
      var i := 0;
      while i < |devices|
        invariant 0 <= i <= |devices|
        invariant forall j :: 0 <= j < i ==> devices[j].Some?
      {
        if devices[i].None? {
          allAssigned := false;
          break;
        }
        i := i + 1;
      }
    } else {
      allAssigned := false;
    }
  }

  /** The widgets after a refresh. Player 2's widgets are left as they were when the target
      is below 2. */
  function Refreshed(prev: View, target: int, devices: seq<DeviceSlot>): (v: View)
    ensures v.player1Panel <==> target >= 1
    ensures v.player2Panel <==> target >= 2
    ensures v.player1Ready <==> |devices| >= 1 && devices[0].Some?
    ensures v.player1Disconnect <==> v.player1Ready
    ensures v.player1Text == (if v.player1Ready then devices[0].value.displayName else Waiting)
    ensures target >= 2 ==> (v.player2Ready <==> |devices| >= 2 && devices[1].Some?)
    ensures target >= 2 ==> v.player2Text == (if v.player2Ready then devices[1].value.displayName else Waiting)
    ensures target < 2 ==> v.player2Ready == prev.player2Ready && v.player2Text == prev.player2Text
    ensures v.startInteractable <==> AllAssignedSpec(target, devices)
  {
    var ready2 := if target >= 2 then HasDevice(devices, 1) else prev.player2Ready;
    var text2 := if target >= 2 then DeviceText(devices, 1) else prev.player2Text;
    View(target >= 1, target >= 2,
      DeviceText(devices, 0), HasDevice(devices, 0), HasDevice(devices, 0),
      text2, ready2,
      AllAssignedSpec(target, devices))
  }

  /** Whenever the start button can be pressed, every player panel shown reads ready. */
  lemma StartMeansEveryoneReady(prev: View, target: int, devices: seq<DeviceSlot>)
    requires Refreshed(prev, target, devices).startInteractable
    ensures Refreshed(prev, target, devices).player1Panel ==> Refreshed(prev, target, devices).player1Ready
    ensures Refreshed(prev, target, devices).player2Panel ==> Refreshed(prev, target, devices).player2Ready
  {
    assert |devices| == target;
    if target >= 1 {
      assert devices[0].Some?;
    }
    if target >= 2 {
      assert devices[1].Some?;
    }
  }

  class DeviceAssignmentUI {
    var deviceManager: DeviceAssignmentManager.DeviceAssignmentManager
    var playerDeviceData: PlayerDeviceData
    var modeSelectActive: bool
    var deviceAssignActive: bool
    var view: View
    var sceneName: string
    /** Scenes requested so far, in order. */
    var loads: seq<string>

    constructor (deviceManager: DeviceAssignmentManager.DeviceAssignmentManager, playerDeviceData: PlayerDeviceData,
                 sceneName: string, view: View)
      ensures this.deviceManager == deviceManager && this.playerDeviceData == playerDeviceData
      ensures this.sceneName == sceneName && this.view == view
      ensures modeSelectActive && !deviceAssignActive && loads == []
    {
      this.deviceManager, this.playerDeviceData := deviceManager, playerDeviceData;
      this.sceneName, this.view := sceneName, view;
      modeSelectActive, deviceAssignActive := true, false;
      loads := [];
    }

    /** `RefreshUI`. */
    method RefreshUI()
      modifies this`view
      ensures view == Refreshed(old(view), deviceManager.targetPlayerCount, deviceManager.assignedDevices)
    {
      var target := deviceManager.targetPlayerCount;
      var devices := deviceManager.assignedDevices;
      var v := view.(player1Panel := target >= 1, player2Panel := target >= 2);
      if |devices| >= 1 && devices[0].Some? {
        v := v.(player1Text := devices[0].value.displayName, player1Disconnect := true, player1Ready := true);
      } else {
        v := v.(player1Text := Waiting, player1Disconnect := false, player1Ready := false);
      }
      if target >= 2 {
        if |devices| >= 2 && devices[1].Some? {
          v := v.(player2Text := devices[1].value.displayName, player2Ready := true);
        } else {
          v := v.(player2Text := Waiting, player2Ready := false);
        }
      }
      var allAssigned := AllAssigned(target, devices);
      view := v.(startInteractable := allAssigned);
    }

    /** `SelectPlayers`: sets the target and switches to the assignment panel. */
    method SelectPlayers(count: int)
      requires deviceManager.Valid()
      modifies deviceManager`targetPlayerCount, this`modeSelectActive, this`deviceAssignActive, this`view
      ensures deviceManager.targetPlayerCount == count && deviceManager.Valid()
      ensures !modeSelectActive && deviceAssignActive
      ensures view == Refreshed(old(view), count, deviceManager.assignedDevices)
    {
      deviceManager.targetPlayerCount := count;
      modeSelectActive, deviceAssignActive := false, true;
      RefreshUI();
    }

    /** `BackToModeSelect`: every assignment is dropped and the keyboard flag cleared. */
    method BackToModeSelect()
      modifies deviceManager`assignedDevices, deviceManager`keyboardMouseAssigned
      modifies this`modeSelectActive, this`deviceAssignActive, this`view
      ensures deviceManager.assignedDevices == [] && !deviceManager.keyboardMouseAssigned
      ensures deviceManager.Valid()
      ensures modeSelectActive && !deviceAssignActive
      ensures view == Refreshed(old(view), deviceManager.targetPlayerCount, [])
    {
      modeSelectActive, deviceAssignActive := true, false;
      deviceManager.assignedDevices := [];
      deviceManager.keyboardMouseAssigned := false;
      RefreshUI();
    }

    /** `StartGame`: the asset receives an exact copy of the assignments, and the level
        loads. */
    method StartGame()
      modifies playerDeviceData`devices, this`loads
      ensures playerDeviceData.devices == deviceManager.assignedDevices
      ensures loads == old(loads) + [sceneName]
    {
      playerDeviceData.devices := [];
      playerDeviceData.devices := playerDeviceData.devices + deviceManager.assignedDevices;
      loads := loads + [sceneName];
    }

    /** `DisconnectPlayer` (and player 1's disconnect button, with index 0). */
    method DisconnectPlayer(index: int)
      requires deviceManager.Valid()
      modifies deviceManager`assignedDevices, deviceManager`keyboardMouseAssigned, deviceManager`unassignedEvents
      modifies this`view
      ensures deviceManager.Valid()
      ensures !(0 <= index < |old(deviceManager.assignedDevices)|) ==>
        deviceManager.assignedDevices == old(deviceManager.assignedDevices) &&
        deviceManager.keyboardMouseAssigned == old(deviceManager.keyboardMouseAssigned) &&
        deviceManager.unassignedEvents == old(deviceManager.unassignedEvents)
      ensures 0 <= index < |old(deviceManager.assignedDevices)| ==>
        deviceManager.assignedDevices == DeviceAssignmentManager.RemovedAt(old(deviceManager.assignedDevices), index) &&
        deviceManager.keyboardMouseAssigned ==
          (old(deviceManager.keyboardMouseAssigned) && !IsKeyboardSlot(old(deviceManager.assignedDevices)[index])) &&
        deviceManager.unassignedEvents == old(deviceManager.unassignedEvents) + 1
      ensures view == Refreshed(old(view), deviceManager.targetPlayerCount, deviceManager.assignedDevices)
    {
      deviceManager.UnassignDevice(index);
      RefreshUI();
    }
  }
}
