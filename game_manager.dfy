/** The game-over bookkeeping (GameManager.cs): the number of players is taken from the
    devices chosen on the assignment screen, every player death is counted, and once the
    count reaches the number of players the death screen is shown and the game is frozen
    (`Time.timeScale = 0`). The two buttons unfreeze it and load a scene. `Time.timeScale` is
    a field here; the optional death-screen object is a flag for its presence and one for
    its active state. */
module GameManager {
  import Devices

  /** `SceneManager.LoadScene` requests. */
  datatype SceneLoad = ReloadActiveScene | LoadScene(name: string)

  /** How many of the next `n` calls of `OnPlayerDied`, starting from `dead` deaths out of
      `total` players, show the death screen. */
  function DeathScreens(total: int, dead: int, n: nat): nat
    decreases n
  {
    if n == 0 then 0
    else (if dead + 1 >= total then 1 else 0) + DeathScreens(total, dead + 1, n - 1)
  }

  /** There is no single game-over event: the screen is shown on the death that reaches the
      number of players and again on every later one. Among deaths `dead + 1 .. dead + n`,
      exactly those numbered at least `total` (and at least 1) show it. */
  lemma {:induction false} DeathScreensCount(total: int, dead: int, n: nat)
    ensures var first := if dead + 1 >= total then dead + 1 else total;
      DeathScreens(total, dead, n) == if dead + n >= first then dead + n - first + 1 else 0
    decreases n
  {
    if n > 0 {
      DeathScreensCount(total, dead + 1, n - 1);
    }
  }

  /** The count over `n + 1` deaths is the count over the first `n` plus what the last one,
      death number `dead + n + 1`, adds: it lets the per-call contract of `OnPlayerDied`
      be summed over a run of calls. */
  lemma {:induction false} DeathScreensSnoc(total: int, dead: int, n: nat)
    ensures DeathScreens(total, dead, n + 1) == DeathScreens(total, dead, n) + DeathScreens(total, dead + n, 1)
    decreases n
  {
    if n > 0 {
      DeathScreensSnoc(total, dead + 1, n - 1);
    }
  }

  class GameManager {
    var playerDeviceData: Devices.PlayerDeviceData?
    var totalPlayers: int
    var deadPlayers: int
    var hasDeathScreen: bool
    var deathScreenActive: bool
    var timeScale: real
    /** Scene loads requested so far, in order. */
    var loads: seq<SceneLoad>
    /** How many times `ShowDeathScreen` has run. */
    ghost var screensShown: nat

    /** Field initialisers; the engine's time scale starts at 1. */
    constructor (playerDeviceData: Devices.PlayerDeviceData?, hasDeathScreen: bool, deathScreenActive: bool)
      ensures this.playerDeviceData == playerDeviceData && this.hasDeathScreen == hasDeathScreen
      ensures this.deathScreenActive == deathScreenActive
      ensures totalPlayers == 0 && deadPlayers == 0 && timeScale == 1.0 && loads == []
      ensures screensShown == 0
    {
      this.playerDeviceData := playerDeviceData;
      this.hasDeathScreen, this.deathScreenActive := hasDeathScreen, deathScreenActive;
      totalPlayers, deadPlayers := 0, 0;
      timeScale := 1.0;
      loads := [];
      screensShown := 0;
    }

    /** `Start`: without device data nothing is set up; otherwise one player per assigned
        device, none dead, and the death screen hidden. */
    method Start()
      modifies this`totalPlayers, this`deadPlayers, this`deathScreenActive
      ensures playerDeviceData == null ==>
        totalPlayers == old(totalPlayers) && deadPlayers == old(deadPlayers) &&
        deathScreenActive == old(deathScreenActive)
      ensures playerDeviceData != null ==>
        totalPlayers == |playerDeviceData.devices| && deadPlayers == 0 &&
        deathScreenActive == (old(deathScreenActive) && !hasDeathScreen)
    {
      if playerDeviceData == null {
        return;
      }
      totalPlayers := |playerDeviceData.devices|;
      deadPlayers := 0;
      if hasDeathScreen {
        deathScreenActive := false;
      }
    }

    /** `OnPlayerDied`: one more death; the death screen shows once the deaths reach the
        number of players. */
    method OnPlayerDied()
      modifies this`deadPlayers, this`deathScreenActive, this`timeScale, this`screensShown
      ensures deadPlayers == old(deadPlayers) + 1
      ensures screensShown == old(screensShown) + DeathScreens(totalPlayers, old(deadPlayers), 1)
      ensures deadPlayers >= totalPlayers ==>
        timeScale == 0.0 && deathScreenActive == (old(deathScreenActive) || hasDeathScreen)
      ensures deadPlayers < totalPlayers ==>
        timeScale == old(timeScale) && deathScreenActive == old(deathScreenActive)
    {
      deadPlayers := deadPlayers + 1;
      if deadPlayers >= totalPlayers {
        ShowDeathScreen();
      }
    }

    /** `ShowDeathScreen`: the screen, when there is one, is shown and time stops. */
    method ShowDeathScreen()
      modifies this`deathScreenActive, this`timeScale, this`screensShown
      ensures timeScale == 0.0
      ensures deathScreenActive == (old(deathScreenActive) || hasDeathScreen)
      ensures screensShown == old(screensShown) + 1
    {
      screensShown := screensShown + 1;
      if hasDeathScreen {
        deathScreenActive := true;
      }
      timeScale := 0.0;
    }

    /** `Retry`: time runs again and the active scene is reloaded. */
    method Retry()
      modifies this`timeScale, this`loads
      ensures timeScale == 1.0 && loads == old(loads) + [ReloadActiveScene]
    {
      timeScale := 1.0;
      loads := loads + [ReloadActiveScene];
    }

    /** `BackToMenu`: time runs again and the main menu is loaded. */
    method BackToMenu()
      modifies this`timeScale, this`loads
      ensures timeScale == 1.0 && loads == old(loads) + [LoadScene("MainMenu")]
    {
      timeScale := 1.0;
      loads := loads + [LoadScene("MainMenu")];
    }
  }
}
