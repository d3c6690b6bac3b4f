// The top-level game-state machine (App.tsx): starting the game behind the
// API-key host's answer, the key dialog, pausing and resuming, and the
// tracker-vision key. The host's asynchronous answers are parameters.

module App {
  import opened Types
  import GameStore

  /** What the page's aistudio host object says, if there is one. */
  datatype Host = Absent | Present(hasKey: bool)

  /** The pause toggle: playing and paused swap, the menu and game over stay. */
  function PauseToggle(s: GameState): (r: GameState)
    ensures r == Paused <==> s == Playing
    ensures r == Playing <==> s == Paused
    ensures s == Menu || s == Over ==> r == s
  {
    if s == Playing then Paused else if s == Paused then Playing else s
  }

  /** Pausing twice restores the state. */
  lemma PauseTwiceRestores(s: GameState)
    ensures PauseToggle(PauseToggle(s)) == s
  {
  }

  class App {
    /** Whether the key-selection overlay is shown. */
    var needsApiKey: bool

    constructor ()
      ensures !needsApiKey
    {
      needsApiKey := false;
    }

    /** A host that reports no selected key blocks the start and asks for one;
        otherwise the game starts. */
    method HandleStartGame(host: Host, store: GameStore.Store)
      modifies this`needsApiKey, store`gameState
      ensures host == Present(false) ==> needsApiKey && store.gameState == old(store.gameState)
      ensures host != Present(false) ==> needsApiKey == old(needsApiKey) && store.gameState == Playing
    {
      if host.Present? {
        var hasKey := host.hasKey;
        if !hasKey {
          needsApiKey := true;
          return;
        }
      }
      store.SetGameState(Playing);
    }

    /** After the host's key dialog the overlay closes and the game starts;
        without a host nothing happens. */
    method OpenKeyDialog(host: Host, store: GameStore.Store)
      modifies this`needsApiKey, store`gameState
      ensures host.Present? ==> !needsApiKey && store.gameState == Playing
      ensures host.Absent? ==> needsApiKey == old(needsApiKey) && store.gameState == old(store.gameState)
    {
      if host.Present? {
        needsApiKey := false;
        store.SetGameState(Playing);
      }
    }

    method HandlePause(store: GameStore.Store)
      modifies store`gameState
      ensures store.gameState == PauseToggle(old(store.gameState))
    {
      if store.gameState == Playing {
        store.SetGameState(Paused);
      } else if store.gameState == Paused {
        store.SetGameState(Playing);
      }
    }

    /** Escape toggles the pause; v in either case turns tracker vision on. */
    method KeyDown(key: string, store: GameStore.Store)
      modifies store`gameState, store`isTrackerVision
      ensures key == "Escape" ==> store.gameState == PauseToggle(old(store.gameState))
      ensures key != "Escape" ==> store.gameState == old(store.gameState)
      ensures LowerAscii(key) == "v" ==> store.isTrackerVision
      ensures LowerAscii(key) != "v" ==> store.isTrackerVision == old(store.isTrackerVision)
    {
      if key == "Escape" {
        HandlePause(store);
      }
      if LowerAscii(key) == "v" {
        store.SetTrackerVision(true);
      }
    }

    /** Releasing v in either case turns tracker vision off. */
    method KeyUp(key: string, store: GameStore.Store)
      modifies store`isTrackerVision
      ensures LowerAscii(key) == "v" ==> !store.isTrackerVision
      ensures LowerAscii(key) != "v" ==> store.isTrackerVision == old(store.isTrackerVision)
    {
      if LowerAscii(key) == "v" {
        store.SetTrackerVision(false);
      }
    }

    /** The resume button on the pause screen. */
    method Resume(store: GameStore.Store)
      modifies store`gameState
      ensures store.gameState == Playing
    {
      store.SetGameState(Playing);
    }
  }

  /** Only "v" and "V" lower to "v", so no other key touches tracker vision. */
  lemma TrackerKeys(key: string)
    ensures LowerAscii(key) == "v" <==> key == "v" || key == "V"
  {
    if LowerAscii(key) == "v" {
      assert |key| == 1;
      assert key[0] == 'v' || key[0] == 'V';
      assert key == [key[0]];
    }
  }
}
