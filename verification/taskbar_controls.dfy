/** The keyboard and focus handlers of the game screen. Each decides whether to call
    `onTogglePause`, from the game record and the browser event; the event is given by its
    `code` and `key` strings and the document's `hidden` flag. */
module TaskbarControls {
  import opened Common
  import GameState

  /** A key press toggles the pause only during a running game, and only for Space or P in
      either letter case. */
  function KeyToggles(g: GameState.State, code: string, key: string): (r: bool)
    ensures r <==> g.screen == GameState.Game && g.isGameRunning &&
                   (code == "Space" || key == "p" || key == "P")
  {
    LowerIsP(key);
    g.screen == GameState.Game && g.isGameRunning && (code == "Space" || Lower(key) == "p")
  }

  /** Exactly "p" and "P" lower-case to "p". */
  lemma LowerIsP(key: string)
    ensures Lower(key) == "p" <==> key == "p" || key == "P"
  {
    if Lower(key) == "p" {
      assert |key| == 1 && LowerChar(key[0]) == 'p';
      assert key == [key[0]];
    }
  }

  /** A tab that becomes hidden pauses a running, unpaused game. */
  function VisibilityPauses(g: GameState.State, hidden: bool): (r: bool)
    ensures r ==> GameState.TogglePause(g).isPaused
    ensures r ==> BlurPauses(g)
  {
    hidden && g.screen == GameState.Game && g.isGameRunning && !g.isPaused
  }

  /** A window that loses focus pauses a running, unpaused game. */
  function BlurPauses(g: GameState.State): (r: bool)
    ensures r ==> GameState.TogglePause(g).isPaused
  {
    g.screen == GameState.Game && g.isGameRunning && !g.isPaused
  }

  /** Neither automatic path ever resumes a game: whenever either toggles, the game is
      paused afterwards, and neither toggles a paused game or a visible tab. */
  lemma AutoPauseNeverResumes(g: GameState.State, hidden: bool)
    ensures VisibilityPauses(g, hidden) || BlurPauses(g) ==> !g.isPaused && GameState.TogglePause(g).isPaused
    ensures g.isPaused ==> !VisibilityPauses(g, hidden) && !BlurPauses(g)
    ensures !hidden ==> !VisibilityPauses(g, hidden)
  {
  }
}
