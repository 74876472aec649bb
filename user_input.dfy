/**
 * The UserInputHandler of app/handlers/user_input_handler.py: the chosen
 * and the initial difficulty and theme, whether they differ, and what a
 * choice does to the controller's two search depths. The theme controller
 * is outside the model; the name handed to it is kept as a field.
 */
module UserInput {
  import opened Wrappers
  import opened Text
  import opened Rules
  import GameControl

  /** The difficulties _apply_difficulty knows. */
  predicate KnownDifficulty(difficulty: string)
  {
    difficulty == "Easy" || difficulty == "Medium" || difficulty == "Hard"
  }

  /** _apply_difficulty: (ai.max_depth, thermal_ai.max_depth) after the choice; an unknown name changes neither. */
  function Depths(difficulty: string, ai: int, thermal: int): (d: (int, int))
    ensures !KnownDifficulty(difficulty) ==> d == (ai, thermal)
    ensures KnownDifficulty(difficulty) ==> 1 <= d.1 <= d.0 <= 5
  {
    if difficulty == "Easy" then (1, 1)
    else if difficulty == "Medium" then (3, 2)
    else if difficulty == "Hard" then (5, 3)
    else (ai, thermal)
  }

  function DifficultyRank(difficulty: string): nat
  {
    if difficulty == "Easy" then 0 else if difficulty == "Medium" then 1 else 2
  }

  /** A known difficulty fixes both depths whatever they were, and a harder one searches deeper, hot or cool. */
  lemma DepthsByDifficulty(d1: string, d2: string, ai: int, thermal: int, ai2: int, thermal2: int)
    requires KnownDifficulty(d1) && KnownDifficulty(d2)
    ensures Depths(d1, ai, thermal) == Depths(d1, ai2, thermal2)
    ensures DifficultyRank(d1) < DifficultyRank(d2) ==>
      Depths(d1, ai, thermal).0 < Depths(d2, ai, thermal).0 && Depths(d1, ai, thermal).1 <= Depths(d2, ai, thermal).1
    ensures DifficultyRank(d1) == DifficultyRank(d2) <==> d1 == d2
  {
  }

  /** Applying the same difficulty twice is applying it once. */
  lemma DepthsIdempotent(difficulty: string, ai: int, thermal: int)
    ensures var d := Depths(difficulty, ai, thermal); Depths(difficulty, d.0, d.1) == d
  {
  }

  class UserInputHandler {
    const controller: GameControl.GameController
    var currentDifficulty: string
    var currentTheme: string
    var initialDifficulty: string
    var initialTheme: string
    var settingsChanged: bool
    /** The name last handed to the theme controller's set_theme. */
    var appliedTheme: string

    ghost predicate Valid()
      reads this, controller, controller.game
    {
      controller.Valid()
    }

    /** Whether the chosen settings differ from those the game started with. */
    predicate Differs()
      reads this
    {
      currentDifficulty != initialDifficulty || currentTheme != initialTheme
    }

    /** __init__: Medium and Fantasy, applied to the controller. */
    constructor(c: GameControl.GameController)
      requires c.Valid()
      modifies c
      ensures Valid() && controller == c
      ensures currentDifficulty == "Medium" && currentTheme == "Fantasy"
      ensures initialDifficulty == "Medium" && initialTheme == "Fantasy" && !settingsChanged
      ensures appliedTheme == "fantasy"
      ensures (c.aiDepth, c.thermalDepth) == (3, 2) && c.game == old(c.game) && c.gameOver == old(c.gameOver)
      ensures c.winner == old(c.winner) && c.lastMoveColumn == old(c.lastMoveColumn) && c.lastNarrative == old(c.lastNarrative)
    {
      controller := c;
      currentDifficulty := "Medium";
      currentTheme := "Fantasy";
      initialDifficulty := "Medium";
      initialTheme := "Fantasy";
      settingsChanged := false;
      new;
      ApplyDifficulty("Medium");
      appliedTheme := Lower("Fantasy");
      assert appliedTheme == "fantasy";
    }

    /** _apply_difficulty */
    method ApplyDifficulty(difficulty: string)
      requires Valid()
      modifies controller
      ensures Valid()
      ensures (controller.aiDepth, controller.thermalDepth) == Depths(difficulty, old(controller.aiDepth), old(controller.thermalDepth))
      ensures controller.game == old(controller.game) && controller.gameOver == old(controller.gameOver)
      ensures controller.winner == old(controller.winner) && controller.lastMoveColumn == old(controller.lastMoveColumn)
      ensures controller.lastNarrative == old(controller.lastNarrative)
    {
      if difficulty == "Easy" {
        controller.aiDepth := 1;
        controller.thermalDepth := 1;
      } else if difficulty == "Medium" {
        controller.aiDepth := 3;
        controller.thermalDepth := 2;
      } else if difficulty == "Hard" {
        controller.aiDepth := 5;
        controller.thermalDepth := 3;
      }
    }

    /** _check_settings_changed */
    method CheckSettingsChanged()
      modifies this
      ensures settingsChanged == Differs()
      ensures currentDifficulty == old(currentDifficulty) && currentTheme == old(currentTheme)
      ensures initialDifficulty == old(initialDifficulty) && initialTheme == old(initialTheme)
      ensures appliedTheme == old(appliedTheme)
    {
      settingsChanged := currentDifficulty != initialDifficulty || currentTheme != initialTheme;
    }

    /** on_difficulty_changed */
    method OnDifficultyChanged(difficulty: string)
      requires Valid()
      modifies this, controller
      ensures Valid()
      ensures currentDifficulty == difficulty && currentTheme == old(currentTheme)
      ensures initialDifficulty == old(initialDifficulty) && initialTheme == old(initialTheme)
      ensures settingsChanged == (difficulty != initialDifficulty || currentTheme != initialTheme)
      ensures (controller.aiDepth, controller.thermalDepth) == Depths(difficulty, old(controller.aiDepth), old(controller.thermalDepth))
      ensures controller.game == old(controller.game) && controller.gameOver == old(controller.gameOver)
      ensures controller.winner == old(controller.winner) && controller.lastMoveColumn == old(controller.lastMoveColumn)
      ensures controller.lastNarrative == old(controller.lastNarrative) && appliedTheme == old(appliedTheme)
    {
      currentDifficulty := difficulty;
      ApplyDifficulty(difficulty);
      CheckSettingsChanged();
    }

    /** on_theme_changed, without the narrative it asks for afterwards. */
    method OnThemeChanged(theme: string)
      modifies this
      ensures currentTheme == theme && currentDifficulty == old(currentDifficulty)
      ensures initialDifficulty == old(initialDifficulty) && initialTheme == old(initialTheme)
      ensures appliedTheme == Lower(theme)
      ensures settingsChanged == (currentDifficulty != initialDifficulty || theme != initialTheme)
    {
      currentTheme := theme;
      appliedTheme := Lower(theme);
      CheckSettingsChanged();
    }

    /**
     * on_column_selected, up to the player's move: ignored once the game is
     * over, otherwise the controller's make_player_move.
     */
    method OnColumnSelected(column: int) returns (success: bool)
      requires Valid()
      modifies controller, controller.game, controller.game.board
      ensures Valid() && controller.game == old(controller.game)
      ensures (controller.aiDepth, controller.thermalDepth) == old((controller.aiDepth, controller.thermalDepth))
      ensures controller.lastNarrative == old(controller.lastNarrative)
      ensures old(controller.gameOver) ==>
        !success && controller.game.State() == old(controller.game.State()) && controller.gameOver &&
        controller.winner == old(controller.winner) && controller.lastMoveColumn == old(controller.lastMoveColumn)
      ensures !old(controller.gameOver) ==> success == IsValidMove(old(controller.game.State()), column)
      ensures !old(controller.gameOver) && success ==>
        controller.game.State() == MakeMove(old(controller.game.State()), column).value &&
        controller.lastMoveColumn == Some(column) &&
        (controller.gameOver, controller.winner) == GameControl.Settle(false, old(controller.winner), controller.game.State())
      ensures !old(controller.gameOver) && !success ==>
        controller.game.State() == old(controller.game.State()) && !controller.gameOver &&
        controller.winner == old(controller.winner) && controller.lastMoveColumn == old(controller.lastMoveColumn)
    {
      if controller.gameOver {
        return false;
      }
      success := controller.MakePlayerMove(column);
    }

    /** new_game: apply the chosen settings, restart the game, and take the chosen settings as the initial ones. */
    method NewGame()
      requires Valid()
      modifies this, controller
      ensures Valid() && fresh(controller.game)
      ensures controller.game.State() == Rules.NewGame(6, 7) && !controller.gameOver
      ensures controller.winner == Empty && controller.lastMoveColumn == None && controller.lastNarrative == None
      ensures (controller.aiDepth, controller.thermalDepth) == Depths(currentDifficulty, old(controller.aiDepth), old(controller.thermalDepth))
      ensures currentDifficulty == old(currentDifficulty) && currentTheme == old(currentTheme)
      ensures initialDifficulty == currentDifficulty && initialTheme == currentTheme
      ensures !settingsChanged && !Differs()
      ensures appliedTheme == Lower(currentTheme)
    {
      initialDifficulty := currentDifficulty;
      initialTheme := currentTheme;
      settingsChanged := false;
      appliedTheme := Lower(currentTheme);
      ApplyDifficulty(currentDifficulty);
      controller.NewGame();
    }
  }
}
