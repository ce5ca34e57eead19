/** How the configuration defaults fit the models and the CORS middleware. */
module Consistency {

  import opened GoStrings
  import Config
  import Moves
  import Cors

  /** With the default grid size, `IsValid` admits exactly the moves the coordinate columns' check constraints admit. */
  lemma DefaultGridMatchesColumnCheck(m: Moves.Move)
    ensures Moves.IsValid(m, Config.Defaults.game.gridSize)
        <==> Moves.ColumnCheck(m.xCoordinate) && Moves.ColumnCheck(m.yCoordinate)
  {
    Moves.IsValidMatchesColumnCheck(m);
  }

  /** The default CORS configuration allows the one origin `http://localhost:4200`. */
  lemma DefaultAllowedOrigins()
    ensures Cors.TrimAll(Split(Config.Defaults.server.corsOrigins, ',')) == ["http://localhost:4200"]
  {
    Config.DefaultCorsOriginsIsOneOrigin();
    Cors.ExactOrigin(Config.Defaults.server.corsOrigins);
  }
}
