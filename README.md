# Siege: a Dafny model of the server's rules

Siege is a Go server for a two-team (red and black) territory game played on
a square grid. The repository defines the game's records and the server's
configuration and middleware. Its game engine is not written yet: the game,
player and WebSocket handlers are stubs, and the grid representation is
always the empty string. So this model covers only the rules the code
actually has:

- the bounds check on a move (`Move.IsValid`) and how it relates to the
  database check constraint on the coordinate columns;
- the player cooldown rule (`Player.CanMakeMove`) and team membership
  (`Player.IsOnTeam`). The clock reading becomes an explicit `now`
  parameter. Go's 64-bit `time.Duration` arithmetic is modelled exactly:
  `time.Duration(n) * time.Second` wraps on overflow, and `Time.Sub`
  saturates;
- the game constructor (`NewGame`, `initializeEmptyGrid`) and the status
  and team constants;
- the CORS origin list: `strings.Split` on commas, then the loop that trims
  each element in place. The loop is kept as a method over an array;
- the configuration records, the default values `setDefaults` registers, the
  address and connection-string formatters, and the environment predicates.

Modules: `Wrappers` (Option), `Uuid`, `GoTime` (Go's `int64`, `Duration`,
`Sub` and `Seconds`), `GoStrings` (`Split`, `Join`, `TrimSpace`, `TrimLeft`,
`TrimRight`, `Count` and `Cut`), `Players`, `Moves`, `Games`, `Cors`, `Config`,
and `Consistency` (facts that tie the configuration defaults to the models).

Conventions:
- Go's `int` is taken to be 64 bits (`GoTime.Int64`).
- A `time.Time` is the number of nanoseconds since Go's zero time
  (January 1, year 1, UTC), so its zero value is 0.
- Go's nil-able pointers (`*Team`, `*time.Time`) become `Option`.
- Go's `Team` and `GameStatus` are string types, so a value decoded from JSON
  may hold any string. The model restricts both to their declared constants
  (`red`, `black`; `waiting`, `active`, `completed`). This changes neither
  `IsOnTeam` nor `CanMakeMove`, but "red or black" in `IsOnTeamIffTeam`
  relies on it.
- Strings are sequences of Unicode code points.
- `TrimSpace` trims exactly the code points for which Go's `unicode.IsSpace`
  holds: `\t` to `\r`, space, U+0085, U+00A0, U+1680, U+2000 to U+200A,
  U+2028, U+2029, U+202F, U+205F and U+3000.

The `Game` record has a winner and two team tallies, but no code sets them:
`NewGame` accepts every grid size and ignores it, and `IsValid` rejects every
move on a non-positive grid.

## Model

| member | source | states |
|---|---|---|
| GoTime.Sub | internal/models/players.go:29 | `time.Since(last)`, that is `now.Sub(last)`: the body is the saturated difference; its properties are stated by `SubSaturates`, `SubIsNearest`, `SubMonotone` and `SubCompare` |
| GoTime.Wrap64 | internal/models/players.go:29 | 64-bit two's complement wrap-around: the identity inside the `int64` range, and always congruent to its input modulo 2^64 |
| GoTime.Seconds | internal/models/players.go:29 | `time.Duration(n) * time.Second` is exactly `n * 10^9` nanoseconds whenever `|n| <= 9223372036` |
| GoTime.SubSaturates | internal/models/players.go:29 | the elapsed time `time.Since` computes is the exact difference inside the `Duration` range, and the nearer bound outside it |
| GoTime.SubIsNearest | internal/models/players.go:29 | the saturated difference is no farther from the exact difference than any other `Duration` |
| GoTime.SubMonotone | internal/models/players.go:29 | a later clock reading never gives a shorter elapsed time |
| GoTime.SubCompare | internal/models/players.go:29 | comparing the saturated difference with any duration above the minimum is the same as comparing the exact difference |
| GoStrings.IsSpace | internal/middleware/cors.go:13 | the white space `strings.TrimSpace` removes: the body lists the code points of Go's `unicode.IsSpace` |
| GoStrings.Count | internal/middleware/cors.go:11 | the number of occurrences of a character is at most the length, and is zero exactly when the character does not occur |
| GoStrings.CountConcat | internal/middleware/cors.go:11 | occurrences in a concatenation add up |
| GoStrings.Cut | internal/middleware/cors.go:11 | `strings.Cut` at the first separator fails exactly when the separator is absent; otherwise the input is the part before, the separator and the rest, and the part before has no separator |
| GoStrings.CutConcat | internal/config/config.go:174-181 | cutting `a + sep + b` at its first `sep` gives back `a` and `b` when `a` has no `sep` |
| GoStrings.Split | internal/middleware/cors.go:11 | `strings.Split` with a one-character separator always gives at least one piece |
| GoStrings.SplitCount | internal/middleware/cors.go:11 | a split has exactly one piece more than the input has separators |
| GoStrings.SplitPiecesLackSeparator | internal/middleware/cors.go:11 | no piece of a split contains the separator |
| GoStrings.SplitWithoutSeparator | internal/middleware/cors.go:11 | a string without the separator splits into itself alone, so the empty string gives `[""]` |
| GoStrings.JoinSplit | internal/middleware/cors.go:11 | joining the pieces of a split with the same separator gives back the input |
| GoStrings.SplitJoin | internal/middleware/cors.go:11 | splitting a join of at least one separator-free piece gives back the pieces |
| GoStrings.TrimLeft | internal/middleware/cors.go:13 | the result is a suffix of the input that does not start with white space |
| GoStrings.TrimLeftCutsSpace | internal/middleware/cors.go:13 | what `TrimLeft` removes is all white space |
| GoStrings.TrimRight | internal/middleware/cors.go:13 | the result is a prefix of the input that does not end with white space |
| GoStrings.TrimRightCutsSpace | internal/middleware/cors.go:13 | what `TrimRight` removes is all white space |
| GoStrings.TrimSpace | internal/middleware/cors.go:13 | `strings.TrimSpace` gives a result that neither starts nor ends with white space and is no longer than the input |
| GoStrings.TrimSpaceSlice | internal/middleware/cors.go:13 | the result is a slice of the input with only white space before and after it, which together with the above determines it |
| GoStrings.TrimSpaceKeepsAbsent | internal/middleware/cors.go:13 | trimming never brings in a character the input lacks |
| GoStrings.TrimSpaceOfTrimmed | internal/middleware/cors.go:13 | a string without surrounding white space is left unchanged |
| GoStrings.TrimSpaceIdempotent | internal/middleware/cors.go:13 | trimming twice is the same as trimming once |
| Players.TeamName | internal/models/players.go:11-14 | the string value of each team constant; `TeamNamesDistinct` states they differ |
| Players.CanMakeMove | internal/models/players.go:25-30 | the body is the source expression, with `now` for the clock; its properties are stated by `NeverMovedMayMove`, `CanMakeMoveExactly`, `CanMakeMoveLater`, `CanMakeMoveShorterCooldown`, `NoCooldownMayMove` and the two wrap lemmas |
| Players.IsOnTeam | internal/models/players.go:32-34 | the body is the source expression; `IsOnTeamIffTeam` states what it means |
| Players.NeverMovedMayMove | internal/models/players.go:26-28 | a player with no recorded last move may move, whatever the cooldown and the time |
| Players.CanMakeMoveExactly | internal/models/players.go:29 | with a last move recorded, a player may move exactly when `now - last >= cooldownSeconds * 10^9` ns; equality is enough |
| Players.CanMakeMoveLater | internal/models/players.go:29 | a player who may move at `now` may move at every later time |
| Players.CanMakeMoveShorterCooldown | internal/models/players.go:29 | a player allowed with cooldown `c` is also allowed with every shorter cooldown `c' <= c` |
| Players.NoCooldownMayMove | internal/models/players.go:29 | with a cooldown of zero or less, a player may move once the clock has not gone back since the last move |
| Players.HugeCooldownWraps | internal/models/players.go:29 | a cooldown of 9223372037 seconds overflows to a negative `Duration`, so a player may move again at the very instant of their last move |
| Players.IsOnTeamIffTeam | internal/models/players.go:32-34 | a player is on a team exactly when a team is recorded, red or black alike |
| Players.NegativeCooldownWraps | internal/models/players.go:29 | a cooldown of -9223372037 seconds overflows to a positive `Duration`, so a player may not move again at the instant of their last move although the cooldown is negative |
| Players.TeamNamesDistinct | internal/models/players.go:11-14 | the team constants `red` and `black` are different strings |
| Moves.ColumnCheck | internal/models/move.go:13-14 | the body is the check constraint on each coordinate column; `IsValidMatchesColumnCheck` relates it to `IsValid` |
| Moves.IsValid | internal/models/move.go:28-31 | the body is the source expression; its properties are stated by the lemma rows below |
| Moves.NoValidMoveOnEmptyGrid | internal/models/move.go:28-31 | on a grid of size zero or less, no move is valid |
| Moves.IsValidMonotone | internal/models/move.go:28-31 | a move valid on a grid of size `n` is valid on every grid of size at least `n` |
| Moves.IsValidOnlyCoordinates | internal/models/move.go:28-31 | validity depends only on the two coordinates and the grid size, not on the team, the ids or the timestamp |
| Moves.IsValidMatchesColumnCheck | internal/models/move.go:13-31 | `IsValid(100)` admits exactly the moves that satisfy both column checks, `x_coordinate >= 0 AND x_coordinate < 100` and the same for `y_coordinate` |
| Moves.IsValidBoundary | internal/models/move.go:28-31 | for `n >= 1`, the cell `(n-1, n-1)` is valid and every move with a coordinate equal to `n` is not |
| Games.StatusName | internal/models/game.go:11-15 | the string value of each status constant; `StatusNamesDistinct` states they differ |
| Games.InitializeEmptyGrid | internal/models/game.go:43-47 | the body is the source's constant result; `EmptyGridIsEmpty` states it |
| Games.NewGame | internal/models/game.go:36-41 | the body is the source's struct literal with Go's zero values for the other fields; `NewGameIsFresh` and `NewGameIgnoresSize` state its properties |
| Games.EmptyGridIsEmpty | internal/models/game.go:43-47 | the empty grid representation is `""` for every size |
| Games.NewGameIsFresh | internal/models/game.go:36-41 | a new game is `waiting`, has the empty grid representation, no winner, zero tallies and moves, a nil id, a zero creation time, and no start or completion time |
| Games.NewGameIgnoresSize | internal/models/game.go:36-47 | the new game does not depend on the grid size it is given |
| Games.StatusNamesDistinct | internal/models/game.go:11-15 | the status constants `waiting`, `active` and `completed` are pairwise different strings |
| Cors.TrimAll | internal/middleware/cors.go:12-14 | the specification of the trimming loop, every element trimmed in order; `TrimEach` is proved against it |
| Cors.TrimEach | internal/middleware/cors.go:12-14 | the in-place loop leaves each element trimmed and in its place; its invariant is that elements before `i` are trimmed and the rest are untouched |
| Cors.AllowedOrigins | internal/middleware/cors.go:11-14 | the origin list is the input's comma-separated pieces, each trimmed, in order; it has one element more than there are commas, and no element has surrounding white space or a comma |
| Cors.TrimAllIdempotent | internal/middleware/cors.go:12-14 | running the trimming loop over its own output changes nothing |
| Cors.SingleOrigin | internal/middleware/cors.go:11-14 | input without a comma gives the one-element list of the trimmed input |
| Cors.ExactOrigin | internal/middleware/cors.go:11-14 | an input without a comma and without surrounding white space is the one origin allowed |
| Cors.EmptyOrigins | internal/middleware/cors.go:11-14 | the empty input gives `[""]` |
| Cors.OriginsJoinBack | internal/middleware/cors.go:11-14 | when no piece has surrounding white space, joining the origins with commas gives back the input |
| Config.Defaults | internal/config/config.go:125-165 | the default values `setDefaults` registers; the `Default…` lemma rows state them |
| Config.GetDatabaseConnectionString | internal/config/config.go:168-171 | the body is the source's format string; `ConnectionStringIsJoin` and `ConnectionStringRoundTrip` state what it builds |
| Config.GetRedisAddress | internal/config/config.go:174-176 | the body is the source's format string; `RedisAddressRoundTrip` and `RedisAddressColonHost` state when it splits back |
| Config.GetServerAddress | internal/config/config.go:179-181 | the body is the source's format string; `ServerAddressRoundTrip` and `ServerAddressColonHost` state when it splits back |
| Config.IsProduction | internal/config/config.go:184-186 | the body is the source comparison; `NotBothEnvironments` and `DefaultsAreDevelopment` state its properties |
| Config.IsDevelopment | internal/config/config.go:189-191 | the body is the source comparison; `NotBothEnvironments` and `DefaultsAreDevelopment` state its properties |
| Config.ConnectionStringIsJoin | internal/config/config.go:168-171 | the connection string is the six words `host=`, `port=`, `user=`, `password=`, `dbname=` and `sslmode=` with their values, in that order, separated by single spaces |
| Config.PlainValueHasNoSpace | internal/config/config.go:168-171 | a value PostgreSQL takes without quotes contains no space, so it stays one word |
| Config.ConnectionStringRoundTrip | internal/config/config.go:168-171 | when every value is non-empty and free of white space, `'` and `\`, so PostgreSQL's keyword/value syntax takes it unquoted, reading the connection string back by splitting at spaces and cutting at `=` gives the six settings host, port, user, password, dbname and sslmode, with the configured values and in that order |
| Config.RedisAddressRoundTrip | internal/config/config.go:174-176 | when the host has no colon, cutting the Redis address at its first colon gives back the host and the port |
| Config.ServerAddressRoundTrip | internal/config/config.go:179-181 | when the host has no colon, cutting the server address at its first colon gives back the host and the port |
| Config.RedisAddressColonHost | internal/config/config.go:174-176 | for every host that contains a colon, cutting the Redis address at its first colon does not give back the host and the port |
| Config.ServerAddressColonHost | internal/config/config.go:179-181 | for every host that contains a colon, cutting the server address at its first colon does not give back the host and the port |
| Config.ServerAddressLoopbackIpv6 | internal/config/config.go:179-181 | with the IPv6 loopback host `::1` and port 8080, the address cuts into an empty host and `:1:8080` |
| Config.NotBothEnvironments | internal/config/config.go:184-191 | no configuration is both production and development |
| Config.DefaultsAreDevelopment | internal/config/config.go:164-191 | the default environment `development` makes `IsDevelopment` true and `IsProduction` false |
| Config.DefaultGameSettings | internal/config/config.go:155-157 | the game defaults are grid size 100, a cooldown of 5 seconds and at most 1000 players |
| Config.DefaultCorsOriginsIsOneOrigin | internal/config/config.go:130 | the default CORS setting is `http://localhost:4200`, with no comma and no surrounding white space |
| Config.DefaultAddresses | internal/config/config.go:127-181 | the default server address is `localhost:8080` and the default Redis address is `localhost:6379` |
| Config.DefaultDatabaseValuesArePlain | internal/config/config.go:133-138 | every default database setting is non-empty and needs no quoting |
| Config.DefaultConnectionString | internal/config/config.go:133-171 | the default connection string reads back as host `localhost`, port `5432`, user `siege_user`, password `siege_password`, dbname `siege_game` and sslmode `disable` |
| Consistency.DefaultGridMatchesColumnCheck | internal/config/config.go:155 | with the default grid size, move validity coincides with the coordinate columns' check constraints |
| Consistency.DefaultAllowedOrigins | internal/config/config.go:130 | the default CORS setting allows exactly the one origin `http://localhost:4200` |

## Left out

- Game play. The game and player handlers (internal/handlers/game.go, internal/handlers/players.go) are stubs, so nothing in the code places a move on a grid, sets a winner or a team tally, assigns a team or records a move time. The grid representation is always empty.
- `config.Load` and `setDefaults`. They read `.env` files and the process environment and change the global state of the viper and godotenv libraries. Only the default values are kept, as the constant `Config.Defaults`.
- The PostgreSQL and Redis connections (pkg/database), the HTTP router, the WebSocket handler, the response helpers, the panic-recovery middleware and the server's start-up and signal handling (cmd/server/main.go). These are network I/O and library calls.
- `cors.New` and the fixed methods and headers the CORS configuration lists. Only the origin list is modelled.
- internal/utils/test_config.go. It only prints the configuration.
- The gorm and validator struct tags (`required,min=0,max=99` on `MoveRequest`, the username length, the JSON names). What they mean belongs to external libraries. The one column check constraint the model uses is written out as `Moves.ColumnCheck`.
- The `Game` and `Player` relation fields of `Move`. These are ORM associations loaded from the database.
- UUID generation and database defaults. `NewGame` leaves the id as the nil UUID, and that is what the model uses.
- Reading the clock. `time.Since` becomes the parameter `now`. Go's monotonic clock reading is not distinguished from the wall clock.
- UTF-8. Strings are sequences of code points, so how `TrimSpace` treats invalid UTF-8 bytes is not modelled.
- Players.CanMakeMoveExactly: holds only for cooldowns of at most 9223372036 seconds in absolute value. Beyond that, `time.Duration(cooldownSeconds) * time.Second` wraps around (see Players.HugeCooldownWraps).
- Players.CanMakeMoveShorterCooldown: holds only for cooldowns within the same bound. A wrapped cooldown breaks monotonicity.
- Players.NoCooldownMayMove: holds only for cooldowns within the same bound (see Players.NegativeCooldownWraps).
- Config.ConnectionStringRoundTrip: the reader `ConnectionStringPairs` is a plain split at spaces and a cut at `=`, not PostgreSQL's keyword/value parser (spaces around `=`, single-quoted values, `\` escapes). So the round trip is stated only for values that need no quoting. `GetDatabaseConnectionString` quotes nothing: with a value that is empty, holds ASCII white space, starts with `'` or holds `\`, the string it builds need not carry the configured settings. `PlainValue` is stricter than that list, so the round trip covers fewer values than PostgreSQL reads back as written. For example, an empty password gives `password= dbname=siege_game`, which PostgreSQL reads as the password `dbname=siege_game`.
