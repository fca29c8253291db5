# Game portal: accounts, sign-in, score log and two games, in Dafny

This project models the logic of a small browser game portal written in
JavaScript. It has five parts.

- **Account store** (`UserStorage`): registered users with unique
  usernames, per-username login-attempt records, and the session and token
  of the signed-in user. Five failed sign-ins within 30 minutes of each
  other block a name for 30 minutes.
- **Sign-in and registration pages.** Two sign-in pages run the same
  decision sequence: blocked check, lookup, password comparison, then
  either an attempt is recorded or the sign-in succeeds. One page compares
  a SHA-256 hex digest, writes a `lastSignedInUser` cookie and reads it
  back with `getCookie`. The other compares the typed password. Two
  registration pages run the same four checks in the same order; one
  stores the hex digest and the other the typed password.
- **Score log** (`GameStorage`): user → game → list of `{score, timestamp}`
  entries, with a per-game high-score table and per-user statistics.
- **Tic-tac-toe against a bot**: the board evaluator, the in-place minimax
  search, the random move and the session handlers (click, bot reply,
  winner check, tally, score saving).
- **Obstacle game**: a player box moved by the keys, collectibles worth 10
  points, obstacles that end the game, a 60-second clock, and levels that
  rebuild the field.

The hex encoding of the SHA-256 digest is modelled and proved to be
injective. The digest itself is a parameter.

Modules follow the source files:

- `Text`: the JavaScript string operations the pages rely on.
- `Crypto`: `js/utils/crypto.js`.
- `UserStore`: `js/storage/user-storage.js`.
- `ScoreStore`: `js/storage/games-storage.js`.
- `Auth`: the sign-in and registration decisions shared by the four pages.
- `Login`, `LoginLogic`, `Register`, `RegisterLogic`: the four pages in
  `js/auth/`.
- `Board` and `Search`: the evaluator and the search in `js/games/game2.js`.
- `TicTacToe`: the session state of `js/games/game2.js`.
- `ObstacleGame`: `js/games/game1-logic.js`.

How the environment is represented:

- Local storage entries are class fields.
- The clock is a `now` parameter, in milliseconds.
- `Math.random` is an oracle parameter.
- Strings are sequences of Unicode scalar values. JavaScript `.length` is
  modelled as a count of UTF-16 code units.

## Model

| member | source | states |
|---|---|---|
| `Text.TrimStart` | js/auth/login.js:17 | the result is a suffix of the input that starts with a non-space character (or is empty) |
| `Text.TrimEnd` | js/auth/login.js:17 | the result is a prefix of the input that ends with a non-space character (or is empty) |
| `Text.TrimStartDropsSpace` | js/auth/login.js:17 | everything `trimStart` removes is white space |
| `Text.TrimEndDropsSpace` | js/auth/login.js:17 | everything `trimEnd` removes is white space |
| `Text.TrimCutsSpace` | js/auth/login.js:17 | `trim` leaves no white space at either end and keeps a contiguous middle; only white space is cut before and after it |
| `Text.TrimPadded` | js/auth/login.js:17 | white space around a trimmed string is exactly what `trim` removes |
| `Text.TrimStartPadded` | js/auth/login.js:17 | a white-space prefix is exactly what `trimStart` removes |
| `Text.TrimEndPadded` | js/auth/login.js:17 | a white-space suffix is exactly what `trimEnd` removes |
| `Text.Split` | js/auth/login.js:15 | `split(';')` gives at least one piece; no piece contains the separator; joining the pieces with the separator gives the input back |
| `Text.SplitJoin` | js/auth/login.js:15 | splitting a join of separator-free pieces gives the pieces back |
| `Text.SplitPlain` | js/auth/login.js:15 | a separator-free string splits into itself alone |
| `Text.SplitAfter` | js/auth/login.js:15 | a separator-free piece followed by the separator becomes the first piece |
| `Text.Utf16Length` | js/auth/register.js:22-29 | `.length` lies between the number of characters and twice it, and equals it when every character is in the Basic Multilingual Plane |
| `Crypto.HexDigit` | js/utils/crypto.js:12 | every digit written is a lowercase hex digit |
| `Crypto.PadStart` | js/utils/crypto.js:12 | `padStart` reaches the target length only by filling in front, and the original string ends the result |
| `Crypto.ByteHex` | js/utils/crypto.js:12 | a byte is written as exactly two lowercase hex digits |
| `Crypto.PaddedToString16` | js/utils/crypto.js:12 | `toString(16).padStart(2, '0')` is the two-digit form, with a leading '0' below 16 |
| `Crypto.HexEncode` | js/utils/crypto.js:11-12 | output length is twice the byte count; byte i sits at characters 2i and 2i+1; only `0-9a-f` occur |
| `Crypto.HexPositions` | js/utils/crypto.js:12 | byte i is written high nibble first |
| `Crypto.Hash` | js/utils/crypto.js:2-14 | the digest is written as 64 lowercase hex digits |
| `Crypto.DigitValue` | js/utils/crypto.js:12 | reading a hex digit inverts the digit writer |
| `Crypto.HexDecode` | js/utils/crypto.js:12 | the inverse of the encoding: half as many bytes as digits |
| `Crypto.DigitRoundTrip` | js/utils/crypto.js:12 | every digit value reads back as itself |
| `Crypto.HexRoundTrip` | js/utils/crypto.js:11-12 | decoding the hex encoding gives the bytes back |
| `Crypto.HexInjective` | js/utils/crypto.js:11-12 | distinct byte sequences give distinct hex strings |
| `UserStore.IndexOf` | js/storage/user-storage.js:45 | `findIndex` is none exactly when no user has the name; otherwise it is the first index with that name |
| `UserStore.NextAttempt` | js/storage/user-storage.js:74-102 | a stale record (last attempt more than 30 minutes ago, strictly) or a missing one starts again at count 1 unblocked; otherwise the count goes up by exactly one and the record is blocked iff it was blocked or the count reached 5; the time is always now |
| `UserStore.AfterBlockCheck` | js/storage/user-storage.js:104-120 | only an expired block on the checked name is changed; other names, the key set and the last-attempt time are kept; the blocked answer is unchanged by the check |
| `UserStore.Replay` | js/storage/user-storage.js:74-102 | the record after a run of failed logins ends at the last attempt's time |
| `UserStore.RapidFailuresBlock` | js/storage/user-storage.js:93-98 | n failures, each within 30 minutes of the one before, count n and block exactly when n reaches 5 |
| `UserStore.BlockLapses` | js/storage/user-storage.js:112-117 | after its window a blocked name is let through and the next failure counts from 1 again |
| `UserStore.UserStorage.constructor` | js/storage/user-storage.js:2-17 | an empty store: no users, no attempt records, no session, no token |
| `UserStore.UserStorage.GetUserByUsername` | js/storage/user-storage.js:23-26 | nothing iff no user has the name; otherwise the first user with that name |
| `UserStore.UserStorage.AddUser` | js/storage/user-storage.js:28-41 | a taken name gives 'username already exists' and changes nothing; otherwise exactly one record is appended with the given fields, id and creation time now, no scores and no last login; unique usernames are kept |
| `UserStore.UserStorage.UpdateUser` | js/storage/user-storage.js:43-51 | false and no change when nobody has the name; otherwise true and only the first match gets the given fields; uniqueness is kept when the name is not changed |
| `UserStore.UserStorage.SetCurrentUser` | js/storage/user-storage.js:53-62 | stores the session and the token, the user is logged in, and the user's last login becomes now; other records are unchanged |
| `UserStore.UserStorage.Logout` | js/storage/user-storage.js:69-72 | session and token are gone and nobody is logged in |
| `UserStore.InheritedAttempt` | js/storage/user-storage.js:74-102 | as written, for a name that reaches an inherited member: the time is set; a stale time resets to a numeric count of one; otherwise an undefined or NaN count stays NaN and the flag is kept, and a numeric count goes up with the block from five on |
| `UserStore.InheritedReplay` | js/storage/user-storage.js:74-102 | as written, the inherited member after a run of failed logins ends at the last attempt's time |
| `UserStore.InheritedRunNeverBlocks` | js/storage/user-storage.js:74-102 | as written, a run of failures on an inherited member, each within 30 minutes of the one before, leaves the count NaN and the flag unset |
| `UserStore.LockoutBypassed` | js/storage/user-storage.js:74-120 | five quick failures block a name with its own record, while for a name of an Object.prototype member `isUserBlocked` as written answers not blocked at every time |
| `UserStore.UserStorage.RecordLoginAttempt` | js/storage/user-storage.js:74-102 | the name's record becomes the next attempt record and is returned; other names' records are kept |
| `UserStore.UserStorage.IsUserBlocked` | js/storage/user-storage.js:104-120 | false for an unknown name; an expired block is lifted with its count cleared and reported false; otherwise the stored flag is returned with nothing changed |
| `ScoreStore.WithEntry` | js/storage/games-storage.js:13-30 | the log after a save: the user and game lists are created when absent, the entry goes at the end of that list, and every other list is unchanged; non-empty lists stay non-empty |
| `ScoreStore.SaveThenRead` | js/storage/games-storage.js:13-35 | after a save, reading that user's game sees the new entry last; every other user and game reads as before |
| `ScoreStore.TagAll` | js/storage/games-storage.js:45-49 | one tagged entry per stored entry, in order, carrying the owner's id |
| `ScoreStore.TagAllCount` | js/storage/games-storage.js:44-50 | tagged entries occur exactly as often as the stored entries of that owner |
| `ScoreStore.GatherOne` | js/storage/games-storage.js:42-51 | adding one user's tagged list accounts for all of that user's entries of the game |
| `ScoreStore.Insert` | js/storage/games-storage.js:55 | inserting into a best-first list keeps it best first and adds exactly that entry |
| `ScoreStore.SortByScore` | js/storage/games-storage.js:55 | the sort by `b.score - a.score` is best first and a permutation of its input |
| `ScoreStore.SliceEnd` | js/storage/games-storage.js:56 | `slice(0, limit)` stops at min(limit, n) for non-negative limits, and counts from the end for negative ones |
| `ScoreStore.TopOfSorted` | js/storage/games-storage.js:54-56 | the cut keeps a sorted sub-multiset of at most `limit` entries, all of them when fewer; nothing left out beats anything kept |
| `ScoreStore.HighScore` | js/storage/games-storage.js:66 | `Math.max` over the scores is at least every score and equals one of them |
| `ScoreStore.GameStats` | js/storage/games-storage.js:64-69 | played count is the list length; high score is the maximum; the average times the count is the score sum; last played is the last entry's timestamp |
| `ScoreStore.GameStorage.constructor` | js/storage/games-storage.js:2-11 | an empty log |
| `ScoreStore.GameStorage.SaveScore` | js/storage/games-storage.js:13-30 | the log becomes the log with that one entry appended for (user, game); no list is ever empty |
| `ScoreStore.GameStorage.GetUserScores` | js/storage/games-storage.js:32-35 | the user's stored games, or an empty map for an unknown user |
| `ScoreStore.GameStorage.CollectEntries` | js/storage/games-storage.js:41-51 | the gathered list holds every stored entry of the game, tagged with its owner, each exactly as often as it is stored |
| `ScoreStore.GameStorage.GetGameHighScores` | js/storage/games-storage.js:37-57 | at most `limit` entries, best first, all drawn from the game's stored entries; complete when shorter than `limit`; no entry left out scores higher than one kept |
| `ScoreStore.GameStorage.GetUserStats` | js/storage/games-storage.js:59-73 | one record per game the user has entries for, each the statistics of that game's list |
| `Auth.SignIn` | js/auth/login.js:40-68 | a blocked name is refused first and nothing changes; an unknown name gets the wrong-password message and no attempt is recorded; a wrong password records exactly one attempt, with the "has been blocked" message iff that attempt blocked the name; success sets session, token and last login and leaves the attempt record as it was; usernames stay unique |
| `Auth.UnknownLooksLikeWrong` | js/auth/login.js:47-58 | an unknown name and a wrong password that does not block get the same message |
| `Auth.FailuresAreCounted` | js/auth/login.js:52-60 | up to five quick wrong passwords leave exactly the attempt record of that run of failures, one attempt per sign-in, and do not touch the users |
| `Auth.LockedOut` | js/auth/login.js:42-60 | the fifth quick wrong password gets the "has been blocked" message, and for 30 minutes even the right password is refused as blocked without any change |
| `Auth.EmailPattern` | js/auth/register.js:32-35 | the positional email check accepts exactly the strings `/^[^\s@]+@[^\s@]+\.[^\s@]+$/` matches |
| `Auth.EmailShapeMatches` | js/auth/register.js:32 | an email with the required '@' and '.' positions matches the pattern |
| `Auth.PatternHasShape` | js/auth/register.js:32 | a match of the pattern has the '@' and '.' at the expected positions |
| `Auth.Validate` | js/auth/register.js:16-35 | no message iff all four checks pass; otherwise the message of the first failing check, in the order mismatch, short password, short username, bad email |
| `Auth.BoundsAreInclusive` | js/auth/register.js:22-29 | a 6-character password and a 3-character username pass; 5 and 2 characters fail |
| `Auth.SampleEmail` | js/auth/register.js:32-35 | `a@b.co` passes the email check |
| `Auth.SignUp` | js/auth/register.js:15-51 | a failing check stores nothing and shows its message; a taken name stores nothing and shows the store's error; otherwise exactly one user with the stored password is appended and the page redirects; usernames stay unique |
| `Auth.SignUpThenSignIn` | js/auth/register.js:37-49 | after a successful registration, signing in with the stored credential succeeds unless the name is blocked |
| `Auth.RegisteredAtEnd` | js/storage/user-storage.js:33-39 | the new user is the last record, found by its name, holding the stored credential |
| `Auth.SubmitSignIn` | js/auth/login-logic.js:10-34 | the handler's store calls leave the store and the page outcome that `SignIn` describes |
| `Auth.SubmitSignUp` | js/auth/register-logic.js:14-44 | the checks and the `addUser` call leave the users and the outcome that `SignUp` describes |
| `Login.SetCookieReadsBack` | js/auth/login.js:7-23 | the cookie `setCookie(name, value, days)` writes gives `value` back through `getCookie(name)`, for a name, value and expiry date without ';' and a pair without white space at its ends |
| `Login.LookupFindsFirst` | js/auth/login.js:14-23 | the lookup is null iff no segment names the key; otherwise it is the rest of the first segment that does |
| `Login.GetCookie` | js/auth/login.js:14-23 | the early-return loop returns exactly what the first-match lookup gives on the `;`-split segments |
| `Login.OnlyWholeKeys` | js/auth/login.js:18 | a key names `name=` only when it is the name itself, so `named=...` is not read for `name` |
| `Login.LookupSkips` | js/auth/login.js:16-21 | segments that do not name the key are passed over |
| `Login.PairReads` | js/auth/login.js:17-19 | a padded pair `name=value` names the key, and the rest after `name=` is the value, including any further '=' |
| `Login.CookieReadsBack` | js/auth/login.js:7-23 | reading the written cookie string for the name gives the written value, for a name, value and date without ';' and a pair without outer white space |
| `Login.FirstPairWins` | js/auth/login.js:14-21 | in a cookie string the first pair for the name wins; pairs before it that name other keys and all pairs after it do not matter |
| `Login.SplitSegments` | js/auth/login.js:15 | separator-free segments joined with ';' split back into themselves |
| `Login.PairFirst` | js/auth/login.js:16-19 | a padded pair for the name at the front is the one read |
| `Login.Submit` | js/auth/login.js:33-72 | the store and outcome are those of `SignIn` on the hex digest of the password; a cookie is written iff the sign-in succeeds, holding the username for seven days |
| `LoginLogic.Submit` | js/auth/login-logic.js:3-38 | the store and outcome are those of `SignIn` on the typed password, with redirect to the games page |
| `Register.Submit` | js/auth/register.js:5-53 | the users and outcome are those of `SignUp` with the hex digest stored as the password |
| `Register.RegisteredCanSignIn` | js/auth/register.js:38-46 | whoever registers on this page can then sign in on the hashing sign-in page with the same password, unless blocked |
| `RegisterLogic.Submit` | js/auth/register-logic.js:3-48 | the users and outcome are those of `SignUp` with the typed password stored |
| `RegisterLogic.RegisteredCanSignIn` | js/auth/register-logic.js:36-41 | whoever registers on this page can sign in on the plain-text sign-in page, unless blocked |
| `RegisterLogic.PlainRecordRefusedByHashedSignIn` | js/auth/register-logic.js:36-41 | a password stored as typed, unless it has 64 characters, is refused by the hashing sign-in page |
| `Board.FirstWinner` | js/games/game2.js:208-215 | none iff no line from k on is complete; otherwise the owner of the first complete line from k on |
| `Board.CheckGameResult` | js/games/game2.js:206-223 | a win iff some line is complete, by the owner of the first complete line (rows, columns, diagonals), even on a full board; a tie iff no line is complete and no cell is empty; in progress iff no line is complete and some cell is empty |
| `Board.CompletingMoveWins` | js/games/game2.js:206-215 | a move that completes a line on an undecided board wins for its mover |
| `Board.Score` | js/games/game2.js:160-162 | a finished game scores +1 for an O win, -1 for an X win, 0 for a tie |
| `Board.Minimax` | js/games/game2.js:158-185 | the value lies in {-1, 0, 1}; depth plays no part |
| `Board.Scan` | js/games/game2.js:164-184 | the running best is always finite once an empty cell has been seen, so it never stays ±Infinity |
| `Board.BotTakesImmediateWin` | js/games/game2.js:137-155 | when O can complete a line, the move the search picks is worth a win |
| `Search.MinimaxInPlace` | js/games/game2.js:158-185 | the board is handed back exactly as received, and the score is the minimax value of the position |
| `Search.GetBestMove` | js/games/game2.js:137-155 | the board is unchanged; null iff no cell is empty; otherwise an empty cell of maximal value, the lowest index among ties |
| `TicTacToe.OutcomeCode` | js/games/game2.js:198 | the saved code is 1 for an X win, -1 for an O win, 0 for a tie: the negated minimax score |
| `TicTacToe.Count` | js/games/game2.js:241-251 | exactly one of wins, losses and ties goes up by one, the one matching the result |
| `TicTacToe.EmptyFrom` | js/games/game2.js:129-131 | the empty cells from index k on, strictly increasing |
| `TicTacToe.EmptyCells` | js/games/game2.js:129-131 | exactly the empty cells, in increasing order; none iff the board is full |
| `TicTacToe.RandomMove` | js/games/game2.js:128-134 | undefined iff the board is full; otherwise an empty cell |
| `TicTacToe.Game.constructor` | js/games/game2.js:9-20 | an empty board, X to move, the game inactive and a zero tally |
| `TicTacToe.Game.StartGame` | js/games/game2.js:57-67 | a new empty board, X to move, the game active, the tally kept |
| `TicTacToe.Game.ResetBoard` | js/games/game2.js:70-79 | only deactivates the game; the board keeps its marks |
| `TicTacToe.Game.MakeMove` | js/games/game2.js:96-100 | exactly that cell gets the mark and the turn passes to the other player |
| `TicTacToe.Game.UpdateScores` | js/games/game2.js:241-256 | the tally counts the result once |
| `TicTacToe.Game.UpdateGameStorage` | js/games/game2.js:258-262 | the result is appended for the page's user, if any; the difficulty is not stored |
| `TicTacToe.Game.CheckWinner` | js/games/game2.js:188-203 | true iff the board is decided; then the game is deactivated, the result counted once and its code saved; otherwise nothing changes |
| `TicTacToe.Game.HandleCellClick` | js/games/game2.js:82-93 | an inactive game or a taken cell changes nothing; otherwise X goes on exactly that cell, the result is checked, and the bot is scheduled iff the game goes on |
| `TicTacToe.Game.ChooseBotMove` | js/games/game2.js:106-119 | the board is unchanged and the cell is empty; hard (or medium with the coin) picks the best move, easy (or medium without it) the random one |
| `TicTacToe.Game.BotMove` | js/games/game2.js:103-125 | inactive: nothing changes; otherwise O goes on the chosen empty cell, X is to move, and the result is checked, with the game active iff undecided |
| `ObstacleGame.CollidingMeansOverlap` | js/games/game1-logic.js:228-233 | for boxes of positive size, `isColliding` holds iff some point lies strictly inside both, and it is symmetric |
| `ObstacleGame.TouchingDoesNotCollide` | js/games/game1-logic.js:228-233 | boxes that only share an edge do not collide |
| `ObstacleGame.Axis` | js/games/game1-logic.js:156-172 | a position inside [0, max] stays inside and moves by at most one step; with no key held it stays put |
| `ObstacleGame.Placed` | js/games/game1-logic.js:93-94 | a box placed at a random fraction of the free length stays inside the area |
| `ObstacleGame.Fraction` | js/games/game1-logic.js:103 | a random fraction of n lies in [0, n) |
| `ObstacleGame.ObstacleShape` | js/games/game1-logic.js:85-116 | a new obstacle is 30 to 80 pixels wide and high, lies inside an area large enough for it, moves at speed in [1, 1 + level) and heads in [0, 1) of a turn |
| `ObstacleGame.Obstacles` | js/games/game1-logic.js:73-83 | `count` obstacles are built |
| `ObstacleGame.ObstaclesAt` | js/games/game1-logic.js:80-82 | obstacle k is built from the k-th group of random values |
| `ObstacleGame.NewCollectible` | js/games/game1-logic.js:130-150 | a collectible is 20x20 |
| `ObstacleGame.CollectibleInside` | js/games/game1-logic.js:134-136 | a new collectible lies inside an area at least 20 pixels wide and high |
| `ObstacleGame.Collectibles` | js/games/game1-logic.js:118-128 | `count` collectibles are built |
| `ObstacleGame.CollectiblesAt` | js/games/game1-logic.js:125-127 | collectible k is built from the k-th group of random values |
| `ObstacleGame.CollectiblesSized` | js/games/game1-logic.js:143-149 | every collectible built is 20x20 |
| `ObstacleGame.PickupAccounts` | js/games/game1-logic.js:199-214 | every collectible is either touched and counted or kept; what is kept is untouched and was there; nothing touched means nothing removed |
| `ObstacleGame.WholePickups` | js/games/game1-logic.js:207 | adding 10 points per pickup keeps the score a multiple of 10 |
| `ObstacleGame.ScanStep` | js/games/game1-logic.js:199-205 | in the backward scan, entry i is still the original one, and splicing or keeping it gives the list for the suffix from i |
| `ObstacleGame.Game.FieldShape` | js/games/game1-logic.js:73-128 | a field built for the level has 3 + 2·level obstacles and five 20x20 collectibles |
| `ObstacleGame.Game.constructor` | js/games/game1-logic.js:4-54 | score 0, level 1, 60 seconds, not over, no keys, player at the start, a level-1 field, the clock and the frame loop started |
| `ObstacleGame.Game.Init` | js/games/game1-logic.js:37-54 | the player at the start, the field built for the level, the clock set and a frame requested |
| `ObstacleGame.Game.ResetPlayerPosition` | js/games/game1-logic.js:56-63 | the player is centred horizontally, 50 pixels above the bottom |
| `ObstacleGame.Game.HandleKeyDown` | js/games/game1-logic.js:65-67 | the key is held; no other key changes |
| `ObstacleGame.Game.HandleKeyUp` | js/games/game1-logic.js:69-71 | the key is released; no other key changes |
| `ObstacleGame.Game.CreateObstacle` | js/games/game1-logic.js:85-116 | one obstacle from the next group of random values is appended |
| `ObstacleGame.Game.CreateObstacles` | js/games/game1-logic.js:73-83 | the old obstacles are dropped and exactly 3 + 2·level new ones are made |
| `ObstacleGame.Game.CreateCollectible` | js/games/game1-logic.js:130-150 | one collectible from the next group of random values is appended |
| `ObstacleGame.Game.CreateCollectibles` | js/games/game1-logic.js:118-128 | the old collectibles are dropped and exactly five new ones are made |
| `ObstacleGame.Game.LevelUp` | js/games/game1-logic.js:235-240 | the level goes up by one and the field is rebuilt for it |
| `ObstacleGame.Game.CreateField` | js/games/game1-logic.js:282-283 | obstacles, then collectibles, for the current level |
| `ObstacleGame.Game.MovePlayer` | js/games/game1-logic.js:156-175 | the position is the held keys' clamped move by 5·deltaTime on each axis |
| `ObstacleGame.Game.GameOver` | js/games/game1-logic.js:253-265 | the game is over, the clock is stopped, and the score is saved for the signed-in user, if any |
| `ObstacleGame.Game.PickUpKeepsValid` | js/games/game1-logic.js:199-214 | the pickup pass keeps the game's bookkeeping |
| `ObstacleGame.Game.PickUp` | js/games/game1-logic.js:199-214 | 10 points per touched collectible; the untouched ones stay, in order; clearing them all raises the level with a new field, and otherwise level and obstacles are kept |
| `ObstacleGame.Game.HitObstacles` | js/games/game1-logic.js:217-225 | touching any obstacle ends the game and saves the score; otherwise nothing changes |
| `ObstacleGame.Game.CheckCollisions` | js/games/game1-logic.js:197-226 | the pickup pass and then the obstacle pass on the current field; the bookkeeping is kept |
| `ObstacleGame.Game.UpdateTimer` | js/games/game1-logic.js:242-251 | nothing once over; otherwise one second less, the game over iff no time is left, and the score saved exactly then |
| `ObstacleGame.Game.GameLoop` | js/games/game1-logic.js:289-300 | nothing once over; otherwise the move, the collision check and the next frame request |
| `ObstacleGame.Game.Play` | js/games/game1-logic.js:292-299 | the frame's time is recorded, the player moves by the time since the last frame in 16 ms units, collisions are checked, and a next frame is requested |
| `ObstacleGame.Game.AnimationFrame` | js/games/game1-logic.js:289-300 | with no frame pending nothing happens; a pending frame over a finished game is used up and leaves position, score, field and stored scores as they were; a pending frame of a running game moves the player by the elapsed time, applies pick-ups and the obstacle check, and requests the next frame |
| `ObstacleGame.Game.Restart` | js/games/game1-logic.js:267-287 | score 0, level 1, 60 seconds, not over, the clock running, the player at the start and a new field; with no frame pending the game is stalled |
| `ObstacleGame.Game.ResetIsValid` | js/games/game1-logic.js:267-287 | a reset game keeps the bookkeeping |
| `ObstacleGame.Game.RestartAndResume` | js/games/game1-logic.js:267-287 | as restart, and a frame is requested, so the new game is never stalled |
| `ObstacleGame.RestartAfterGameOver` | js/games/game1-logic.js:267-300 | game over, its last frame, then restart as written: the game runs its clock but is stalled |
| `ObstacleGame.ResumeAfterGameOver` | js/games/game1-logic.js:267-300 | the same events with the corrected restart: a frame is pending and the game is not stalled |

## Left out

- Rendering: text content, CSS classes, the overlay, `highlightWinningCombination`, status messages and cell contents are not modelled.
- Local storage and JSON are not modelled; the stored values are class fields.
- Time and identity: `Date.now()` ids, ISO timestamps, `sessionStart` and `lastLogin` strings are all the integer `now`. User ids are not claimed to be unique.
- The cookie expiry date text is a parameter (`utc`). The browser's cookie jar is not modelled: `Login.GetCookie` reads a given cookie string, and writing a cookie is modelled by the string `setCookie` assigns.
- SHA-256 and the UTF-8 encoding by `TextEncoder` are a parameter `digest` (FIPS 180-4 over RFC 3629 UTF-8); only the hex step is modelled.
- `async`/`await` in the handlers is taken as sequential.
- `Math.random` is an oracle. A collectible uses the first two values of a six-value group, and the other four are unused. The medium coin and the random cell are parameters of `BotMove`.
- Key order of `Object.entries` is not modelled: ties in the high-score table may come out in any order, and `ScoreStore.GameStorage.GetGameHighScores` states sortedness, membership, length and the top-N property rather than one fixed list.
- ScoreStore.GameStorage.GetUserStats: requires the store invariant that no stored list is empty. `saveScore` only creates a list by pushing onto it, so the empty-list case (`-Infinity`, `NaN`) cannot arise.
- `updateUser` takes arbitrary fields in the source; `UserStore.UserUpdate` covers the five a user record can be given.
- Tic-tac-toe timer (`updateTimer`, `startTime`, the interval) and the 500 ms delay before the bot replies are not modelled. The click and the bot reply are separate steps, and strict alternation is not promised: during the delay a second X can be placed.
- TicTacToe.Game.BotMove: the difficulty is one of easy, medium and hard, the three values the selector offers. For any other value `move` stays undefined, `undefined !== null` holds, and `makeMove(undefined, 'O')` throws on `cells[undefined]`, so the bot never moves; that path is not modelled. The random move on a full board (null) cannot be reached, since a full board is decided and the game is then inactive.
- `minimax` reads the global board for its terminal check; the model has one board array, passed to both.
- Obstacle motion (`moveObstacles`), bouncing and the trigonometric direction are not modelled: obstacles stay where `createObstacle` placed them, and the heading is kept as a fraction of a turn.
- `deltaTime` comes from the frame timestamps as a real; floating-point rounding is not modelled (positions are reals).
- ScoreStore.GameStats: the average is the exact rational sum divided by count. The source computes a double, so for scores 1, 0, 0 it holds 0.333…33 and not one third; the ensures "average times count is the sum" holds exactly only in the model.
- ScoreStore.TagAll: the owner is tagged with the numeric user id. The source tags each entry with the key `Object.entries` yields, which is a string, so comparing it with `===` to a numeric `user.id` finds no match; the model does not distinguish the two.
- UserStore.UserStorage.RecordLoginAttempt: attempt records are modelled as own keys of the records map. A username that names an Object.prototype member (`toString`, `constructor`, `valueOf`, `__proto__`, and the others in `UserStore.PrototypeMembers`) reaches the inherited member instead; that path is modelled separately (`UserStore.InheritedAttempt`, see Findings), and the class follows the intended own-key behaviour. Writing `count` and `blocked` through `__proto__` onto Object.prototype, which every later record would then inherit, is not modelled.
- UserStore.UserStorage.IsUserBlocked: for a username that names an Object.prototype member the source returns the inherited member's `blocked` property (undefined unless an earlier attempt in the same page set it); that answer is `UserStore.BlockedAsWritten`, not this method.
- The key and button listeners are not modelled; `HandleKeyDown`, `HandleKeyUp` and `Restart` are the events.
- `timerRunning` is a flag, so a second interval set by restarting a running game is not represented.
- ObstacleGame.Game.Play: the frame request is recorded at the start of the frame, not after the move and the collision check; nothing in the frame reads it, so the resulting state is the same.
- The sign-in redirect of `game1-logic.js` (lines 303-307) and the game's construction at load time are not modelled.
- The stale import paths in `js/games/game1-logic.js:1-2` and `js/auth/register-logic.js:1` name files that are not part of this model; the model uses `UserStore` and `ScoreStore`.
- `js/games/game1.js` and `js/pages/gamesPage.js` are not part of this model.

## Findings

| source | as written | input that shows it | evidently intended | confidence | as-written member | corrected member |
|---|---|---|---|---|---|---|
| js/games/game1-logic.js:267-300 | `restart` resets the state and sets the interval again but never calls `requestAnimationFrame`, while `gameLoop` stops asking for frames once `isGameOver` is set | a game ends (obstacle hit or time out), the pending frame fires and sees the game over, then the restart button is clicked: the clock counts down but the player never moves and nothing is picked up or hit | restart also restarts the frame loop, as `init` does | not executed | `ObstacleGame.RestartAfterGameOver` | `ObstacleGame.ResumeAfterGameOver` |
| js/storage/user-storage.js:74-120 | the attempt records are a plain object indexed by username; for a name of an Object.prototype member without an own record, `!attempts[username]` is false, `count++` on undefined gives NaN, `NaN >= 5` is false, and JSON.stringify drops the write | five wrong passwords in quick succession for the username `toString`: the account is never blocked, and sign-in keeps answering that the username or password is wrong | every username is throttled and blocked at the fifth failure, as with an own record (`Object.create(null)` records or a `hasOwnProperty` check) | not executed | `UserStore.LockoutBypassed` | `UserStore.RapidFailuresBlock` |

The registration page `js/auth/register-logic.js` stores the password as typed. The sign-in page `js/auth/login.js` compares stored passwords with a hex digest. An account registered on the first page therefore cannot sign in on the second, unless the password has 64 characters (`RegisterLogic.PlainRecordRefusedByHashedSignIn`). Each pair of pages is consistent on its own (`Register.RegisteredCanSignIn`, `RegisterLogic.RegisteredCanSignIn`).
