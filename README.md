# Chess engine and vision graph, modelled in Dafny

This project models the core of a small chess engine and of the square-vision
graph built from its boards. The engine is `ChessGame.py` and the graph is
`ChessGraph.py`.

- **Pieces.** A `ChessPiece` has a type, a colour, a file, a rank, a move
  counter and a cached list of the moves it may play. These moves are
  `ChessMove` objects that wrap a move string in short algebraic notation.
- **The board.** A `ChessBoard` holds the pieces in insertion order, the
  number of plies played, the log of executed moves, and whether the game
  has ended and who won.
- **Vision.** `getPieceBoardVision` computes the squares a piece sees: pawn
  pushes and captures, sliding rays, knight and king steps, and castling
  squares.
- **Generation.** `computePieceMoves` turns the piece's vision into legal
  move strings. It simulates each move on the board itself and undoes it, so
  that it can reject moves that leave the mover's king in check. It appends
  `+` or `#` after simulating check and mate, adds a file or rank when a
  rival piece of the same type reaches the same square (and rewrites the
  rival's cached move too), and expands pawn moves to the last rank into
  four promotions.
- **Playing a move.** `makeMove` executes a move string for every piece of
  the side to move that has it cached. It then removes what was captured,
  ends the game on a mate, and recomputes the opponent's moves.
- **The graph.** `ChessGraph` has one node per square. Each piece that is
  kept (optionally only one colour's) adds an edge from its square to every
  square it sees.

## How the model is organised

- **`ChessTypes`**: the piece types, keyed by their letter, the two
  colours, and the colour to move by ply parity.
- **`Coordinates`**: conversions between chess notation, matrix and image
  coordinates.
- **`Moves`**: `ChessMove` as a value, and the string functions on move
  strings. These are `reduceMoveString`, `getPieceFinalPosition`,
  `specifyFromPosition` and `fromChessCoordinates`, together with the flags
  that `executeMove` reads.
- **`Position`**: the pure specification of a board as a sequence of
  `PieceState` values. It covers vision, the in-place simulation of a move,
  check and mate, material and space.
- **`Generation`**: the pure specification of `computePieceMoves` over the
  board's move lists, and of `getNMoves`.
- **`Turn`**: the pure specification of `removePiece`, `addPiece`,
  `initializeBoard`, `updateMoves` and `makeMove`. It works on a
  `BoardState` made of positions, move lists, move number, log, end flag and
  winner.
- **`Game`**: the classes `ChessPiece` and `ChessBoard`, whose fields the
  methods update in place. Each method is proved against the specification
  functions above. A simulation really moves and removes pieces of the
  `pieces` sequence and puts them back, and its contract says that
  afterwards the board is exactly as before.
- **`Graph`**: the pure graph state and the `ChessGraph` class.

## Source behaviour the model reproduces

The model follows the code as written, including these behaviours, which
look unintended:

- `Position.PawnSights` never produces an en passant square. The engine
  looks the neighbouring pawn up by matrix indices (`ChessGame.py:731-740`, 794-803),
  while `getPieceAtPosition` compares square names, so the lookup never
  finds a piece. A double push checks only its landing square, not the
  square it passes over. The en passant branch of `makeMove`
  (`ChessGame.py:1276-1281`) is also unreachable: after `executeMove` the
  mover stands on the target square. `Turn.TakerStandsOnTarget` states
  this, and the model records every capture on the target square.
- `Generation.CheckStep` (the branch for a side in check) and
  `Generation.CastleMove` never append `+`, only `#`. The engine tests the
  empty `check` string there instead of the check condition
  (`ChessGame.py:316`, 344, 358). `Generation.Suffixes` takes this as its
  `plus` argument.
- `Position.ShortCastleOpen` and `Position.LongCastleOpen` check that the
  corner piece is of the king's colour and has never moved. Like the engine
  (`ChessGame.py:1187-1198`), they do not check that it is a rook.
- `Position.EnemyKingInCheckAfter` looks for the first enemy king, and on
  the square it stood on before the simulated move
  (`ChessGame.py:567-574`).
- `Position.KingInCheck` looks for the last king of the colour
  (`ChessGame.py:530-535`).
- `Position.Captured` never takes a king: the simulation removes an enemy
  piece on the destination only when it is not a king
  (`ChessGame.py:521-524`).
- Pieces compare by value: type, colour, file and rank, not the move
  counter (`ChessGame.py:222-223`). `Position.SamePiece` is that equality.

## Model

| member | source | states |
|---|---|---|
| ChessTypes.FromLetter | ChessGame.py:33-39 | Looking a type up by a string yields a type whose letter is that string, and it succeeds for every string that is some type's letter. |
| ChessTypes.FromLetterOfLetter | ChessGame.py:33-39 | Every piece type looks back up to itself from its letter. |
| ChessTypes.ColorOfPly | ChessGame.py:1259 | The side to move is white exactly when the ply number is even. |
| ChessTypes.PieceLettersAreLetters | ChessGame.py:118 | The letters `specifyFromPosition` tests for are exactly the letters of the non-pawn piece types. |
| Coordinates.FileIndex | ChessGame.py:56-62 | The file search yields -1 exactly for a character that is not a file a-h; otherwise it yields the column that names the file. |
| Coordinates.MatrixCoordinates | ChessGame.py:51-67 | The row is 8 minus the rank digit and the column is the file's index; a board square lands inside the 8x8 matrix. |
| Coordinates.GetMatrixCoordinates | ChessGame.py:51-67 | The loop over the file names finds the file's column, or -1 exactly when the file is not a-h, and the result agrees with `MatrixCoordinates`. |
| Coordinates.ChessNotationCoordinates | ChessGame.py:69-75 | Matrix coordinates inside the board name a board square. |
| Coordinates.MatrixRoundTrip | ChessGame.py:51-75 | Square to matrix coordinates and back is the identity on board squares. |
| Coordinates.NotationRoundTrip | ChessGame.py:51-75 | Matrix coordinates to square and back is the identity on the 8x8 matrix. |
| Coordinates.GetImageCoordinates | ChessGame.py:77-87 | The image row is the rank digit minus 1, and the column is the file's index or -1 exactly for a non-file. |
| Coordinates.ImageMirrorsMatrix | ChessGame.py:77-87 | The image row is the matrix row mirrored (7 minus it), in the same column. |
| Moves.ReduceMoveString | ChessGame.py:124-129 | The loop deletes every special symbol (`x`, `+`, `#`, `=` and the letters N, Q, K, R, B), so none remains, and it agrees with `Reduce`. |
| Moves.ReducedAssembled | ChessGame.py:101-114 | A move built from well-formed parts reduces to its from-file, from-rank and destination, after the pawn's file if it has one: the piece letter, the capture and check markers and the promotion are all deleted. |
| Moves.FinalPositionRoundTrip | ChessGame.py:101-114 | A non-castle move built from parts has the destination it was built with as its final position. |
| Moves.FlagsOfAssembledMove | ChessGame.py:93-114 | A built move is a capture, check or mate exactly when it was built with `x`, `+` or `#`, and it holds `=` exactly when it is a promotion. |
| Moves.FlagsOfCastleMove | ChessGame.py:101-114 | A castle move is never a capture, its check and mate flags are its suffixes, and it reduces to `O-O` or `O-O-O`. |
| Moves.PromotionRoundTrip | ChessGame.py:163-168 | The promotion letter `executeMove` reads back from a built promotion is the one it was built with. |
| Moves.SpecifyKeepsMarkers | ChessGame.py:117-119 | Inserting a file and rank after a leading piece letter puts them in front of the reduced string and keeps the capture, check, mate and promotion markers. |
| Moves.SpecifyKeepsDestination | ChessGame.py:117-119 | Inserting a file and rank keeps the move's final position. |
| Moves.SpecifyKeepsPromotion | ChessGame.py:117-119 | Inserting a file and rank keeps the promotion letter. |
| Position.PieceAt | ChessGame.py:508-513 | The first piece on a square, or none exactly when the square is empty. |
| Position.CellIsNotation | ChessGame.py:69-75 | The square the vision emits for a matrix cell is the one `getChessNotationCoordinates` gives. |
| Position.Vision | ChessGame.py:671-1199 | Every square a piece sees is on the board. |
| Position.PawnSights | ChessGame.py:683-810 | The squares a pawn sees are on the board. |
| Position.CastleSights | ChessGame.py:1187-1198 | A king sees g on its rank exactly when `ShortCastleOpen` holds and c exactly when `LongCastleOpen` holds, and no other castling square; neither is a capture. |
| Position.RayIsShaped | ChessGame.py:811-888 | One sliding ray emits the board cells in its direction in order: empty squares (not captures) up to the first occupied one, which is emitted as a capture exactly when its first piece is an enemy, and nothing after it. |
| Position.SlidingVision | ChessGame.py:811-1123 | The vision of a bishop, rook or queen is the concatenation of one such shaped ray per direction. |
| Position.SeenUpToMeans | ChessGame.py:536-548 | The scan over the pieces finds the square seen exactly when some piece of the side asked about sees it. |
| Position.Captured | ChessGame.py:521-524 | The piece a simulation removes stands on the destination, is of the other colour and is not a king. |
| Position.CaptureIndex | ChessGame.py:521-524 | The index the simulation removes is -1 exactly when nothing is captured, and otherwise it is the captured piece. |
| Position.Simulated | ChessGame.py:515-528 | A simulated move keeps every piece on the board. |
| Position.SimulatedKeepsKing | ChessGame.py:519-535 | A simulated move keeps every king when the moving piece stays a king, so the king lookup after it succeeds whenever the king was there. |
| Position.LastKing | ChessGame.py:530-535 | The king lookup returns the last king of the colour, or none exactly when there is no king of the colour. |
| Position.FirstKing | ChessGame.py:567-574 | The enemy-king lookup returns the first king of the colour, or none exactly when there is no king of the colour. |
| Position.EscapeAmongMeans | ChessGame.py:640-651 | The scan of a reply's squares finds an escape exactly when one of those squares leaves its king out of check. |
| Position.MaterialIsDifference | ChessGame.py:447-469 | Material is white's piece values minus black's. |
| Position.MaterialColorSwap | ChessGame.py:447-469 | Swapping the colours of every piece negates the material. |
| Position.SightSquaresIn | ChessGame.py:478-488 | A square registered for space lies on one of the enemy half's ranks and is seen by the piece. |
| Position.SpaceInEnemyHalf | ChessGame.py:471-490 | Every square counted as space is a board square in the enemy half. |
| Position.ExecutedState | ChessGame.py:131-181 | Executing a move increases the piece's move counter by one and keeps its colour. |
| Position.ExecutedPlacement | ChessGame.py:145-178 | A castle puts the king on g (c) and the rook on f (d) of their own rank and leaves any other piece where it is; a promotion turns the piece into the type its letter names on the final square; any other move keeps the type and lands on the final square. |
| Position.ExecutedOnBoard | ChessGame.py:131-189 | Executing a well-formed move leaves the piece on a board square. |
| Position.WellFormedIsExecutable | ChessGame.py:131-181 | Every move the generator can produce can be executed. |
| Generation.AddTo | ChessGame.py:238-240 | Adding a move keeps the old list as a prefix, and the new list holds exactly the old moves and the new one. |
| Generation.NoMovesMeans | ChessGame.py:1319-1325 | The number of moves of a colour is zero exactly when every piece of that colour has an empty list. |
| Generation.MoveToFrom | ChessGame.py:1206-1210 | The search returns the first cached move ending on the square, or none exactly when no move ends there. |
| Generation.SharedFrom | ChessGame.py:1201-1211 | A rival found is another piece of the same colour and type with a cached move ending on the square. |
| Generation.SharedFromNone | ChessGame.py:1201-1211 | No rival is found exactly when no rival has a cached move ending on the square. |
| Generation.SharedFromFirst | ChessGame.py:1201-1211 | The rival found is the first one in board order that reaches the square. |
| Generation.RivalMarks | ChessGame.py:394-404 | The rival's rewritten move gets exactly one of its file or its rank. |
| Generation.Disambiguate | ChessGame.py:391-411 | Disambiguation keeps the mover's own list and gives the mover's move only its own file or rank. |
| Generation.Suffixes | ChessGame.py:296-318 | A move gets `#` exactly when it mates, and `+` exactly when it checks without mating and the branch appends `+`. |
| Generation.PlainMove | ChessGame.py:412-434 | A generated move is well formed and its final position is the destination. |
| Generation.PromotionMove | ChessGame.py:365-389 | A promotion is well formed, ends on the destination and carries the chosen letter. |
| Generation.Promotions | ChessGame.py:374-389 | A pawn reaching the last rank gets the four promotions Q, R, B, N, in that order, all ending on the destination. |
| Generation.CastleMove | ChessGame.py:333-363 | A castle move is well formed and reduces to `O-O` on the king's side or `O-O-O` on the queen's side. |
| Generation.CastleRookPresent | ChessGame.py:336-363 | When the king sees a castling square, a piece of its colour stands in the corner of its rank, so the rook lookup succeeds. |
| Generation.IllegalStepKeeps | ChessGame.py:332-410 | A move that leaves the mover's king in check adds nothing. |
| Generation.CastleStepIs | ChessGame.py:333-363 | A legal castle adds the same `O-O` (or `O-O-O`) move to the king's list and to that of the king's own piece on the h- (or a-) file of its rank, a different piece; no other list changes. |
| Generation.PromotionStepIs | ChessGame.py:365-389 | A legal pawn move to the last rank outside check adds exactly the promotions to Q, R, B and N ending on that square, without disambiguation, to the pawn's list; no other list changes. |
| Generation.PlainStepIs | ChessGame.py:391-434 | Any other legal move adds one move ending on the square, marked at most with the mover's own file and rank, to the mover's list; besides it, at most one list changes, a rival's of the same type and colour, and only in moves that ended on the same square. |
| Generation.AddAllSound | ChessGame.py:374-389 | The append-if-absent loop keeps every old move and adds only moves from the new list. |
| Generation.AddAllComplete | ChessGame.py:374-389 | The append-if-absent loop adds every move of the new list. |
| Generation.StepSound | ChessGame.py:252-435 | A move one square adds is legal and answers that square: a castle for a castling square outside check, otherwise a move ending on it. |
| Generation.StepAnswers | ChessGame.py:252-435 | Every legal square of the vision gets a move that answers it. |
| Generation.GeneratedMoves | ChessGame.py:245-435 | Generation is sound and complete. Each new move answers a legal square of the vision, and each legal square of the vision is answered by some move. |
| Generation.GeneratedOnSide | ChessGame.py:245-435 | Generating one piece's moves never changes the lists of the other colour's pieces. |
| Generation.AssembledWellFormed | ChessGame.py:101-114 | A move built the way the generator builds it is well formed. |
| Generation.SpecifiedWellFormed | ChessGame.py:117-119 | Rewriting a move with a file and rank keeps it well formed. |
| Turn.RecomputedKeepsOthers | ChessGame.py:1308-1314 | Recomputing the lists of some colours leaves the other colours' lists unchanged. |
| Turn.MateLeavesNoMoves | ChessGame.py:248-249 | After a mate, every recomputed piece has an empty list. |
| Turn.RecomputedIgnoresStaleLists | ChessGame.py:1248-1254 | Recomputing both colours gives the same lists, whatever lists were cached before. |
| Turn.FirstPieceAt | ChessGame.py:1214-1218 | The search returns the first piece of the colour on the square, or none exactly when there is none. |
| Turn.RemovedCount | ChessGame.py:1214-1218 | Removing a piece takes away exactly one of the matching pieces, if there is one, and otherwise changes nothing. |
| Turn.RemovedAllKeepsColor | ChessGame.py:1288-1290 | Removing captured pieces of one colour leaves the other colour's pieces exactly as they were. |
| Turn.Added | ChessGame.py:666-669 | Adding a piece keeps the board as a prefix, and afterwards the piece is on the board. |
| Turn.AddedAllContains | ChessGame.py:666-669 | Adding a sequence of pieces keeps the board as a prefix, and afterwards each of the pieces is on the board. |
| Turn.AddedAllAppends | ChessGame.py:666-669 | Pieces that are distinct and not on the board yet are appended in order. |
| Turn.InitialPlacementsDistinct | ChessGame.py:1221-1244 | The initial set-up places 32 pairwise distinct pieces. |
| Turn.SetupHasKings | ChessGame.py:1221-1244 | After the set-up both colours have a king. |
| Turn.SetupFromEmpty | ChessGame.py:1221-1244 | On an empty board the set-up yields exactly the 32 initial pieces, in the engine's order. |
| Turn.MatchCount | ChessGame.py:1265-1269 | No piece executes the move exactly when no piece of the side to move has it cached. |
| Turn.ExecutedKeepsOpponent | ChessGame.py:1265-1286 | Executing the move leaves every piece of the opponent unchanged. |
| Turn.TalliedMatch | ChessGame.py:1269-1286 | Each matching piece adds one to the count, records the move's final square against the opponent when the move takes, and sets check and mate to the move's flags. |
| Turn.LoggedOnce | ChessGame.py:1271-1272 | With the log in step with the ply number, any number of matches logs the move exactly once. |
| Turn.TakenSquares | ChessGame.py:1273-1284 | Every capture is recorded against the opponent's colour. |
| Turn.TakerStandsOnTarget | ChessGame.py:1273-1284 | After executing a capture the piece stands on the captured square, so the en passant branch never fires. |
| Turn.PlayedRejects | ChessGame.py:1292-1297 | A move is rejected exactly when no piece of the side to move has it cached. A rejection changes nothing and reports that the game is over exactly when it is. |
| Turn.PlayedAdvances | ChessGame.py:1298-1316 | A move made passes the turn to the other side. The game ends when it ended before or the move mates, and then the mover is the winner. |
| Turn.PlayedLogsOnce | ChessGame.py:1271-1272 | A move that gets past the match is appended to the log exactly once, keeping the log in step with the ply number. |
| Turn.PlayedKeepsMover | ChessGame.py:1288-1290 | The side that moved loses no piece to the captures: its pieces are those it had after executing the move. |
| Turn.MatedSideHasNoMoves | ChessGame.py:1299-1314 | After a mating move the mated side has no move at all. |
| Turn.Played | ChessGame.py:1258-1316 | Playing a move keeps the board consistent: lists in step with pieces, every piece on the board and every cached move well formed. |
| Turn.Finished | ChessGame.py:1299-1316 | The end of `makeMove` keeps the board consistent. |
| Game.ChessPiece.constructor | ChessGame.py:197-205 | A new piece has the given type, colour and square, move counter 0 and no moves. |
| Game.ChessPiece.SetPosition | ChessGame.py:225-227 | Only the file and rank change. |
| Game.ChessPiece.SetPieceType | ChessGame.py:229-230 | Only the type changes. |
| Game.ChessPiece.IncreaseMoveCounter | ChessGame.py:235-236 | Only the move counter changes, by one. |
| Game.ChessPiece.AddMove | ChessGame.py:238-240 | The move is appended unless an equal move is already cached, and the list stays free of duplicates. |
| Game.ChessPiece.ResetPieceMoves | ChessGame.py:242-243 | The move list becomes empty. |
| Game.ChessPiece.SpecifyMove | ChessGame.py:117-119 | Only the j-th cached move is rewritten, with the file and rank inserted. |
| Game.ChessPiece.ComputePieceMoves | ChessGame.py:245-435 | The board's move lists become `Generated` of the old ones, so they are sound, complete and confined to the mover's side. The board's pieces and position are restored after every simulation. |
| Game.ChessPiece.ComputeSquare | ChessGame.py:332-435 | One square of the vision outside check updates the lists as `NormalStep` says. |
| Game.ChessPiece.ComputeSquareInCheck | ChessGame.py:252-320 | One square of the vision in check updates the lists as `CheckStep` says. |
| Game.ChessPiece.CheckAfterMove | ChessGame.py:332 | The simulation reports check exactly when the move is not legal, and the board is restored. |
| Game.ChessPiece.AddCastle | ChessGame.py:333-363 | The castle move goes to both the rook's list and the king's. |
| Game.ChessPiece.AddPromotions | ChessGame.py:365-389 | The four promotions are added to the pawn's list. |
| Game.ChessPiece.AddDisambiguatedMove | ChessGame.py:391-434 | The rival's move is rewritten and the mover's disambiguated move is added. |
| Game.ChessPiece.Disambiguation | ChessGame.py:394-410 | The marks and rewritten lists are those of `Disambiguate`. |
| Game.ChessBoard.constructor | ChessGame.py:439-445 | A new board has no pieces, ply 0, an empty log, and no ended game or winner. |
| Game.ChessBoard.IsOccupied | ChessGame.py:494-499 | True exactly when some piece stands on the square; the board is unchanged. |
| Game.ChessBoard.IsOccupiedByEnemyPiece | ChessGame.py:501-506 | True exactly when a piece of the given colour stands on the square. |
| Game.ChessBoard.GetPieceAtPosition | ChessGame.py:508-513 | Returns the first piece on the square, or null exactly when the square is empty. |
| Game.ChessBoard.GetPieceBoardVision | ChessGame.py:671-1199 | The squares computed are those of `Vision` of the current position, all on the board. |
| Game.ChessBoard.IsKingInCheckAfterMoving | ChessGame.py:515-559 | The result is whether the mover's king is in check after the simulated move, and the board is restored exactly. |
| Game.ChessBoard.IsEnemyKingInCheckAfterMoving | ChessGame.py:562-619 | The result is whether the enemy king is in check after the simulated move, and the board is restored exactly. |
| Game.ChessBoard.IsEnemyKingCheckmatedAfterMove | ChessGame.py:624-663 | The pair is (check, mate) after the simulated move: mate is check with no reply of the enemy that escapes it. The board is restored exactly. |
| Game.ChessBoard.AnyEscape | ChessGame.py:640-651 | True exactly when some enemy piece has a reply that leaves its king out of check; the board is restored. |
| Game.ChessBoard.IsDestinationSquareShared | ChessGame.py:1201-1211 | Returns the first rival with a cached move ending on the square, as `SharedFrom` says. |
| Game.ChessBoard.GetMaterial | ChessGame.py:447-469 | Returns the material, white's piece values minus black's. |
| Game.ChessBoard.GetSpace | ChessGame.py:471-490 | Returns the number of distinct squares in the enemy half that the colour's pieces see. |
| Game.ChessBoard.GetNMoves | ChessGame.py:1319-1325 | Returns the total number of cached moves of the colour's pieces. |
| Game.ChessBoard.AddPiece | ChessGame.py:666-669 | A new piece with no moves is appended unless an equal piece is on the board. |
| Game.ChessBoard.RemovePiece | ChessGame.py:1214-1218 | The first piece of the colour on the square is removed with its list, as `Removed` says. |
| Game.ChessBoard.ComputeColors | ChessGame.py:1312-1314 | The lists of the chosen colours are regenerated piece by piece. |
| Game.ChessBoard.UpdateMoves | ChessGame.py:1248-1254 | Every list is reset and then recomputed, as `Recomputed` says. |
| Game.ChessBoard.InitializeBoard | ChessGame.py:1221-1246 | The 32 initial pieces are added in the engine's order, and the lists are computed from scratch. |
| Game.ChessBoard.MakeMove | ChessGame.py:1258-1316 | The new board state and the outcome are those of `Played`, so `PlayedRejects`, `PlayedAdvances`, `PlayedLogsOnce`, `PlayedKeepsMover` and `MatedSideHasNoMoves` hold of the method. |
| Game.ChessBoard.ExecuteAll | ChessGame.py:1265-1286 | Every matching piece of the side executes the move, and the tally of captures and flags is that of `Tallied`. |
| Game.ChessBoard.RemoveAll | ChessGame.py:1288-1290 | The recorded captures are removed in order. |
| Game.ChessBoard.FinishMove | ChessGame.py:1292-1316 | The end of `makeMove` is that of `Finished`. |
| Game.ExecuteMove | ChessGame.py:131-181 | Returns the move's capture, check and mate flags, and moves the piece as `ExecutedState` says, which `ExecutedPlacement` spells out. |
| Game.FindMoveEndingOn | ChessGame.py:1206-1210 | Returns the first cached move ending on the square, as `MoveToFrom` says. |
| Graph.SquareIdInjective | ChessGraph.py:9 | Two squares have the same identifier exactly when they are the same square. |
| Graph.ConnectRoundTrip | ChessGraph.py:6-23 | A connection's from- and to-squares read back the squares it was made from. |
| Graph.IdInjective | ChessGraph.py:28-37 | Two nodes have the same identifier exactly when they are equal. |
| Graph.SquareNodes | ChessGraph.py:52-56 | There are 64 square nodes. |
| Graph.SquareNodesDistinct | ChessGraph.py:52-56 | The square nodes are pairwise distinct. |
| Graph.SquareNodesCover | ChessGraph.py:52-56 | A node is a square node exactly when it names a board square. |
| Graph.NodeAddedWellFormed | ChessGraph.py:83-86 | Adding a node keeps the graph well formed, keeps the old nodes as a prefix and every key, and afterwards the node is in the graph. |
| Graph.NodesAddedToEmpty | ChessGraph.py:52-56 | Adding distinct nodes to an empty graph yields exactly those nodes, each with an empty list. |
| Graph.SquaresCovered | ChessGraph.py:52-56 | After the square nodes are added, every board square has a node. |
| Graph.ConnectionAddedEdges | ChessGraph.py:100-107 | After a connection is added, an edge exists exactly when it existed before or it is the new one. |
| Graph.ListAddedTargets | ChessGraph.py:105-107 | After a connection is added, a square is a target exactly when it was one before or it is the new connection's. |
| Graph.SightsAddedEdges | ChessGraph.py:64-78 | After one piece's sights are added, an edge exists exactly when it existed before or it runs from the piece's square to a square it sees. |
| Graph.PiecesAddedEdges | ChessGraph.py:58-78 | After the pieces are processed, an edge exists exactly when it existed before or some kept piece sees it. |
| Graph.BuiltFromEmpty | ChessGraph.py:42-80 | The built graph has exactly the 64 square nodes, keyed by their identifiers. |
| Graph.BuiltEdges | ChessGraph.py:48-80 | The built graph has an edge exactly when some kept piece standing on its first square sees its second square. |
| Graph.AllConnectionsLength | ChessGraph.py:140-148 | The list of all connections is as long as the sum of the nodes' degrees. |
| Graph.AllConnectionsMembers | ChessGraph.py:140-148 | A connection is listed exactly when it is in the list of some node. |
| Graph.ChessGraph.constructor | ChessGraph.py:42-46 | A new graph is the one built from the board, from an empty graph. |
| Graph.ChessGraph.CreateGraph | ChessGraph.py:48-80 | The graph becomes the one `Built` gives and stays well formed. |
| Graph.ChessGraph.AddNode | ChessGraph.py:83-86 | The node is added as `NodeAdded` says. |
| Graph.ChessGraph.GetNodeById | ChessGraph.py:88-98 | Returns the node the identifier names when it is in the graph, and none exactly when it is not. |
| Graph.ChessGraph.AddConnection | ChessGraph.py:100-107 | A weight-1 connection is added as `ConnectionAdded` says. |
| Graph.ChessGraph.GetAllConnections | ChessGraph.py:140-148 | Returns the connections of every node in node order. |

## Left out

- PieceImageRenderer (`ChessGame.py:9-31`), `drawBoard` and `drawGraph` are left out. They are drawing code (matplotlib and images).
- `getPieceDescription` (`ChessGame.py:207-220`) is left out. It only formats text.
- `getAverageDegree` (`ChessGraph.py:151-160`) is left out because it divides in floating point. `Graph.TotalDegree` gives the integer sum it divides.
- The `print` calls of `makeMove` are dropped, and so are the numpy and copy imports.
- Files and ranks are modelled as `char`. The engine uses one-character strings and joins them with `+` into square names (`ChessGraph.py:9`, 102). `Graph.SquareId` is that join.
- Turn.Outcome: `GameOver` and `Made` are separate outcomes, where `makeMove` returns nothing for both. `InvalidMove` stands for its -1.
- Game.ChessBoard.IsKingInCheckAfterMoving: requires the mover's king after the simulation. Without one, the engine raises (`ChessGame.py:530-535`) after it has already moved and removed pieces, and it never restores the board. The model does not follow the board into that state.
- Game.ChessBoard.IsEnemyKingInCheckAfterMoving: requires an enemy king. Without one, the engine raises at `ChessGame.py:567-574`.
- Game.ChessBoard.IsEnemyKingCheckmatedAfterMove: requires an enemy king, for the same reason.
- Game.ChessPiece.AddPromotions: requires an enemy king, because the engine's check simulation raises without one.
- Game.ChessPiece.ComputePieceMoves: requires both kings unless the side is mated. A simulation without a king raises in the engine.
- Game.ChessBoard.UpdateMoves: requires both kings unless the side is mated, for the same reason.
- Game.ChessBoard.ComputeColors: requires both kings unless the side is mated, for the same reason.
- Turn.Finished: when a king is missing and the move does not mate, the model returns `KingMissing` at once. It leaves the opponent's lists and the move number as they are. The engine first resets the opponent's lists. It then raises only if a recomputed piece reaches a simulation that looks the king up, and otherwise finishes and advances the move number. The model does not prove that both kings stay on the board from `initializeBoard` on.
- Game.ChessBoard.FinishMove: follows `Turn.Finished`, so the same divergence applies.
- Coordinates.Digit: requires a digit, where `int(rank)` raises on anything else.
- Coordinates.MatrixCoordinates: requires a digit rank, where the engine raises on anything else.
- Coordinates.GetMatrixCoordinates: requires a digit rank, for the same reason.
- Coordinates.ImageCoordinates: requires a digit rank, for the same reason.
- Coordinates.GetImageCoordinates: requires a digit rank, for the same reason.
- Coordinates.ChessNotationCoordinates: requires indices Python accepts, where the engine raises `IndexError` outside them.
- Moves.FinalPosition: requires a reduced string of at least two characters, where the engine raises `IndexError` on a shorter one.
- Moves.SpecifyFromPosition: requires a non-empty move string, where the engine raises `IndexError` on "".
- Graph.ChessGraph.GetNodeById: requires an identifier of at least two characters, where the engine raises `IndexError`. It returns none where the engine returns -1.
- Graph.ChessGraph.AddConnection: requires the from-square to be a node, where the engine raises `KeyError`.
- ChessTypes.FromLetter: returns none where `PieceType(v)` raises `ValueError`.
- The colour fields of `ChessBoard` that only drawing reads are not modelled.
- Game.ChessBoard.Valid: does not include that each piece's move list is free of duplicates. `Game.ChessPiece.AddMove` keeps a list duplicate-free, but `specifyFromPosition` rewrites a rival's cached move in place (`ChessGame.py:392-405`), and the model does not prove that the rewritten move differs from the rival's other moves.
