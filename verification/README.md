# chessrecast: rules engine, search and admission control

A Dafny model of the parts of chessrecast where a mistake is hard to see:

- the native engine's mutable board, with its redundant views of one position and its undo stack, under
  eight rule sets ("mods"): Classic, King's Battle, Truce, Friendly Fire, Save the Queen, Heir, Succession
  and Mercenary;
- move generation, legality and attack detection, against declarative rules;
- the search: fail-soft principal-variation search with quiescence, aspiration windows, static exchange
  evaluation, move ordering and history;
- the FEN printer and parser (section 16.1 of the PGN Standard);
- three time-driven services in Go: the request-replay cache, the token bucket and spectator admission.

Nothing was executed: every statement is proved by the Dafny verifier. `dafny verify dfyconfig.toml` checks
all of it.

## How it is laid out

| files | content |
|---|---|
| `Types`, `Bitboards`, `Position` | squares, moves and their encoding, bitboards as sets of squares, a position as a value |
| `Attacks`, `AttackTables`, `AttackLookup` | forward attacks, the table and ray loops, the reverse lookup |
| `Making`, `Board` | make and unmake as functions on values, and the class that does them in place |
| `Rules`, `MoveLists`, `Captures`, `Legality`, `MoveCount` | the rules stated declaratively, the generator's lists in order, why they agree, and when none is lost |
| `Generation`, `LegalGeneration` | the generator's loops on the board |
| `MoveMeaning`, `FlagLaws`, `HashLaws`, `MovementLaws`, `CastlingLaws`, `KingSafety` | what moves, hashes, captures, castling and legality mean, told from the men on the board |
| `Reachable`, `Runs`, `HeirRuns`, `Totals` | the reachable-state invariant, runs, nested make/unmake, Heir's surviving rights, weighted counts |
| `KingsBattle`, `TruceRuns`, `SaveQueenRuns`, `Start` | whole-run results of three mods, and from the start position |
| `Exchange`, `See`, `ExchangeOrder` | the swap list in the abstract and on the board, and who captures when |
| `GameValue`, `Windows`, `MoveOrder`, `History`, `Search`, `Root` | the minimax value and the search that computes it |
| `Verdicts`, `Endings` | what mate, stalemate, repetition and the mods' endings are worth |
| `PrunedSearch` | the search as run, with every heuristic a free choice: what none of them may break |
| `Decimals`, `Fen`, `FenBoard`, `StandardText` | the text as functions, and the buffer writer and index-driven reader |
| `Replay`, `RateLimit`, `Spectators` | the Go services |

State that the source updates in place is a class whose methods are proved against a function of the old
state; the results are about those functions. Bitboards are sets of squares and 64-bit words are sets of bit
positions, with xor as symmetric difference.

## What became a parameter

- The clock: each call is given its time. The replay model takes two, when the clock was read and when the
  lock was taken.
- The Zobrist keys, the static evaluation and the variant heuristics: any tables and any functions, with the
  evaluation at least 500 below the mate score. Scores that only order moves are chosen arbitrarily.
- The signature scheme: any relation in which one signature verifies one text.

Floating-point tokens are reals.

## Not true of the code as it stands

- Taking a king in Heir leaves its castling rights, so castling can later be generated for a king that is
  not there, and the unmake of that one move does not undo it (`HeirRuns.HeirLosesSoundness`). The exact
  conditions are `Reachable.SoundKeptExactly`, `Reachable.UnmakeExact` and `Runs.RunSoundExactly`. A whole walk
  from a sound position restores position, hash and stack all the same (`HeirRuns.SoundTourIsIdentity`), because
  unmaking the capture of the king puts its square right; vouching for every move is sufficient and not
  necessary (`HeirRuns.HeirHeals`). On the way, though, an unmake can put a man on a taken square
  (`HeirRuns.HeirOverwrites`), which leaves stale bits in the bitboards. The results on the board's redundant
  views, and so those on the search, therefore ask that a Heir position has no castling rights.
- A truce move can disturb a man that has moved: castling with a marked rook (`TruceRuns.MarkedRookMoves`),
  or, with a second king on the board, with a marked king (`TruceRuns.SecondKingCastles`).
  `TruceRuns.MarkedStayExactly` and `TruceRuns.TruceStep` give the exact conditions. Neither can arise from
  the start position (`Start.TruceFromStart`), and a truce is finite all the same (`TruceRuns.TruceBounded`).
- The early stop of the exchange evaluation keeps the sign of the result, not the value:
  `See.EarlyStopChangesValue` shows a position, `See.SeeExactly` the exact condition.
- A list holds 256 moves and drops the rest in silence. `MoveCount.LegalMoveDropped` shows a position that
  loses a legal move; `MoveCount.DropsNothingExactly` and `MoveCount.LegalCompleteExactly` are exact.

## Model

| member | source | states |
|---|---|---|
| `Types.EncodeRoundTrip` | frontend/native/engine/types.h:83-129 | Decoding an encoded move gives back every field of it, for every move. |
| `Types.EncodeInRange` | frontend/native/engine/types.h:83-129 | An encoded move is never the empty move 0 and fits 24 bits. |
| `Types.LowerCuts` | frontend/native/engine/types.h:83-129 | The lowest twelve bits are origin and target. |
| `Types.UpperCuts` | frontend/native/engine/types.h:83-129 | Above them come mover, captured man, castling, en-passant and promotion bits and the promoted kind, in that order. |
| `Bitboards.PopLsb` | frontend/native/engine/types.h:67-81 | Popping takes the least square of the board, leaves the others, and so walks the squares in ascending order. |
| `Bitboards.Squares` | frontend/native/engine/types.h:67-81 | The pop order lists each square of the board once and no other. |
| `Attacks.SlideSymmetric` | frontend/native/engine/board/board_attacks.c:62-92 | Sliding reach, diagonal and orthogonal, is symmetric for every occupancy. |
| `Attacks.RayMeaning` | frontend/native/engine/board/board_attacks.c:62-92 | A ray loop started k cells out reaches a square iff it is ahead in that direction with nothing strictly between. |
| `AttackTables.BishopAttacks` | frontend/native/engine/board/board_attacks.c:62-76 | The four ray loops compute exactly the squares on a diagonal with nothing strictly between. |
| `AttackTables.RookAttacks` | frontend/native/engine/board/board_attacks.c:78-92 | The four ray loops compute exactly the squares on a row or column with nothing strictly between. |
| `AttackTables.KnightTable` | frontend/native/engine/board/board_attacks.c:14-56 | The jump-list loop yields exactly the squares a knight's step away that are on the board. |
| `AttackTables.KingTable` | frontend/native/engine/board/board_attacks.c:14-56 | The neighbour loops yield exactly the squares a king's step away. |
| `AttackTables.PawnTable` | frontend/native/engine/board/board_attacks.c:14-56 | The pawn entry is exactly the two forward diagonal squares that are on the board. |
| `AttackTables.InitAttacks` | frontend/native/engine/board/board_attacks.c:14-56 | After initialisation every entry of the three tables has its meaning. |
| `AttackLookup.ControlIsHit` | frontend/native/engine/board/board_attacks.c:95-140 | If some man of a side controls a square under the mod's rules, the reverse lookup from that square finds one. |
| `AttackLookup.HitIsControl` | frontend/native/engine/board/board_attacks.c:95-140 | If the reverse lookup finds something, some man of that side does control the square. |
| `AttackLookup.LookupExact` | frontend/native/engine/board/board_attacks.c:95-140 | Reverse lookup and forward control agree for every position, square, side and mod. |
| `AttackLookup.QueensThatCapture` | frontend/native/engine/board/board_attacks.c:95-140 | The bit-pop loop keeps exactly the queens that can capture (Save the Queen: those in their own half). |
| `AttackLookup.SquareAttacked` | frontend/native/engine/board/board_attacks.c:95-140 | The board query answers true iff some man of that side has the square in its forward attack set. |
| `AttackLookup.BoardInCheck` | frontend/native/engine/board/board_attacks.c:142-151 | The check query agrees with the forward definition, including the mods in which check does not apply. |
| `Boards.Board.Place` | frontend/native/engine/board.c:20-26 | Placing on an empty square changes that square alone and keeps mailbox, piece boards and occupancies in agreement. |
| `Boards.Board.Remove` | frontend/native/engine/board.c:28-37 | Removing empties that square alone, does nothing on an empty one, and keeps the views in agreement. |
| `Boards.Board.Clear` | frontend/native/engine/board.c:9-18 | Clearing gives the empty position with an empty stack, from any contents. |
| `Boards.Board.Copy` | frontend/native/engine/movegen.c:9-33 | A copied board has the same value and shares no array with the original. |
| `Boards.Board.Refresh` | frontend/native/engine/board.c:39-48 | From correct piece boards alone, refreshing restores the occupancies and the hash. |
| `Boards.Board.ZobristCompute` | frontend/native/engine/board/board_zobrist.c:42-64 | The xor loops over popped bits compute the hash of the abstract position. |
| `Boards.Board.TakeCaptured` | frontend/native/engine/board/board_make.c:34-63 | Takes off the right man (en passant: the pawn behind), re-imprisons a queen when due, and records both for undo. |
| `Boards.Board.CarryMen` | frontend/native/engine/board/board_make.c:65-98 | Moves the man, promotes it, carries a castling rook, and sets a side's heir flag when a pawn becomes king. |
| `Boards.Board.Track` | frontend/native/engine/board/board_make.c:100-134 | Marks follow the mover and a castling rook, and leave the vacated squares. |
| `Boards.Board.UpdateRights` | frontend/native/engine/board/board_make.c:136-151 | Rights left after the move, king moves and all four corners included. |
| `Boards.Board.UpdatePhase` | frontend/native/engine/board/board_make.c:172-199 | King's Battle unlock, idle-king count, and the bonus-turn flag in the undo record. |
| `Boards.Board.UpdateClocks` | frontend/native/engine/board/board_make.c:153-170 | En-passant square, fifty-move clock and move number after the move. |
| `Boards.Board.MakeMove` | frontend/native/engine/board/board_make.c:7-207 | The in-place make equals the abstract make: all views agree, one record is pushed, and the hash is a fresh recomputation. |
| `Boards.Board.UnmakeMove` | frontend/native/engine/board/board_make.c:209-272 | After a made move, the in-place unmake restores the whole value: position, hash and every record below the popped one. |
| `Boards.Board.MakeNull` | frontend/native/engine/search.c:1319-1325 | Only side, en-passant square and hash change, nothing is pushed, and a right hash stays right in constant time. |
| `Boards.Board.UnmakeNull` | frontend/native/engine/search.c:1329-1331 | Puts back side, en-passant square and hash from saved values, and changes nothing else. |
| `Making.NullMoveHash` | frontend/native/engine/search.c:1319-1331 | Hash of the position after a null move is the old hash xor side key xor en-passant key, for any keys. |
| `Making.PlacementRestored` | frontend/native/engine/board/board_make.c:209-272 | Undoing the placement part of a fitting move gives back all 64 squares. |
| `Making.UnmakeMake` | frontend/native/engine/board/board_make.c:7-272 | Unmake after make is the identity on position, hash and stack for every fitting move in every mod. |
| `MoveMeaning.LandsAsNamed` | frontend/native/engine/board/board_make.c:34-98 | After a fitting move the man it names stands on the target (promoted if it says so), the origin is empty, a pawn taken in passing is gone, a castling rook has passed its king, and a prisoner is back in prison. |
| `MoveMeaning.ElsewhereNothingChanges` | frontend/native/engine/board/board_make.c:34-98 | Every square the move is not about keeps its man, or stays empty. |
| `MoveMeaning.PromotionCounts` | frontend/native/engine/board/board_make.c:65-98 | A promotion to a kind adds one man of it and takes one pawn of the side. |
| `FlagLaws.RightsLastExactly` | frontend/native/engine/board/board_make.c:136-151 | A castling right lasts iff no king of its side moves and its rook's corner is neither left nor entered. |
| `FlagLaws.EpSetExactly` | frontend/native/engine/board/board_make.c:153-160 | The en-passant square is set iff a pawn has gone two squares, and is the one between; never in Mercenary. |
| `FlagLaws.SameTurnExactly` | frontend/native/engine/board/board_make.c:172-203 | The mover moves again iff its king took a pawn in phase 1 of King's Battle. |
| `FlagLaws.ClockCounts` | frontend/native/engine/board/board_make.c:162-170 | Over any game the fifty-move clock is the number of moves since the last pawn move or capture. |
| `FlagLaws.MoveNumberCounts` | frontend/native/engine/board/board_make.c:162-170 | Over any game the move number rises by Black's plies. |
| `FlagLaws.PhaseTwoExactly` | frontend/native/engine/board/board_make.c:172-199 | Over any game phase 2 begins iff a king takes a pawn, a pawn promotes, or six quiet king moves come in a row; until then the idle count is the trailing quiet king moves. |
| `FlagLaws.MarksFollow` | frontend/native/engine/board/board_make.c:119-134 | Friendly Fire marks are exactly the mover's target, a castling rook's, and old marks not vacated or taken in passing. |
| `FlagLaws.UnmarkedNeverMoved` | frontend/native/engine/board/board_make.c:119-134 | In a Friendly Fire game that begins without marks, an unmarked man stands where it stood at the start. |
| `FlagLaws.CrownedExactly` | frontend/native/engine/board/board_make.c:65-98 | Heir and Succession: a side has crowned an heir iff its number of kings has risen at some move. |
| `HashLaws.ManEnters` | frontend/native/engine/board/board_zobrist.c:42-64 | A man put on an empty square changes the hash by its own key, whatever else stands. |
| `HashLaws.SideEnters` | frontend/native/engine/board/board_zobrist.c:42-64 | Passing the turn changes the hash by the side key. |
| `HashLaws.RightsEnter` | frontend/native/engine/board/board_zobrist.c:42-64 | Changing the rights changes the hash by the keys of the old and the new ones. |
| `HashLaws.EpEnters` | frontend/native/engine/board/board_zobrist.c:42-64 | Setting an en-passant square changes the hash by its key. |
| `HashLaws.HeirsEnter` | frontend/native/engine/board/board_zobrist.c:42-64 | Each side's heir flag has a key of its own. |
| `HashLaws.PhasesEnter` | frontend/native/engine/board/board_zobrist.c:42-64 | Truce and unlock flags have a key of their own. |
| `HashLaws.TheRestDoesNot` | frontend/native/engine/board/board_zobrist.c:42-64 | Clocks, marks, idle count and mod do not enter the hash. |
| `HashLaws.BareHash` | frontend/native/engine/board/board_zobrist.c:42-64 | The bare board has the key of its rights alone; with the others this fixes every hash. |
| `MoveLists.InPieceFrom` | frontend/native/engine/movegen/movegen_pieces.c:110-168 | For king, rook, bishop and knight (queen outside Save the Queen), the emitted list holds exactly the moves the rules allow from that square. |
| `MoveLists.InQueenList` | frontend/native/engine/movegen/movegen_pieces.c:45-108 | Save the Queen: escape, crossing and capture moves of a queen are exactly those the rules allow. |
| `MoveLists.InPawnFrom` | frontend/native/engine/movegen/movegen_pawns.c:44-206 | The pawn list from a square holds exactly the pushes, captures, en passant and promotions the rules allow, in each mod. |
| `MoveLists.InMercenaryFrom` | frontend/native/engine/movegen/movegen_pawns.c:61-84 | Mercenary: king-like pawn moves, exactly as the rules allow. |
| `MoveLists.InArrivals` | frontend/native/engine/movegen/movegen_pawns.c:90-127 | On the last rank one move for each piece the mod lets a pawn become, and otherwise one plain move. |
| `MoveLists.InPseudoMoves` | frontend/native/engine/movegen.c:9-33 | The generator's whole list is sound and complete: a move is in it iff the declarative rules allow it, in all eight mods. |
| `MovementLaws.OnlyFairGame` | frontend/native/engine/movegen/movegen_pieces.c:148-168 | Whatever is taken was an enemy that may be taken in the mod, or in Friendly Fire an own moved man; no king takes a king. |
| `MovementLaws.PawnTakesExactly` | frontend/native/engine/movegen/movegen_pawns.c:129-191 | A pawn takes exactly the fair game on its two forward diagonals. |
| `MovementLaws.PassingTakesExactly` | frontend/native/engine/movegen/movegen_pawns.c:193-202 | En passant is listed exactly when an enemy stands beside the pawn and no untakable enemy stands on the square. |
| `MovementLaws.PieceTakesExactly` | frontend/native/engine/movegen/movegen_pieces.c:110-168 | Every other man takes exactly the fair game it reaches, kings sparing kings. |
| `MovementLaws.PawnPushesExactly` | frontend/native/engine/movegen/movegen_pawns.c:90-127 | A pawn goes one square ahead, or two from its second rank, exactly over empty squares. |
| `MovementLaws.LastRankPromotes` | frontend/native/engine/movegen/movegen_pawns.c:90-127 | A pawn promotes exactly on the last rank, to a queen or king only in the mods that allow it. |
| `MovementLaws.HalvesExactly` | frontend/native/engine/types.h:165-178 | A half is the four ranks nearest a side; each prison lies in the other's half. |
| `CastlingLaws.CastlingExactly` | frontend/native/engine/movegen/movegen_pieces.c:176-245 | Castling is listed iff the right is held, nothing stands between king and rook, the king is neither attackable nor crosses an attacked square where check counts, phase 2 has begun, and the first king has not moved in a truce. |
| `CastlingLaws.KnightBlocks` | frontend/native/engine/movegen/movegen_pieces.c:211-216 | A man next to the queen's rook rules castling out. |
| `Captures.CapturesQueen` | frontend/native/engine/movegen/movegen_pieces.c:45-108 | Save the Queen: the captures-only queen list is the capture subsequence of the full one, in order. |
| `Captures.CapturesPiece` | frontend/native/engine/movegen/movegen_pieces.c:7-170 | For each piece the captures-only list is the capture subsequence of the full list, in order. |
| `Captures.CapturesPawn` | frontend/native/engine/movegen/movegen_pawns.c:44-206 | For each pawn, en passant and promotions included, the captures-only list is the capture subsequence, in order. |
| `Captures.CapturesOfPseudoMoves` | frontend/native/engine/movegen.c:35-58 | The captures-only pseudo-moves are exactly the capture subsequence of all pseudo-moves, in all eight mods. |
| `Legality.InKeepLegal` | frontend/native/engine/movegen.c:9-33 | The legality filter keeps a move iff it was in the list and is legal. |
| `Legality.LegalMovesAreLegal` | frontend/native/engine/movegen.c:9-33 | Every generated move is allowed and legal; with at most 256 pseudo-moves no legal move is missing. |
| `KingSafety.LegalExactly` | frontend/native/engine/movegen/movegen_legal.c:7-34 | A generated move is one of the rules after which no enemy man controls the mover's first king where check counts, nor in a truce any own man the other king; with at most 256 pseudo-moves all such moves are generated. |
| `KingSafety.CheckIsExposure` | frontend/native/engine/board/board_attacks.c:142-151 | Being in check is being controlled by an enemy man, outside a truce and in Heir only with an heir crowned or no pawn left. |
| `KingSafety.NeverLeftExposed` | frontend/native/engine/movegen/movegen_legal.c:7-34 | Along any legal game the side that has just moved is not attackable where check counts, and in a truce neither is the other. |
| `KingSafety.PinnedKnightStays` | frontend/native/engine/movegen/movegen_legal.c:7-34 | A pinned knight's move is allowed by the rules of movement and not generated. |
| `MoveCount.PseudoMovesDistinct` | frontend/native/engine/movegen.c:9-33 | The generator lists no move twice, in any mod. |
| `MoveCount.DropsNothingExactly` | frontend/native/engine/types.h:133-143 | Every allowed move survives in the 256-slot list iff there are at most 256 of them. |
| `MoveCount.LegalCompleteExactly` | frontend/native/engine/movegen.c:9-33 | All legal moves are generated iff no pseudo-move past the 256th is legal. |
| `MoveCount.LegalMoveDropped` | frontend/native/engine/types.h:133-143 | A concrete position with at least 288 moves, where a legal move is not generated. |
| `Legality.LegalCapturesExactly` | frontend/native/engine/movegen.c:35-58 | With at most 256 pseudo-moves, the capture generator returns the capture subsequence of the move generator, same order. |
| `Legality.TruceTakesNothing` | frontend/native/engine/movegen/movegen_pieces.c:133-136 | In an active truce no generated move is a capture. |
| `Legality.ClipAppend` | frontend/native/engine/types.h:133-143 | Dropping past 256 after each append is the same as dropping once at the end. |
| `Generation.MoveList.Add` | frontend/native/engine/types.h:133-143 | Appends, or drops the move silently when 256 are held. |
| `Generation.TargetsOf` | frontend/native/engine/movegen/movegen_pieces.c:110-146 | The mask steps of the code compute the specified target set in each mod. |
| `Generation.AddQueenMoves` | frontend/native/engine/movegen/movegen_pieces.c:45-108 | The Save-the-Queen branch appends exactly its specified list. |
| `Generation.AddPieceMoves` | frontend/native/engine/movegen/movegen_pieces.c:7-170 | Per-piece generation appends exactly its specified list. |
| `Generation.SuccessionKinds` | frontend/native/engine/movegen/movegen_pawns.c:7-38 | The kinds offered are those of the rules: a kingless side's last pawn becomes king or nothing, king only on an unattacked square, never a queen. |
| `Generation.HeirKinds` | frontend/native/engine/movegen/movegen_pawns.c:94-109 | The kinds offered are those of the rules: king is forced for a kingless side that has not crowned an heir, and closed to a side that has. |
| `Generation.AddPushes` | frontend/native/engine/movegen/movegen_pawns.c:90-127 | Pushes and double pushes appended as specified. |
| `Generation.AddSideways` | frontend/native/engine/movegen/movegen_pawns.c:129-202 | Captures and en passant on one side appended as specified; an enemy man that may not be taken rules out en passant over it too. |
| `Generation.AddMercenaryMoves` | frontend/native/engine/movegen/movegen_pawns.c:61-84 | Mercenary pawn loop appends exactly its specified list. |
| `Generation.AddPawnMoves` | frontend/native/engine/movegen/movegen_pawns.c:44-206 | Per-pawn generation appends exactly its specified list. |
| `Generation.AddCastlings` | frontend/native/engine/movegen/movegen_pieces.c:176-245 | Castling is offered on exactly the wings the rules allow, safety of the way included where check matters. |
| `LegalGeneration.IsLegal` | frontend/native/engine/movegen/movegen_legal.c:7-34 | Make, test, unmake: answers legality, and the board is the same afterwards. |
| `LegalGeneration.FilterLegal` | frontend/native/engine/movegen.c:9-33 | The filter loop over a mutable copy keeps the legal moves in order. |
| `LegalGeneration.GenerateMoves` | frontend/native/engine/movegen.c:9-33 | Fills the list with the legal moves of the position; board unchanged. |
| `LegalGeneration.GenerateCaptures` | frontend/native/engine/movegen.c:35-58 | Fills the list with the legal captures of the position; board unchanged. |
| `LegalGeneration.HasLegalMoves` | frontend/native/engine/movegen.c:60-64 | True iff there is a legal move. |
| `LegalGeneration.GeneratedFits` | frontend/native/engine/movegen.c:9-58 | Every generated move is well formed for make and unmake: mover on its square, captured field right, quiet target empty. |
| `Reachable.PseudoFits` | frontend/native/engine/board/board_make.c:34-98 | In a sound position every allowed move meets the precondition of make and unmake. |
| `Reachable.UnmakeExact` | frontend/native/engine/board/board_make.c:7-272 | For an allowed move, unmake undoes make iff the castling king and rook are at home and an en-passant target is empty. |
| `Reachable.NoKingTaken` | frontend/native/engine/movegen/movegen_pieces.c:148-168 | Outside Heir no generated move captures a king, not even en passant. |
| `Reachable.EpKept` | frontend/native/engine/board/board_make.c:153-160 | After any allowed move a set en-passant square is empty and has a just double-pushed enemy pawn beyond it. |
| `Reachable.SoundKeptExactly` | frontend/native/engine/board/board_make.c:136-160 | An allowed move keeps rights-imply-home and en-passant soundness iff it does not take a king that still has a right. |
| `Reachable.SoundKept` | frontend/native/engine/board/board_make.c:136-160 | Outside Heir every generated move keeps the reachable-state invariant. |
| `Runs.RunSoundExactly` | frontend/native/engine/board/board_make.c:136-160 | In any mod: every position of a run is sound iff no move of it takes a king that still has a castling right. |
| `Runs.RunStaysPlayable` | frontend/native/engine/board/board_make.c:7-207 | Outside Heir, and in Heir without castling rights, every position of any run is sound. |
| `Runs.TourIsIdentity` | frontend/native/engine/movegen/movegen_legal.c:7-34 | From any position, sound or not, a nested tree of makes and unmakes is the identity if each move's castling men are at home and its en-passant target is empty. |
| `HeirRuns.SoundTourIsIdentity` | frontend/native/engine/movegen/movegen_legal.c:7-34 | From any sound position of any mod, a properly nested tree of makes and unmakes of generated moves leaves position, hash and stack as they were, even where an inner unmake goes wrong. |
| `HeirRuns.SoundSearchIsIdentity` | frontend/native/engine/movegen.c:9-33 | The same for a walk that generates its moves afresh in whatever state it has reached, conjured kings included. |
| `HeirRuns.LooseKept` | frontend/native/engine/board/board_make.c:136-160 | In Heir every move keeps each right's rook at home, and its king unless a move has landed there. |
| `HeirRuns.UnmakeHeals` | frontend/native/engine/board/board_make.c:209-272 | Unmaking a move of a Heir position puts back every square but kings' homes that were stranded before it, the square it landed on included. |
| `HeirRuns.HeirLosesSoundness` | frontend/native/engine/board/board_make.c:136-151 | A concrete Heir position: taking the king keeps its right, castling is then allowed and legal with no king, and the one unmake does not undo it. |
| `HeirRuns.HeirHeals` | frontend/native/engine/board/board_make.c:209-272 | The walk that takes the king, castles without it and unmakes both is not vouched for and still ends where it began. |
| `HeirRuns.HeirOverwrites` | frontend/native/engine/board/board_make.c:209-272 | A concrete legal line after which an unmake puts a man back on a square that a conjured king holds. |
| `KingsBattleRuns.Phase1Descends` | frontend/native/engine/board/board_make.c:162-199 | Every allowed move that keeps the game locked strictly lowers 6 * (promotion distances + men) + (5 - idle). |
| `KingsBattleRuns.Phase1Bounded` | frontend/native/engine/board/board_make.c:162-199 | Phase 1 lasts at most as many plies as that measure, which is never above 3077. |
| `KingsBattleRuns.Phase1Shape` | frontend/native/engine/movegen/movegen_pieces.c:12-14 | A move that keeps the game locked is a king or pawn move, no castling or promotion, and pawns come nearer promotion. |
| `KingsBattleRuns.UnlockIsForever` | frontend/native/engine/board/board_make.c:172-199 | Once unlocked, unlocked for the rest of any run. |
| `KingsBattleRuns.Phase1IsSafe` | frontend/native/engine/board/board_make.c:162-203 | Over any locked run every knight, bishop, rook and queen is where it started, and the fifty-move clock is the idle count, at most five. |
| `KingsBattleRuns.AtMostOneBonus` | frontend/native/engine/board/board_make.c:172-203 | In any game at most one ply keeps the same side to move. |
| `KingsBattleRuns.KillUnlocks` | frontend/native/engine/board/board_make.c:172-203 | A ply that keeps the side unlocks the game. |
| `TruceRuns.TruceStep` | frontend/native/engine/board/board_make.c:100-117 | From any frozen mask: each truce move conserves the men, keeps marks on men if they were, and takes those it moves out of the unmarked ones; these shrink iff it moves an unmarked man, which only castling with a second king can fail to do. |
| `TruceRuns.TruceBounded` | frontend/native/engine/board/board_make.c:100-117 | From any sound position and frozen mask a truce run has at most as many plies as unmarked men and castling rights together, and all men survive it. |
| `TruceRuns.TruceBoundedByMen` | frontend/native/engine/board/board_make.c:100-117 | With at most one king a side, a truce run has at most as many plies as unmarked men. |
| `TruceRuns.MarkedStayExactly` | frontend/native/engine/movegen/movegen_pieces.c:185-189 | A truce move leaves every marked man where it stands iff it vacates no marked square; only castling can. |
| `TruceRuns.MarkedRookMoves` | frontend/native/engine/movegen/movegen_pieces.c:185-189 | A concrete legal castling that carries a marked rook. |
| `TruceRuns.SecondKingCastles` | frontend/native/engine/movegen/movegen_pieces.c:185-189 | A concrete legal castling by a marked king with a marked rook, while another king of the side is unmarked. |
| `TruceRuns.NothingMovesTwice` | frontend/native/engine/movegen/movegen_pieces.c:17-18 | With one king a side and no marked rook that may castle, no marked man moves again for the rest of the run. |
| `TruceRuns.KingsConserved` | frontend/native/engine/board/board_make.c:65-98 | No truce move adds a king. |
| `SaveQueenRuns.ReprisonsExactly` | frontend/native/engine/board/board_make.c:41-63 | A move re-imprisons iff it takes a queen that was neither in her own half nor on her prison square. |
| `SaveQueenRuns.QueensConserved` | frontend/native/engine/board/board_make.c:41-63 | A side's queen count drops by one exactly when its queen is lost for good, never rises, and otherwise she is back on the prison square. |
| `SaveQueenRuns.QueenShape` | frontend/native/engine/movegen/movegen_pieces.c:45-108 | A queen on her prison square is taken only by an adjacent escaped queen; no pawn becomes a queen. |
| `SaveQueenRuns.QueensConservedOverRuns` | frontend/native/engine/board/board_make.c:41-63 | Over any run, queens now plus queens lost for good equals queens at the start, for each side. |
| `Exchange.FullSwapIsBestPlay` | frontend/native/engine/search.c:407-412 | The backward fold of the full swap list is the value under best play where either side may stop. |
| `Exchange.EarlyStopKeepsSign` | frontend/native/engine/search.c:329-412 | For all values and capture sequences the early stop keeps the sign, and the stopped value lies beyond the full one. |
| `Exchange.EarlyIsTruncated` | frontend/native/engine/search.c:360-366 | Stopping early is the full swap of the captures before the guard first holds. |
| `Exchange.EarlyStopExactly` | frontend/native/engine/search.c:360-366 | The early stop keeps the value iff the captures after the first one at which its guard holds make no difference to the best reply. |
| `Exchange.StopAtOnceExactly` | frontend/native/engine/search.c:360-366 | When the guard holds at once, the value is kept iff recapturing would not pay anyway. |
| `See.FindAttackers` | frontend/native/engine/search.c:228-254 | Looking outward from a square finds exactly the men of both sides that bear on it through the given occupancy. |
| `See.FindCapturer` | frontend/native/engine/search.c:329-412 | Picks the least valuable kind that still attacks. |
| `ExchangeOrder.LeastCaptures` | frontend/native/engine/search.c:369-388 | The man that captures next is of the least kind among those able; nobody does iff nobody is able, or only kings are and the other side still bears on the square. |
| `ExchangeOrder.StaysFresh` | frontend/native/engine/search.c:390-405 | After each capture the attackers kept up step by step are those a fresh look finds, one man fewer, unless a king or a Mercenary pawn captured. |
| `ExchangeOrder.UpdatingIsLookingAfresh` | frontend/native/engine/search.c:360-405 | So outside Mercenary, until a king captures, the whole capture sequence is that of looking afresh each time. |
| `ExchangeOrder.StartsFresh` | frontend/native/engine/search.c:349-358 | It starts from what bears on the square once the mover, and a pawn taken in passing, are gone. |
| `ExchangeOrder.FirstGainIsMaterial` | frontend/native/engine/search.c:332-347 | The first gain is the change in material balance of the move itself, own men taken included, a re-imprisoned queen aside. |
| `ExchangeOrder.FirstVictimLanded` | frontend/native/engine/search.c:340-347 | The first victim is the man that has just landed, promoted or not. |
| `ExchangeOrder.VictimsInTurn` | frontend/native/engine/search.c:360-405 | Each later victim is the capturer before it. |
| `ExchangeOrder.LeastIsCheapest` | frontend/native/engine/search.c:257-266 | Outside Heir and Succession the least kind is the cheapest man. |
| `ExchangeOrder.RookForPawn` | frontend/native/engine/search.c:319-413 | A rook that takes a pawn guarded by pawn and queen is worth -400. |
| `See.FillGains` | frontend/native/engine/search.c:329-412 | The gain array after the loop folds to the specified exchange value and never overruns its 32 slots. |
| `See.FoldGains` | frontend/native/engine/search.c:407-412 | The in-place backward loop computes the negamax fold. |
| `See.ComputeSee` | frontend/native/engine/search.c:319-413 | The board method computes the specified exchange value; captures only, 0 otherwise. |
| `See.SeeSign` | frontend/native/engine/search.c:319-413 | The computed exchange value has the sign of best play in the swap sequence. |
| `See.EarlyStopChangesValue` | frontend/native/engine/search.c:360-366 | A pawn takes a queen that a pawn defends: best play is worth 800, the computed value is 900. |
| `See.SeeExactly` | frontend/native/engine/search.c:319-413 | On the board: the computed value is that of best play under exactly that condition. |
| `MoveOrder.OrderedMeaning` | frontend/native/engine/search.c:935-953 | Ordering permutes, descends by score, and is stable. |
| `MoveOrder.Sort` | frontend/native/engine/search.c:935-953 | The in-place insertion sort computes that ordering. |
| `MoveOrder.OrderBy` | frontend/native/engine/search.c:955-972 | Reordering a move list by scores loses and adds nothing. |
| `History.GravityBounded` | frontend/native/engine/search.c:451-454 | With truncating division an entry and bonus within 16384 give an entry within 16384, and the product fits 32 bits. |
| `History.GravityPulls` | frontend/native/engine/search.c:451-454 | A bonus strictly raises an entry below the limit and a penalty strictly lowers one above it; from zero the entry takes the bonus as it is. |
| `History.DepthBonus` | frontend/native/engine/search.c:456-458 | Depth at most 126 keeps the bonus within the limit. |
| `History.Table.Update` | frontend/native/engine/search.c:451-454 | One entry changes by the gravity rule; all entries stay in range. |
| `History.Table.Record` | frontend/native/engine/search.c:456-458 | The cutoff move's entry gains depth squared; all entries stay in range. |
| `History.Table.Penalize` | frontend/native/engine/search.c:460-465 | Every listed quiet loses depth squared as often as it is listed, others are untouched; all stay in range. |
| `GameValue.Extension` | frontend/native/engine/search.c:1478-1506 | An extension is 0, 1 or 2. |
| `GameValue.Value` | frontend/native/engine/search.c:1165-1347 | The true minimax value lies within mate distance of the ply. |
| `GameValue.QValue` | frontend/native/engine/search.c:1021-1159 | The true quiescence value lies within mate distance of the ply. |
| `Verdicts.MatedValue` | frontend/native/engine/search.c:1339-1347 | With no legal move and the king controlled by an enemy man, a node is worth minus a mate at its ply, at any depth. |
| `Verdicts.StalemateValue` | frontend/native/engine/search.c:1339-1347 | With no legal move and the king controlled by nobody, or check not counting, a node with depth left is worth 0. |
| `Verdicts.KinglessValue` | frontend/native/engine/search.c:1339-1347 | A kingless Heir side without a legal move has lost. |
| `Verdicts.MatingMove` | frontend/native/engine/search.c:1508-1646 | A move that mates scores a mate at the next ply, at any depth. |
| `Verdicts.MateInOne` | frontend/native/engine/search.c:1387-1676 | A side that can mate has the best value there is at its ply. |
| `Verdicts.StalematingMove` | frontend/native/engine/search.c:1508-1646 | A move that stalemates scores 0 once depth is left to see it. |
| `Verdicts.RepetitionDraws` | frontend/native/engine/search.c:1171-1177 | A move back to a hash recorded an even number of plies ago scores 0 at any depth. |
| `Verdicts.QueenComesHome` | frontend/native/engine/search.c:87-132 | Save the Queen: a move that brings the queen home scores a win at any depth. |
| `Verdicts.EscapedQueenTaken` | frontend/native/engine/search.c:87-132 | Taking a queen in her own half scores a win at any depth. |
| `Verdicts.HeirBeaten` | frontend/native/engine/search.c:1194-1203 | Heir: leaving a kingless side that has crowned its heir or has no pawn scores a win. |
| `Verdicts.SuccessionDecided` | frontend/native/engine/search.c:1205-1220 | Succession: crowning an heir or leaving the other side short of two queens and a pawn wins; being short oneself loses. |
| `Verdicts.ExtensionExactly` | frontend/native/engine/search.c:1478-1506 | Where no mod adds to it, the extension is one for giving check, answering one at depth two, or retaking at depth four, and else none. |
| `Verdicts.QuietLooksAt` | frontend/native/engine/search.c:1110-1159 | Out of check, quiescence looks at exactly the legal captures that do not lose material under best play. |
| `Verdicts.QuietEvades` | frontend/native/engine/search.c:1066-1090 | In check it looks at all evasions before the fifth quiet ply, and at captures after. |
| `Endings.BackRankMate` | frontend/native/engine/search.c:1339-1347 | A back-rank mate is worth minus a mate at its ply, at any depth. |
| `Endings.CorneredDraw` | frontend/native/engine/search.c:1339-1347 | A cornered king without a move is worth 0. |
| `Windows.Negated` | frontend/native/engine/search.c:1508-1646 | The fail-soft bracket survives negation of the window: what a child with the other side to move returns. |
| `Windows.Clamped` | frontend/native/engine/search.c:1227-1234 | Mate-distance clamping of the window keeps the bracket for the unclamped window. |
| `Windows.ClampedShut` | frontend/native/engine/search.c:1227-1234 | When clamping closes the window, the bound returned brackets the value. |
| `Windows.BestIsMax` | frontend/native/engine/search.c:1387-1676 | The value of a node is an upper bound of its move scores and is attained. |
| `Search.Searcher.IsRepetition` | frontend/native/engine/search.c:1171-1177 | The backward scan finds a repetition iff the hash equals one recorded an even number of plies ago. |
| `Search.Searcher.FindQueenVerdict` | frontend/native/engine/search.c:87-132 | The Save-the-Queen terminal test computes the specified verdict. |
| `Search.Searcher.FindVerdict` | frontend/native/engine/search.c:1194-1220 | The Heir and Succession terminal tests compute the specified verdict. |
| `Search.Searcher.FindExtension` | frontend/native/engine/search.c:1478-1506 | The extension computed on the made board is the one the value is defined with. |
| `Search.Searcher.FindQMoves` | frontend/native/engine/search.c:1021-1159 | Quiescence tries exactly all evasions in check, and otherwise exactly the promising captures. |
| `Search.Searcher.Quiescence` | frontend/native/engine/search.c:1021-1159 | Without delta pruning, fail-soft quiescence brackets the true quiescence value in every window, and restores the board. |
| `Search.Searcher.SearchMove` | frontend/native/engine/search.c:1508-1646 | Without reductions, null-window search and re-search of one move, negated only when the side flips, bracket its true score. |
| `Search.Searcher.SearchMoves` | frontend/native/engine/search.c:1387-1676 | Without skips, the loop with rising alpha returns a score that bounds all moves below beta and is attained above alpha. |
| `Search.Searcher.Reward` | frontend/native/engine/search.c:1661-1665 | On a quiet cutoff the mover gains, the quiets before it lose, by exactly the gravity rule. |
| `Search.Searcher.AlphaBeta` | frontend/native/engine/search.c:1165-1686 | Without pruning, reductions and table cutoffs, fail-soft principal-variation search brackets the minimax value in every window, with extensions, mate-distance clamping and internal deepening. |
| `Root.RootBestUnique` | frontend/native/engine/search.c:1692-1846 | The best root score is unique. |
| `Root.Thinker.ScoreRootMove` | frontend/native/engine/search.c:1723-1803 | A root move's score is exact, whatever the window it was first searched with. |
| `Root.Thinker.Pass` | frontend/native/engine/search.c:1723-1803 | One pass over the root moves finds the best score and a move that has it, in any move order. |
| `Root.Thinker.Aspire` | frontend/native/engine/search.c:1723-1803 | The widening loop ends and its score is the exact best root score. |
| `Root.Thinker.Think` | frontend/native/engine/search.c:1692-1846 | With the same search, unstopped: iterative deepening returns a legal move with the exact best score at the depth reached, and reaches the limit unless it stops on a mate. |
| `PrunedSearch.Engine.Quiet` | frontend/native/engine/search.c:1021-1159 | Quiescence with delta pruning and early stop: ends within its eight plies, restores the board, and returns a score in range. |
| `PrunedSearch.Engine.TryNull` | frontend/native/engine/search.c:1309-1337 | Null move, recursion one ply deeper at reduced depth with nothing pushed, and undo: the board and its hash come back. |
| `PrunedSearch.Engine.CutBefore` | frontend/native/engine/search.c:1236-1337 | Whatever the table, razoring, reverse futility and the null move decide, the board comes back and a cutoff score is in range. |
| `PrunedSearch.Engine.LateMove` | frontend/native/engine/search.c:1519-1646 | Reduced null-window search and its two re-searches: any reduction keeps the board and the tables. |
| `PrunedSearch.Engine.TryMove` | frontend/native/engine/search.c:1400-1648 | Make, prune or extend and search, unmake: the board comes back on every path, and the first move is never pruned. |
| `PrunedSearch.Engine.RecordKiller` | frontend/native/engine/search.c:442-448 | The newest killer of the ply comes first without repeating, other plies are untouched. |
| `PrunedSearch.Engine.Note` | frontend/native/engine/search.c:1268-1288 | The evaluation is noted at its ply inside the stack, and compared with two plies before. |
| `PrunedSearch.Engine.Loop` | frontend/native/engine/search.c:1387-1676 | The move loop with all skips and stops rewards history only at depths up to 126 and keeps every table in range. |
| `PrunedSearch.Engine.Store` | frontend/native/engine/search.c:203-215 | Storing keeps all stored scores in range, whatever is evicted. |
| `PrunedSearch.Engine.Alpha` | frontend/native/engine/search.c:1165-1686 | The search as run, for every choice its heuristics, table and clock can make: it ends though depth can grow, restores position, hash and stack, stays within the 512 undo slots and the per-ply tables, keeps history within 16384, and returns a score within a mate. |
| `PrunedSearch.Engine.RateMove` | frontend/native/engine/search.c:1748-1777 | A root move is searched, and searched again in full outside a closed window; the board comes back. |
| `PrunedSearch.Engine.Widen` | frontend/native/engine/search.c:1723-1803 | The widening loop ends although each pass may return any scores, and names the best of its last pass. |
| `PrunedSearch.Engine.Think` | frontend/native/engine/search.c:1692-1949 | A move is named iff an iteration was completed; it is legal and scored within the margin in the last one. Unless stopped, the limit or a mate is reached. The board comes back in any case. |
| `PrunedSearch.Choose` | frontend/native/engine/search.c:1849-1940 | The skill-based choice scored within the margin of the best, and within the band too at high skill. |
| `Fen.RanksParse` | frontend/native/engine/board/board_fen.c:11-40 | Parsing printed ranks gives back all 64 squares and stops at the field end. |
| `Fen.CastlingParses` | frontend/native/engine/board/board_fen.c:47-59 | Parsing the printed castling field gives back the four rights. |
| `Fen.EpParses` | frontend/native/engine/board/board_fen.c:61-70 | Parsing the printed en-passant field gives back the square or none. |
| `Fen.FieldParses` | frontend/native/engine/board/board_fen.c:72-78 | Parsing a printed number gives the number. |
| `Fen.RoundTrip` | frontend/native/engine/board/board_fen.c:11-135 | Parsing the printed text of any position with halfmove at least 0 and fullmove at least 1 gives back all six fields (section 16.1 of the PGN Standard). |
| `Fen.PrintFits` | frontend/native/engine/bridge.h:60-62 | With 32-bit counters the text and its terminator fit 128 bytes. |
| `StandardText.E4TextExactly` | frontend/native/engine/board/board_fen.c:11-135 | Making 1. e4 on the start position prints the text section 16.1 of the PGN Standard gives for it, and parses back. |
| `FenBoard.GetFen` | frontend/native/engine/board/board_fen.c:91-135 | The buffer writer produces the printed text, terminated, within 128 bytes. |
| `FenBoard.ReadRanks` | frontend/native/engine/board/board_fen.c:11-40 | The placement loop on the board matches the parser for any text, skipping unknown letters and men off the board. |
| `FenBoard.SetFen` | frontend/native/engine/board/board_fen.c:11-89 | The index-driven reader installs what the parser finds, with all views in agreement and a fresh hash. |
| `FenBoard.CarryOver` | frontend/native/engine/board/board_fen.c:11-135 | Printing one board and reading it into another carries over placement, side, rights, en passant and both counters. |
| `Start.StartTextParses` | frontend/native/engine/board/board_fen.c:141-146 | The engine's start text is the printed start position, so it parses to it. |
| `Start.Init` | frontend/native/engine/board/board_fen.c:141-146 | Initialising from any board gives the start position of the mod with a right hash. |
| `Start.StartSound` | frontend/native/engine/board/board_fen.c:141-146 | The start position is sound in every mod. |
| `Start.KingsBattleFromStart` | frontend/native/engine/board/board_make.c:162-203 | From the start position phase 1 has at most 773 plies, and every officer stays on its start square with the clock at most five. |
| `Start.BonusFromStart` | frontend/native/engine/board/board_make.c:172-203 | A whole King's Battle game from the start position has at most one bonus ply. |
| `Start.SoundFromStart` | frontend/native/engine/board/board_make.c:136-160 | From the start position of any mod, Heir included, every position is sound as long as no king is taken. |
| `Start.TruceFromStart` | frontend/native/engine/board/board_make.c:100-117 | A truce from the start has at most 32 plies, keeps 32 men, and no man that has moved moves again. |
| `RateLimit.TakeSane` | signaling/internal/ratelimit/ratelimit.go:23-38 | Tokens stay between 0 and the cap. |
| `RateLimit.AllowedBound` | signaling/internal/ratelimit/ratelimit.go:23-38 | Over any ascending call times a bucket allows at most its refilled tokens plus rate times the elapsed time. |
| `RateLimit.PacedAllAllowed` | signaling/internal/ratelimit/ratelimit.go:23-38 | A client that starts with a token and waits a token's worth between calls is never refused. |
| `RateLimit.BurstAllowed` | signaling/internal/ratelimit/ratelimit.go:23-38 | A bucket lets through at once as many calls as it holds tokens. |
| `RateLimit.KeysIndependent` | signaling/internal/ratelimit/ratelimit.go:58-72 | What one key is allowed depends on that key's calls alone. |
| `RateLimit.SpanBound` | signaling/internal/ratelimit/ratelimit.go:58-72 | In any span of any call sequence, lazily made buckets included however early they were made, a key is allowed at most cap + rate * (t - s). |
| `RateLimit.Bucket.Allow` | signaling/internal/ratelimit/ratelimit.go:23-38 | The in-place refill and take computes the bucket step. |
| `RateLimit.Limiter.constructor` | signaling/internal/ratelimit/ratelimit.go:49-55 | The per-minute refill becomes a per-second rate, with no bucket yet. |
| `RateLimit.Limiter.Allow` | signaling/internal/ratelimit/ratelimit.go:58-72 | One call makes the key's bucket when missing and steps it alone; the other buckets are unchanged. |
| `Replay.TextBindsTime` | signaling/internal/auth/auth.go:24-27 | Equal signed texts have the same whole-second timestamp and body digest, for all other field contents. |
| `Replay.Verifier.Purge` | signaling/internal/auth/auth.go:48-71 | The purge loop drops exactly the entries older than the retention. |
| `Replay.Verifier.Verify` | signaling/internal/auth/auth.go:48-71 | The in-place verifier computes the specified verdict and cache. |
| `Replay.NeverTwice` | signaling/internal/auth/auth.go:48-71 | With a clock read at most 59 s + 1 ns before the lock, no signature is accepted twice in any run, purging included. |
| `Replay.FirstTimeAccepted` | signaling/internal/auth/auth.go:48-71 | A genuine request within the minute, with a signature not presented before, is accepted after any run. |
| `Replay.OthersRefused` | signaling/internal/auth/auth.go:48-71 | A forged or outdated request is never accepted. |
| `Replay.LongerDelayFails` | signaling/internal/auth/auth.go:48-71 | That delay is the best possible: one nanosecond more admits a run that accepts a signature twice. |
| `Spectators.Manager.constructor` | signaling/internal/spectator/spectator.go:43-55 | Cap defaulted and limited, empty lists. |
| `Spectators.Manager.Join` | signaling/internal/spectator/spectator.go:68-110 | The in-place admission computes the specified hall and outcome. |
| `Spectators.Manager.Leave` | signaling/internal/spectator/spectator.go:113-122 | The in-place release computes the specified hall. |
| `Spectators.Manager.WithoutFirst` | signaling/internal/spectator/spectator.go:156-163 | The loop removes the first occurrence alone. |
| `Spectators.Manager.ExpireWaitlist` | signaling/internal/spectator/spectator.go:132-136 | Empties the waitlist and nothing else. |
| `Spectators.Manager.HostGone` | signaling/internal/spectator/spectator.go:140-154 | Evicts everyone and reports the number seated, or refuses a non-positive timeout and changes nothing. |
| `Spectators.RecentAgain` | signaling/internal/spectator/spectator.go:68-110 | Pruning at one time and counting at a later one is the same as counting the unpruned record. |
| `Spectators.StaysWellSeated` | signaling/internal/spectator/spectator.go:68-163 | Over any run the seated never exceed the cap and a non-empty waitlist means all seats are taken. |
| `Spectators.FirstInFirstOut` | signaling/internal/spectator/spectator.go:68-122 | Over any run of joins and leaves, those waiting then those entering is those promoted then those waiting now: promotion is in order. |
| `Spectators.JoinRatesHold` | signaling/internal/spectator/spectator.go:68-110 | Over any run with a non-decreasing clock, at most 6 accepted attempts per account in any minute and 60 in any hour, although records are pruned. |
| `Spectators.TurnedAwayExactly` | signaling/internal/spectator/spectator.go:68-110 | After any run an account is turned away for its rate iff six of its attempts were accepted in the minute, or sixty in the hour, that ends now. |
| `Spectators.PlacedExactly` | signaling/internal/spectator/spectator.go:68-110 | Whoever is not turned away gets a seat iff one is free, else a place in the queue iff that is not full; nobody else's place changes. |

## Left out

- Board hash: keys are uninterpreted, and no claim is made that equal hashes mean equal positions. The hash does not cover the frozen, moved and idle marks.
- Search.Searcher.AlphaBeta: transposition-table cutoffs, the null-move cutoff, razoring, futility, late-move pruning and reduction and exchange pruning are off, because they do not preserve the minimax value. What holds with all of them on is `PrunedSearch.Engine.Alpha`.
- Search.Searcher.SearchMove: late-move reduction is off, for the same reason; see `PrunedSearch.Engine.LateMove`.
- Search.Searcher.SearchMoves: the skips of the loop are off, for the same reason; see `PrunedSearch.Engine.Loop`.
- Search.Searcher.Quiescence: delta pruning is off, for the same reason; see `PrunedSearch.Engine.Quiet`.
- Search.Searcher.OrderMoves: states only that ordering permutes, because any ordering scores are allowed.
- Root.Thinker.ScoreRootMove: exact for the search below it with pruning off, as are `Root.Thinker.Pass` and `Root.Thinker.Aspire`; see `PrunedSearch.Engine.RateMove` and `PrunedSearch.Engine.Widen`.
- Root.Thinker.Think: stopping early and skill-based choice are off; see `PrunedSearch.Engine.Think`.
- PrunedSearch.Engine.Alpha: leaves out Heir positions that still have a castling right, as do the methods below it, because there mailbox and bitboards can disagree for a while (`HeirRuns.HeirOverwrites`). Says nothing about how good the score is, because the heuristics promise nothing. Counter moves and stored depths, flags and moves of the table affect only choices that are left free.
- FenBoard.SetFen: asks that the parsed en-passant square is on the board; for other text, such as one that ends after the file letter, the code reads a key outside its table or text past its end, which C leaves undefined.
- Fen.RoundTrip: asks for halfmove at least 0 and fullmove at least 1; the parser raises a smaller move number to 1 and cannot read a minus sign.
- Fen.PrintFits: 32-bit overflow of the counters is not modelled beyond this bound on their length.
- Castling in a truce without a king: the code takes the lowest bit of an empty board, which C leaves undefined; the model takes it as not frozen. In a sound position there is no right to castle without a king.
- Replay.NeverTwice: asks that a signature verifies one text, which the signature library is trusted for.
- RateLimit.SpanBound: rounding of floating-point tokens is not modelled.
- Boards.Board.Place: asks for an empty square. On a taken one the code overwrites the mailbox and leaves the old man's bits, so the views disagree.
- Boards.Board.MakeMove: asks that the move fits the position, which leaves out Heir's castling without a king; that move is covered on values (`HeirRuns`), not on the board's views.
- Boards.Board.UnmakeMove: the same.
- LegalGeneration.IsLegal: the same.
- LegalGeneration.FilterLegal: the same.
- LegalGeneration.GenerateMoves: asks that every castling allowed now has its king and rook at home and an en-passant target is empty. Where Heir allows castling without a king, testing one castling changes the scratch board on which the next is tested.
- LegalGeneration.GenerateCaptures: asks that a set en-passant square is empty; elsewhere en passant overwrites a man and leaves stale bits, as for `Boards.Board.Place`.
- LegalGeneration.HasLegalMoves: the same as `LegalGeneration.GenerateMoves`.
- Locks: each method of the Go services is one atomic step.
- Attack-table lookups in the generator and the reverse lookup are modelled by the contents proved of the tables.
- Unmake of a record that has a captured man but no square for it: the model leaves the placement alone, the code would write outside its arrays. No made move leaves such a record.
- Evaluation and search heuristics (`eval`, `search/heuristics_*`): tuned constants with nothing specified.
- The bridge's refine passes and overrides, and its setting of mod flags after the hash is computed: hard-coded positions and timed searches.
- Cryptography, storage, HTTP and QUIC routes, accounts, push, quotas and the user interface: foreign libraries, input and output, or repeats of the limiter patterns above.
