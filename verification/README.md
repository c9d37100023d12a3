# Proofs about the No Name Go Server

This project models, in Dafny, the parts of the server whose correctness is hardest to see by
reading them, and proves what each of them promises. `dafny verify dfyconfig.toml` checks all of it.

## The components

**The Go engine** (`src/mink.c`) keeps a board with a border, a union-find forest over the stones, a
log of its changes, a move history, an incremental hash and capture counts, for any width, height
and table of hash keys.

- `GoBoard`, `GoRules`: connectedness and the naive rules: place the stone, remove the opponent's
  groups without liberties, then the player's own. No forest, hash or log is mentioned here.
- `GoEngine`: what the routines do to a position, step by step, recursion included.
- `GoTally`, `GoForest`, `GoLog`, `GoScan`, `GoSteps`, `GoMove`, `GoPlay`: the hash is the exclusive
  or over the stones; the root of a group holds minus the number of its liberty edges; the log
  undoes a move; hence a move follows the rules, and taking it back restores everything.
- `GoKo`: what the ko point means. `GoStale`: what a refused suicide leaves after a removal.
  `GoHistory`, `GoStart`, `GoStars`: the move history, handicaps and the table of handicap points.
  `GoScore`, `GoBorder`: counting the score.
- `GoGame`: the game object. Its methods do exactly the steps of `GoEngine`, so they have the proved
  properties.
- `GoSave`: games written as text and read again.

**The allocator** (`memory/malloc.c`). Memory is an array of words, an address an index.
`HeapBlocks`: blocks with a size word at each end tile the heap. `HeapBins`: the free lists by the
logarithm of the size. `Allocator`: the class `Arena`, whose methods rewrite memory and lists in
place; `Used()` tells the contents of every block that a user holds.

**The banned addresses** (`src/ip_ban.c`). `BanTree`: the binary tree of ranges as a value.
`BanStore`: the memory it lives in; a link is a place that holds a node, and each node knows the link
that holds it. `IpBan`: the class `BanList`, which relinks nodes in place and rotates while walking;
its meaning is a set of addresses.

**Telnet input** (`src/network.c`). `Telnet`: the in-place, incremental assembly of command lines,
against a parser that takes one byte after the other (RFC 854).

**Offers** (`src/pending.c`). `Pending`: two intrusive lists over one array, a remembered end of the
list, and deletion that waits for the next search.

**Mail** (`src/mailer.c`). `Mailer`: the buffered encoder for the data of a message, against a
receiver as in section 4.5.2 of RFC 5321.

**Substring search** (`src/bm.c`). `Search`: the table-driven search, with its step of two.

## Where the code falls short, exactly

- *Saved games.* A move in column 20 and row 20, counted from the top, is written like a pass, and the
  handicap of a game under Ing rules is written in a form that is not read. `GoSave.LoadGame`:
  loading reproduces the moves if and only if the game has neither. `GoSave.ReadAsPass` is such a
  game on a board of 20 by 20.
- *Hash after dead-stone removal.* Taking a refused move back sets the hash to the one that the
  history recorded. `GoGame.Game.Play`: the position is as it was but for that hash, and it is in
  order if and only if that was the hash before the move. `GoStale.StaleHash`: after the removal of
  a lone stone a refused suicide leaves a wrong hash if and only if the stone has a key.
  `GoStale.StaleRow` is such a game, of two moves on a board of four points by one.
- *Mail chunks of CR only.* `Mailer.Stream.Mail`: when every write takes all it is given, sending a
  text stops half-way if and only if some non-empty chunk of it consists of CR only.
  `Mailer.LoneReturn` is the smallest such chunk.
- *Mail with very short writes.* The encoder does not look whether its buffer has room.
  `Mailer.Stream.WrapLine`: for given results of the writes it writes past the buffer if and only if
  a character of the text does not fit any more at the level that the writes before it leave.
  `Mailer.OverrunsExactly`: there is a text for which it does if and only if two writes take a single
  byte each and all writes between them two bytes. `Mailer.ThreeLineEnds` is an input that overruns
  the buffer, and one that just does not.
- *Overlong telnet lines.* Clearing a line that fills the buffer takes more from `parse_dst` than
  there is. `Telnet.Connection.Serve`: this happens if and only if a byte was dropped from a line
  that fills the buffer. `Telnet.TooLong` gives such a line, and the same line without a dropped
  byte, which is only cut off and loses its last byte.
- *Handicap points.* `GoStars.HandicapFits`: on boards wider than one column the points of a handicap
  are free points with a free neighbour if and only if the board has their rows;
  `GoStars.NarrowFits` is the remaining board of one column, and `GoStars.LowBoard` a board of 19 by 4
  that does not have them.
- *Very large requests.* `Allocator.RequestsExactly`: in 32 bits a request gets a size that leaves room
  for it, and a doubling of the chunk asked from the system that ends, if and only if it is for no more
  than 2^31 - 12 bytes.
- *Bans at the ends of the address space.* `IpBan.BanList.AddAtEnd`: adding a range that contains
  address 0 or the largest address steps outside of the address space and finds no other range. Unless
  a range starts where the new one does, which for 0 none can, the stored ranges are the maximal runs
  of the union if and only if no stored range overlaps the new one or is adjacent to it.
- *Bans over a restart.* `IpBan.BanList.Restart`: the list is the same after a restart if and only if
  the address 0xf7000001 was not banned, since the server takes it out after reading the file.

## Model

| member | source | states |
|---|---|---|
| GoBoard.FloodIsRepaint | src/mink.c:366-394 | The recursive four-way flood repaints exactly the connected region it starts in. |
| GoStart.AdjacentPoints | src/mink.c:508-511 | Points are adjacent if and only if they are one step apart in one direction. |
| GoGame.Game.FindRoot | src/mink.c:407-407 | Following the links from a stone ends, at the root that the specification names. |
| GoForest.CaptureCredits | src/mink.c:379-394 | Capturing a region credits every group of the other colour with exactly the liberty edges it gains, and changes no tree. |
| GoPlay.RootCounts | src/mink.c:325-330 | In every sound position the links from a stone lead to one stone of its own group, which holds minus the number of (stone of the group, adjacent empty point) pairs. |
| GoPlay.RootsTell | src/mink.c:396-433 | Two stones of one colour have the same root if and only if they are connected. |
| GoTally.CaptureTallied | src/mink.c:379-394 | Capturing keeps the hash the exclusive or of the keys of all stones and counts every stone it removes. |
| GoTally.FillTallied | src/mink.c:366-377 | Refilling keeps the hash and the capture counts right as well. |
| GoTally.SameBoardSameHash | src/mink.c:541-579 | Equal boards have equal hashes, whatever the table of keys. |
| GoMove.LookAroundScans | src/mink.c:396-433 | Looking at the four neighbours in turn joins the groups of the player, discounts those of the opponent and captures exactly the groups without liberties, whatever of them meets the stone more than once. |
| GoGame.Game.Neighbour | src/mink.c:396-433 | The method changes forest, log, board, hash, captures, root and ko state as the specification of one look does. |
| GoGame.Game.Capture | src/mink.c:379-394 | The mutually recursive method captures as specified and returns the number of stones. |
| GoGame.Game.Fill | src/mink.c:366-377 | The recursive method refills as specified. |
| GoLog.UnwindToMark | src/mink.c:465-466 | Unwinding the log to the last mark restores the union-find array before the mark, and the log. |
| GoPlay.MoveFollowsRules | src/mink.c:541-579 | After any move from a sound position the board is the one the naive rules give, the position is sound again, and the move is suicide if and only if the rules remove the played stone. |
| GoPlay.MoveRecords | src/mink.c:558-570 | The four flags of a move say exactly which neighbours were captured. |
| GoPlay.CapturesCounted | src/mink.c:379-394 | Of each colour the stones captured and those on the board together grow by the stone played, and by nothing else. |
| GoPlay.MoveRetracts | src/mink.c:435-469 | Taking a move back restores board, whole union-find array, log, captures and the recorded hash, for several captures at once and for suicide. |
| GoPlay.RetractSound | src/mink.c:435-469 | The result is sound if and only if the recorded hash is the hash before the move. |
| GoStale.StaleHash | src/mink.c:564-570 | After the removal of a lone stone a suicide that is refused and taken back with the hash recorded before leaves a sound position if and only if the stone has no key. |
| GoStale.StaleRow | src/mink.c:564-570 | A game of two moves, a removal and such a refused suicide. |
| GoPlay.RemovalSound | src/mink.c:596-601 | Removing a dead group takes exactly that group off, counts it, and leaves a sound position. |
| GoKo.KoIsExact | src/mink.c:396-433 | After a move that is no suicide the ko point is q if and only if an answer at the empty point q would bring back the board before the move. |
| GoKo.KoInHistory | src/mink.c:541-579 | In a recorded game the ko point bars exactly the answers that would bring back the board before the last move; a pass, a handicap and a suicide bar nothing. |
| GoKo.OnlyTakenIsKoShape | src/mink.c:422-430 | One stone is the only capture, with no empty or friendly neighbour seen, if and only if it is a lone opposing stone without liberties and the other neighbours are border or living opposing stones. |
| GoKo.SoundAlive | src/mink.c:541-579 | In a sound position every group has a liberty. |
| GoHistory.AcceptsByRules | src/mink.c:541-579 | A move is accepted if and only if the point is empty, not the ko point, not a move of White before number 2 * handicap + 1 under Ing rules, not suicide under RULES_NET by the naive rules, and, if asked for, the naive result is no earlier board with the same player to move. |
| GoHistory.IngPasses | src/mink.c:548-550 | In every game under Ing rules White has passed at all even moves up to twice the handicap. |
| GoGame.Game.Play | src/mink.c:541-579 | The method accepts exactly those moves, by the rules written out, and then the board is the naive one; a refused move leaves history, move number and position as they were, the hash excepted, which becomes the recorded one if the point was open; the position is in order if and only if that was its hash. An accepted move is entered with its point, ko point, captures and hash. |
| GoGame.Game.Superko | src/mink.c:514-539 | The search that rewinds and replays the real game finds a repetition if and only if an earlier position with the same player to move has the identical board, whatever the hash table, and leaves the game as it found it. |
| GoHistory.HashTells | src/mink.c:518-530 | Comparing recorded hashes first never misses an equal board. |
| GoGame.Game.Pass | src/mink.c:581-594 | The number of passes in a row that the history now ends with. |
| GoGame.Game.Undo | src/mink.c:435-469 | The method that takes a move, a pass or a handicap back; the position before comes back with the recorded hash, in order if and only if it had that hash. |
| GoGame.Game.Back | src/mink.c:435-469 | In a game with a known history the previous position is back; over a handicap the game starts anew. |
| GoGame.Game.Forward | src/mink.c:471-478 | The next entry, a move or a pass, is played again, whatever hash the history recorded. |
| GoGame.Game.RemoveDead | src/mink.c:596-601 | The group at the point is removed, and the history is not told. |
| GoHistory.MoveDetermined | src/mink.c:541-579 | What a move does to board, hash, captures and history entry depends on nothing but board, hash and captures. |
| GoHistory.RetraceMove | src/mink.c:604-617 | Every recorded move is accepted again when replayed and gives the recorded entry. |
| GoHistory.StarsDetermined | src/mink.c:296-321 | Setting a handicap up again gives an equal board, hash and entry. |
| GoGame.Game.Replay | src/mink.c:604-617 | After any removals, replaying ends, keeps the history, and restores board, hash and captures, also of a game opened with a handicap. |
| GoGame.Game.StartGame | src/mink.c:95-112 | The loops draw the border and empty the rest. |
| GoGame.Game.constructor | src/mink.c:125-166 | A new game is a sound position with an empty history. |
| GoHistory.StarsPlaced | src/mink.c:296-321 | A handicap puts black stones on its points and changes nothing else, although each is played as a first move. |
| GoGame.Game.SetHandicap | src/mink.c:296-321 | The handicap is accepted if and only if no move was made and there are enough points; under RULES_NET it becomes the first entry, and n black stones and no white one are on the board. |
| GoStars.StarsLie | src/mink.c:65-93 | The table by arithmetic: the centre of small boards, else the crossings of the third lines, from width 12 of the fourth, and for odd widths those of the middle lines too. |
| GoStars.HalfTurn | src/mink.c:305-317 | With nine points the stones of a handicap of two or of four to nine are the same after half a turn of the board. |
| GoStars.LastInCentre | src/mink.c:311-312 | The last of five, seven or nine stones is in the centre. |
| GoStars.FourStones | src/mink.c:65-93 | On 19 by 19 the first four points are the four that lie four lines from two edges, the first two opposite each other. |
| GoStars.StonesCounted | src/mink.c:296-321 | The points are all different, so a handicap of n puts n stones on the board. |
| GoStars.HandicapFits | src/mink.c:65-93 | The table fits a board if and only if the board has the rows of the points used. |
| GoStars.NarrowFits | src/mink.c:65-93 | The point of the one-column table entry fits if and only if the board has a second row. |
| GoStars.LowBoard | src/mink.c:65-93 | A board of 19 by 4 on which the first point of the table does not fit. |
| GoStars.SquareFits | src/mink.c:65-93 | Boards at least as high as wide have the rows. |
| GoScore.FindOwnerIsOwner | src/mink.c:743-752 | The marking flood marks exactly the empty region and returns the one colour it touches, or none. |
| GoScore.SetOwnerFloods | src/mink.c:754-763 | The second flood gives the owner to exactly the marked region. |
| GoScore.ScoreSums | src/mink.c:771-794 | Stones, territory of both colours and neutral points are all the points off the border. |
| GoBorder.ScoreCoversBoard | src/mink.c:771-794 | They add up to width times height. |
| GoBorder.HistoryBordered | src/mink.c:95-112 | No move, handicap or pass ever changes a border point. |
| GoGame.Game.CountScore | src/mink.c:771-794 | The loops count stones and exactly the empty points whose maximal region touches only one colour, these and the neutral points make up the board, and the position is as before. |
| GoSave.SaveGame | src/mink.c:168-229 | The text written is the one specified, line ends included. |
| GoSave.EntryWritten | src/mink.c:177-205 | What is written for an entry: B for odd and W for even moves, then column and row from the top as letters, tt for a pass, or z and the number of handicap stones. |
| GoSave.LinesOfTwelve | src/mink.c:222-229 | A line end follows each twelfth entry and the last one. |
| GoSave.TextBegins | src/mink.c:174-176 | Only a handicap under Ing rules stands before the entries, as a decimal number in brackets. |
| GoSave.EntryRead | src/mink.c:231-243 | Reading an entry gives the colour, the handicap, the pass or the point that was written, and goes on behind it. |
| GoSave.LoadGame | src/mink.c:168-243 | Reading a saved game reproduces its entries if and only if none is written like a pass and there is no Ing handicap; then board, hash, captures and the player to move are reproduced too. |
| GoSave.ReadAsPass | src/mink.c:200-204 | A move on a board of 20 by 20 whose text reads as a pass. |
| HeapBins.FindLog2 | memory/malloc.c:262-278 | The two loops, one for large numbers, compute the logarithm rounded down. |
| HeapBins.Log2Floors | memory/malloc.c:262-278 | Two to its logarithm is the largest power of two that is no larger than a number. |
| HeapBlocks.CarveTiled | memory/malloc.c:311-331 | Making one block of a stretch keeps the heap tiled. |
| HeapBlocks.SplitTiled | memory/malloc.c:464-473 | Splitting a block keeps the heap tiled. |
| HeapBins.UnlinkHeap | memory/malloc.c:414-426 | Unlinking a free block and marking it used keeps tiling, coalescing and all lists. |
| HeapBins.PushHeap | memory/malloc.c:429-462 | Turning a stretch of used blocks into one free block, first in its list, keeps tiling, coalescing and all lists. |
| Allocator.RealSizeFits | memory/malloc.c:340-347 | The block size is the smallest aligned one, and at least four words, that leaves room for the user. |
| Allocator.RequestsExactly | memory/malloc.c:340-347 | In 32 bits exactly the requests of up to 2^31 - 12 bytes get a size with room for them and a search for memory that ends. |
| Allocator.DoublingEnds | memory/malloc.c:188-191 | Doubling the chunk in 32 bits reaches a size if and only if that is at most 2^31. |
| Allocator.FindFitIs | memory/malloc.c:356-367 | Searching upwards from the bin of the size fails if and only if no free block of the heap is large enough. |
| Allocator.FindFitFirst | memory/malloc.c:356-367 | It is the first that is large enough in the lowest list that has one. |
| Allocator.ChunkIs | memory/malloc.c:188-191 | The chunk asked from the system is the smallest doubling of a page that is large enough. |
| Allocator.RoomIs | memory/malloc.c:186-203 | There is room at the top if and only if it fits into what the system has given, or some large enough doubling of a page can still be had. |
| Allocator.Arena.FindFreeBlock | memory/malloc.c:356-367 | The nested loops over table and list find that block. |
| Allocator.SpotIs | memory/malloc.c:386-408 | The block above if it is free and large enough, else the one below, else some free block that is large enough; nothing if and only if there is none of these. |
| Allocator.Arena.GrowsRight | memory/malloc.c:386-408 | Where a block goes that has to grow, said of the blocks around it instead of the search. |
| Allocator.Arena.FindReallocBlock | memory/malloc.c:386-408 | The method makes that choice. |
| Allocator.Arena.SetUnfree | memory/malloc.c:414-426 | The writes to links, table and size words take the block off its list and touch no other block. |
| Allocator.Arena.SetFree | memory/malloc.c:429-462 | Freeing joins the free neighbours and leaves every other user's words alone. |
| Allocator.Arena.Split | memory/malloc.c:464-473 | The front of the block keeps its contents, the rest is freed. |
| Allocator.Arena.MaybeSplit | memory/malloc.c:322-331 | The block is cut to the words wanted if and only if more than twice as many are there. |
| Allocator.Arena.Malloc | memory/malloc.c:572-601 | The result is a new block, all users keep their contents; a fitting free block is used if there is one, cut if it has more than twice the words, else new memory at the top; null if and only if the size is 0, or no free block fits and memory is exhausted. |
| Allocator.Arena.TopMalloc | memory/malloc.c:626-648 | The block is the last of the heap, above the buffer if there was room for one; it is the top block, users keep their contents; null if and only if there is no room above the buffer. |
| Allocator.Arena.Free | memory/malloc.c:789-811 | The block is no longer used, and no longer the top block; all other users keep their contents. |
| Allocator.Arena.Realloc | memory/malloc.c:650-744 | In all cases, overlapping moves included, the old contents are kept up to the new size and every other user keeps its own. A block that is large enough stays and gives back what is too much, unless it is the top block. A block that has to grow takes in a free block above; else, unless it is the top block, it moves to a free block below or to some other free block; only if none is large enough it grows or moves to the top; null if and only if there is no memory for that either. The top block stays a block in use, follows its contents and never moves down. |
| Allocator.Arena.MaybeRealloc | memory/malloc.c:746-787 | The prediction that the reallocation is proved to meet. |
| Allocator.Arena.MaybeMalloc | memory/malloc.c:604-619 | The prediction for a new block. |
| Allocator.TiledExactly | memory/malloc.c:296-337 | Every word of the heap lies in exactly one block, whose two size words agree. |
| Allocator.UsersApart | memory/malloc.c:349-353 | What two users may write to lies inside the heap and does not overlap. |
| Allocator.ListedOnce | memory/malloc.c:318-331 | Every free block stands in exactly one place of exactly one list, that of the logarithm of its size. |
| Allocator.NeverTwoFree | memory/malloc.c:429-462 | No two free blocks are adjacent. |
| BanStore.LiftChild | src/ip_ban.c:362-377 | Cutting a child and gluing it in its parent's place leaves two well-linked trees with the same nodes in the same order. |
| BanStore.Appended | src/ip_ban.c:263-267 | Appending a tree at the place its ranges belong to keeps order, disjointness and every back-handle. |
| IpBan.BanList.NodeCut | src/ip_ban.c:425-430 | The node leaves the link that holds it. |
| IpBan.BanList.NodeGlue | src/ip_ban.c:432-436 | The node hangs from the link and knows it. |
| IpBan.BanList.NodeRotate | src/ip_ban.c:362-377 | A rotation loses and duplicates no node and keeps the order. |
| IpBan.BanList.NodeApp | src/ip_ban.c:263-267 | A tree is appended where it belongs. |
| IpBan.BanList.RangeHnd | src/ip_ban.c:227-261 | The walk that rotates as it goes ends, at the link where the value is or belongs, with the same nodes in the same order. |
| IpBan.BanList.NodeHarvest | src/ip_ban.c:315-340 | One node is taken out of the tree, all others stay in order; null if and only if the tree is empty. |
| IpBan.BanList.NodeDel | src/ip_ban.c:269-305 | The root of a subtree is removed and nothing else. |
| IpBan.BanList.RangeHarvest | src/ip_ban.c:347-360 | All and only the ranges that overlap the given one are removed, into a tree of their own. |
| IpBan.BanList.Add | src/ip_ban.c:139-165 | The banned addresses become the union with the range, stored as maximal runs; the result is the change in the number of ranges. |
| IpBan.BanList.AddAtEnd | src/ip_ban.c:139-165 | For a range with address 0 or the largest one: unless a range starts where it does, the result is the merged list if and only if nothing is in its way; for 0 no range starts there. |
| IpBan.BanList.Remove | src/ip_ban.c:172-206 | The banned addresses become the difference; the result is minus the number of ranges that overlapped, 0 if and only if nothing was banned. |
| IpBan.BanList.Iter | src/ip_ban.c:93-137 | The next range in increasing order. |
| IpBan.NextAbove | src/ip_ban.c:93-137 | Continuing behind a range gives the range after it. |
| IpBan.BanList.Check | src/ip_ban.c:68-85 | For one address, whether it is banned; for more, from 0 or from higher up, the number of stored ranges that overlap. |
| IpBan.MaximalRuns | src/ip_ban.c:139-165 | Each stored range is banned throughout, and the addresses next to it are not. |
| IpBan.SameCoverSameRanges | src/ip_ban.c:139-165 | A set of addresses is stored in one way only. |
| IpBan.BanList.Dump | src/ip_ban.c:208-219 | What is written is a permutation of the stored ranges. |
| IpBan.BanList.Reload | src/nngsmain.c:300-329 | Adding the dumped ranges to an empty list gives the same ranges again. |
| IpBan.BanList.Restart | src/nngsmain.c:300-334 | With the one address that the server takes out afterwards the ranges are the same if and only if it was not banned. |
| Search.StepOfTwo | src/bm.c:63-65 | Where the shift does not advance, an occurrence ending one place on would make the compared stretch constant, so it is not missed. |
| Search.NoneSkipped | src/bm.c:53-66 | No occurrence ends between two positions that are tried. |
| Search.BoyerMoore.Init | src/bm.c:30-43 | The table holds, for each character, its distance from the end of the pattern. |
| Search.BoyerMoore.Find | src/bm.c:45-68 | The first occurrence, or -1 if and only if there is none. |
| Telnet.Connection.CheckForCmd | src/network.c:705-805 | The in-place parser agrees with the one-pass parser from any state it may be resumed in; it fails only on an interrupt, when all commands before it were delivered. |
| Telnet.Connection.ClearCmd | src/network.c:683-702 | After a command what follows is parsed as if it stood alone. |
| Telnet.Connection.DoRead | src/network.c:808-833 | Bytes that arrive extend what was read, also while a command is pending. |
| Telnet.Connection.Serve | src/network.c:357-500 | However reads split the input, and whether or not a turn with a command pending reads, the commands that are not empty and the replies are those of the one-pass parser, and the user is disconnected if and only if the input has an interrupt; the buffer is overrun if and only if that parser finds a line that fills it and lost a byte. |
| Telnet.NegotiationDropped | src/network.c:751-793 | Option negotiations change nothing, and are answered only if they ask to do a timing mark or to suppress go-aheads. |
| Telnet.ControlDropped | src/network.c:722-741 | LF, CR and EOT end the line, all other control characters are left out. |
| Telnet.CommandDone | src/network.c:743-780 | AYT is answered, EL discards the line so far, IP ends the connection, any other single command is left out. |
| Telnet.EraseLine | src/network.c:761-764 | EL discards the line so far. |
| Telnet.LineRoundTrip | src/network.c:745-748 | A text of printing ASCII and bytes above 127, with its IACs doubled, arrives as it was. |
| Telnet.TooLong | src/network.c:690-696 | A line that overruns the buffer, and one of the same length that is cut off. |
| Pending.CutChain | src/pending.c:109-120 | Cutting an element out keeps the list linked in both directions. |
| Pending.InsChain | src/pending.c:123-134 | Inserting before a handle keeps the list linked in both directions. |
| Pending.Pool.constructor | src/pending.c:60-81 | All offers are free, the live list is empty. |
| Pending.Pool.FreeOffer | src/pending.c:98-107 | A withdrawn offer moves from the live list to the free one; the remembered end is forgotten if it was its. |
| Pending.Pool.Add | src/pending.c:137-145 | The new offer becomes the last of the live list, wherever the remembered end was. |
| Pending.Pool.New | src/pending.c:148-162 | A new offer says what it was given and stands behind all others, for exactly the searches whose sender, receiver and kind are its own or any; null if and only if the free list is empty. |
| Pending.Pool.Delete | src/pending.c:171-181 | The offer is taken out of what every search finds, and nothing else; the lists are as before. |
| Pending.SelectMarked | src/pending.c:164-181 | Withdrawing an offer takes it out of what any search finds, and nothing else. |
| Pending.RemainingIs | src/pending.c:164-181 | What remains of a list of different offers when one goes is the part before it and the part behind it. |
| Pending.Pool.Find | src/pending.c:184-210 | The oldest standing offer that matches; what any search finds is the same after it. |
| Pending.Pool.Next | src/pending.c:212-240 | The oldest match behind a given offer, even if that was withdrawn meanwhile; what any search finds is the same after it. |
| Pending.Pool.Count | src/pending.c:242-263 | The number of standing offers that match; withdrawn ones are free after it. |
| Pending.Pool.Visit | src/comproc.c:3547-3549 | A loop over the matching offers visits each once, oldest first, even if the offer just found is withdrawn before the next is asked for. |
| Pending.Pool.Withdraw | src/playerdb.c:1459-1467 | Withdrawing the first match until there is none withdraws all matches and nothing else. |
| Mailer.CodedTwice | src/mailer.c:337-395 | What is sent does not depend on where the text is cut into calls. |
| Mailer.Transparent | src/mailer.c:318-395 | A receiver gets the text without CR and with CR LF for LF, ends at the final dot and not before, and takes nothing of what follows. |
| Mailer.LineCoded | src/mailer.c:352-366 | A line is sent as it is, with a dot before it if it starts with one, and CR LF behind it. |
| Mailer.MessageEnds | src/mailer.c:347-351 | A line end is added to a message if and only if its last character that is no CR is no LF. |
| Mailer.WrittenWhenFull | src/mailer.c:367-375 | The buffer is written as soon as it holds 510 bytes, and what the write does not take stays. |
| Mailer.Silent | src/mailer.c:352-366 | Nothing is sent for a text if and only if it has nothing but CR. |
| Mailer.LoneReturn | src/mailer.c:357-358 | A single CR is such a text. |
| Mailer.Stream.WrapLine | src/mailer.c:337-395 | What was sent and what is in the buffer is the code of the text so far, also with partial writes; the buffer is overrun if and only if a character does not fit at the level that the given write results leave, and otherwise a call fails if and only if one of its writes does; the result is -1 without either if and only if there was nothing to write. |
| Mailer.OverrunsExactly | src/mailer.c:337-395 | Some text overruns the buffer if and only if two writes take one byte each and those between them two. |
| Mailer.ThreeLineEnds | src/mailer.c:337-395 | From 509 bytes three line ends overrun the buffer if both writes take one byte, and do not if the second takes two. |
| Mailer.Stream.AddData | src/mailer.c:318-334 | A text is passed on whole, unless a write fails or the buffer is overrun, which is told exactly. |
| Mailer.Stream.AddEnd | src/mailer.c:322-326 | The line is ended if it has begun, then comes the dot; everything has then been sent in this order if and only if the buffer is empty and the dot was taken whole. |
| Mailer.Stream.Mail | src/mailer.c:602-607 | When writes take all they are given, a message is sent whole if and only if no non-empty chunk is CR only, and the receiver then gets exactly its text. |

## Left out

- GoGame.Game.Play: with the check for repetition it is stated for games whose position agrees with the history, and not for searches back over a handicap entry.
- GoGame.Game.Superko: does not cover searches that would go back over a handicap entry at move 0, where the code would replay the entry as a move at a negative point.
- GoGame.Game.Back: is stated for games whose position agrees with the history, so not directly after a removal without a replay.
- GoGame.Game.SetHandicap: takes handicaps from 0 up, on boards that the table of handicap points fits; for others the code would play at border points.
- GoSave.LoadGame: reads only what was saved, on boards up to 25 by 25; the code does not check that the points of an arbitrary text are on the board.
- GoSave.SaveGame: without the comments of observers, and with the handicap in the form used when there is no move information.
- Allocator.Arena.Malloc: requests are those that `Allocator.RequestsExactly` lets through; larger ones would wrap around or never end. A heap of 4 GB or more is excluded.
- Allocator.Arena.Realloc: the prediction is stated for a heap that has been used; before the first allocation the code predicts null.
- IpBan.BanList.Add: ranges from 1 to the largest address but one; `IpBan.BanList.AddAtEnd` has the others.
- IpBan.BanList.AddAtEnd: a range up to the largest address that starts where a stored one does replaces whatever hangs below that one, so what is lost depends on the arbitrary rotations; no result is promised for it.
- Search.BoyerMoore.Find: characters of 7 bits and patterns that are not empty, as the table is indexed with a signed character.
- Evaluation order: where C leaves the order of the recursive calls in `1+capture()+...` and `findowner|findowner` open, the model goes from left to right.
- The overlapping move of `realloc` (memory/malloc.c:702) relies on `memcpy` copying in ascending order, which C leaves undefined; `Allocator.Arena.CopyWords` does so.
- `rand()` in the ban tree is an arbitrary choice; the Zobrist table is an arbitrary function.
- Growing of the log and the history by reallocation: both are sequences.
- Printing and display of boards and moves, reading a position without moves (`mink_loadpos`), reading moves typed by a player, komi.
- `sbrk` itself, giving memory back to the system, `calloc`, statistics; memory grows contiguously up to a limit, and alignment is that of a two-word type on 32 bits.
- The first word below the heap is not looked at when the first block is freed: it is taken not to be a free block.
- Sockets, `select`, accepting and closing connections, throttling of output; what a command does.
- The dialogue with the mail server around the data, and what a failed write leaves in the static buffer for the next connection.
- Command handlers, player and configuration files, ladders, ratings and languages: routine or outside the logic of one component.
