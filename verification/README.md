# The PET debugger and its two games, in Dafny

This project models the algorithmic cores of a Commodore PET debugging toolkit
and of two games shipped with it, and proves what they promise.

**The run/stop protocol.** `Protocol` is the frame format of the VICE binary
monitor protocol, API version 2, and `Wire` spells its bytes out field by field. `Vice` is the emulator as an explicit
nondeterministic step machine: one stream of frames in order, every command
halts the CPU, EXIT starts it, a stop of a checkpoint is reported and holds the
machine until the next EXIT. `Demux` and `Monitor` are the client that tells
replies from unasked events over a stream cut into arbitrary chunks. `Arrivals`,
`Daemon` and `Ops` are the loops that count arrivals at an address, the daemon
that remembers whether the machine should run, and the client-side operations.
The clock, the slicing of time, the cutting of the stream and everything VICE may
do between two commands are nondeterministic choices; when a waiting client is
found gone is an input, and a receive that finds nothing lasts as long as it was
given patience for. The central argument is a ledger: for every checkpoint, hits
still to be read never outnumber stops that fired since the last start.

**The maze world.** `Maze`, `Validator`, `Packing` and `FruitPaths` are the
host-side validator and packer; `Track`, `Player`, `Engine`, `FruitRoute`,
`FruitRun`, `GhostMath` and `Ghosts` are the 6502 code that relies on them;
`Synthetic` is the map of the validator's own tests, as a witness.
Bytes wrap explicitly where the arithmetic is the point. Parallel byte arrays
indexed by actor are one array of records. The theorems cross the boundary: what
the validator accepts is what keeps actors out of walls, the fruit on its route
and the ghosts out of the forced reverse.

**The invaders.** `March` is the one-alien-per-tick march, `Score` the two-byte
score and its decimal picture.

Some fields (the frames in flight and received, the machine's records of stops,
commands and starts, the trail trodden, the formation's origin) exist only to state
what happened; no branch depends on them.

## What was found

- The validator does not check what lies above and below the start cells, but a
  player parked there may set off up or down while straddling two columns. It is
  harmless if and only if those cells are wall (`Player.StartMustBeClosed`;
  `Synthetic.OpenStartFails` is an accepted maze where they are not); in the four
  shipped mazes they are.
- Cornering out of a mouth, or while hidden in the void, is possible only where
  two tunnel rows touch, which the validator allows; `Player.SteerKeepsTrack`
  gives the exact condition, `Synthetic.TouchingMouthsFail` an accepted maze where
  it fails, and no shipped maze has touching tunnel rows.
- When the player vanishes into a tunnel the landing code repaints her at the far
  mouth at once, although she is hidden and has no footprint. After such a tick
  the screen shows the maze state if and only if another actor covers that mouth
  or the glyph is a space, which no chomp frame is (`Engine.Engine.PlayerTick`);
  `Synthetic.FarMouthPainted` is a play where it does not, and the screen theorems
  over whole runs carry that one exception.
- A run of zero cells in a fruit path, which the validator accepts, would wrap the
  step counter if the fruit moved in the jiffy that loads it. At the fruit's speed
  that cannot happen, because no route has more than five such runs in a row.
- The random choice of a fruit mouth is in range if and only if there are at least
  two mouths.
- The comment that the last timer of the scatter and chase clock reloads itself
  after about 17 minutes is not what the code does: its high byte is never
  decremented, so it never expires.
- The run queue of the fruit is never more than 19 entries long.

## Model

| member | source | states |
|---|---|---|
| Protocol.FrameDecoder.Feed | src/petlib/protocol.py:98-111 | After a feed the buffer holds exactly the bytes that complete no frame, and the frames returned are those the old buffer and the new bytes decode to; a wrong start byte is an error. |
| Protocol.ChunkingIsInvisible | src/petlib/protocol.py:92-111 | Cutting a stream into any chunks gives the same frames in the same order and the same leftover bytes as feeding it whole. |
| Protocol.DecodeOfEncodeAll | src/petlib/protocol.py:98-111 | Decoding the concatenation of any encoded frames, followed by any incomplete bytes, gives back exactly those frames and leaves exactly those bytes. |
| Protocol.DecodeOfPrefix | src/petlib/protocol.py:101-111 | From any prefix of a well-formed stream the decoder takes a prefix of its frames, never fails, and keeps the bytes that continue into the rest. |
| Protocol.CheckpointRoundTrip | src/petlib/protocol.py:199-234 | Parsing the 23-byte checkpoint record of any checkpoint gives back every field. |
| Protocol.RegistersRoundTrip | src/petlib/protocol.py:148-165 | Reading the body built by registers_set, without its memspace byte, gives back the register values, later entries of the same register winning. |
| Protocol.ParseRegistersGet | src/petlib/protocol.py:148-158 | The loop over a register body reads item by item, stepping by each item's own size, and fails only when the body is too short. |
| Protocol.LongItemsRead | src/petlib/protocol.py:148-158 | Items longer than three bytes read the same: each is stepped over by its own size byte. |
| Wire.FrameLayout | src/petlib/protocol.py:19-19 | A frame on the wire is start byte 2, version 2, the body length, type, error code, request number and body, numbers little-endian, each at its offset. |
| Wire.CheckpointLayout | src/petlib/protocol.py:199-234 | The checkpoint record is 23 bytes with every field at its own offset, numbers little-endian and flags 0 or 1. |
| Wire.CheckpointSetLayout | src/petlib/protocol.py:218-224 | The body that sets a checkpoint is range, stop, enabled, operation and temporary in 8 bytes. |
| Wire.MemorySetLayout | src/petlib/protocol.py:121-126 | The body that writes memory has the first and last address in bytes 1 to 4, no side effects, space and bank 0, and the data from byte 8 on. |
| Wire.RegistersLayout | src/petlib/protocol.py:148-165 | A register list is its length, then per register the item size 3, the id and the value, wherever in the list it stands. |
| Wire.GetReads | src/petlib/protocol.py:148-158 | The two- and four-byte readers give the number spelled lowest byte first. |
| Demux.TakeFinds | src/petlib/monitor.py:114-124 | The answer is the first frame with the request's own id that is not of the collected type; the collected frames are the own frames before it in order; all other frames stay in order. |
| Demux.TakeFindsNone | src/petlib/monitor.py:114-124 | Without a final response every frame of the own id was collected and nothing else was taken from the pending list. |
| Demux.TakeAppend | src/petlib/monitor.py:113-134 | Scanning what has arrived, then scanning the leftovers together with what arrives next, gives what one scan of everything would have given. |
| Demux.AnswerIsFromReplies | src/petlib/monitor.py:109-124 | However replies, events and other requests' frames interleave, an answer found is the one VICE's own replies to this request yield: a late reply to another request is never taken. |
| Demux.NothingOlderIsLeft | src/petlib/monitor.py:113-134 | Once the answer is in hand, whatever is still under way was sent after the replies to this request. |
| Demux.FilterOne | src/petlib/protocol.py:83-85 | Which frames are events, replies and of one request: with the additivity of the filters this settles them for every stream. |
| Demux.CapKeepsNewest | src/petlib/monitor.py:66-66 | The event queue holds the newest 256 events and all of fewer. |
| Monitor.MonitorClient.Transact | src/petlib/monitor.py:99-134 | A command gets a fresh id and its own answer or error; events received meanwhile are appended in order up to the 256 most recent, other replies stay pending, nothing else is lost; and the answer tells the machine state in which VICE processed the command. |
| Monitor.MonitorClient.Scan | src/petlib/monitor.py:114-124 | One pass over a snapshot of the pending list removes exactly this request's frames up to its final response, in place. |
| Monitor.MonitorClient.Await | src/petlib/monitor.py:111-134 | The receive loop ends with the final response, with a closed connection, or timed out with at least the whole time-out passed, and conserves every frame received. |
| Monitor.MonitorClient.Recv | src/petlib/monitor.py:127-134 | A receive that finds nothing took all of its patience; otherwise the connection is closed, or frames arrive, the oldest first, and the rest stays under way. |
| Monitor.MonitorClient.Resume | src/petlib/monitor.py:155-160 | Queued events are dropped first; then EXIT starts the machine as it stood when the command arrived, and every hit still to be read is one that fired. |
| Monitor.MonitorClient.CheckpointSet | src/petlib/monitor.py:228-236 | The checkpoint returned is the one VICE created, with the number next in its table; the machine is left halted. |
| Monitor.MonitorClient.CheckpointDelete | src/petlib/monitor.py:238-239 | On success the checkpoint is gone from VICE's table, nothing else in it changed, and the machine is left halted. |
| Monitor.MonitorClient.CheckpointList | src/petlib/monitor.py:244-248 | The list returned is VICE's whole checkpoint table, in order, at the moment the command was processed; the machine is left halted and no hit is under way. |
| Monitor.MonitorClient.Registers | src/petlib/monitor.py:174-177 | The whole register file returned is the machine's, by register id, the program counter among it; the machine is left halted and otherwise as it was. |
| Monitor.MonitorClient.MemoryWrite | src/petlib/monitor.py:150-153 | The bytes given go to the addresses from start on and nowhere else; the machine is left halted. |
| Monitor.MonitorClient.SetRegister | src/petlib/monitor.py:179-183 | That register takes the value, the stack pointer its low byte, and no other register changes; the machine is left halted. |
| Monitor.MonitorClient.PollEvents | src/petlib/monitor.py:266-293 | Returns the queued events followed by those received, in arrival order, replies going to the pending list; the queue ends empty. It ends before its window is over only with an event in hand when one is enough, or when the connection closes. |
| Monitor.MonitorClient.WaitForStop | src/petlib/monitor.py:295-308 | A stop reported has the pc of the first STOPPED among the events queued and received, and the checkpoint of the last hit before it, and the queue ends empty; none is reported only when the window is over, and then no STOPPED was among them or nothing was read. A stop reported with checkpoint n consumed a hit of n that was unread, and without one no hit is invented. |
| Monitor.LastHitMeaning | src/petlib/monitor.py:303-308 | The checkpoint reported is that of the last hit among the events before the stop, and none if there is none. |
| Monitor.Concludes | src/petlib/monitor.py:99-134 | Over a whole conversation the ledger of fired stops against unread hits never loses: events may be dropped, but none is counted twice. |
| Monitor.PollHits | src/petlib/monitor.py:303-308 | Reporting the hit seen last before the first STOPPED accounts for one fired stop of that checkpoint, whatever was dropped behind it. |
| Vice.Vice.Process | src/petlib/monitor.py:110-110 | The environment: time passes, then VICE processes one command and its reply frames follow, in order, everything sent before them. |
| Vice.DriftOne | src/petlib/daemon.py:209-223 | Between commands a checkpoint either stays as it is or stops the running machine exactly once, counting it and raising its hit flag; an exec checkpoint inside its range, a load or store checkpoint anywhere. |
| Vice.StopReport | src/petlib/monitor.py:303-308 | A stop is reported by exactly one hit event for each checkpoint that caused it. |
| Vice.OnlyExitStarts | src/petlib/monitor.py:155-160 | Of all commands EXIT alone starts the machine, from where it is and with the hit flags cleared; every other leaves it halted, and only setting and deleting change the checkpoint table. |
| Arrivals.TrackingDrifts | src/petlib/daemon.py:209-223 | Whatever happens between two starts, the followed checkpoint has fired no more, or once more and holds the machine at its address. |
| Arrivals.Plant | src/petlib/daemon.py:205-205 | A fresh exec checkpoint, with the number that was next and never fired, is set at that address alone and the machine halted. |
| Arrivals.Look | src/petlib/daemon.py:216-227 | One look for an arrival, by the hit event or by the durable flag or count: it says yes exactly when the checkpoint has stopped the machine once more, and then the machine is halted at the address; otherwise it is halted as if never started. |
| Arrivals.Harvest | src/petlib/daemon.py:229-232 | After the last arrival the registers read are the machine's, the checkpoint is gone and the machine is halted where it was. |
| Arrivals.Withdraw | src/petlib/daemon.py:211-215 | Giving up deletes the checkpoint, which has fired as often as was counted or once more, leaves every other checkpoint, and starts the machine unless it is left to another. |
| Daemon.PetDaemon.RunUntil | src/petlib/daemon.py:193-232 | The checkpoint is the one whose number was next, and no other is set or deleted. On success it fired exactly count times, the machine is halted at the address with its registers returned, and it is gone. Otherwise it fired reached or reached + 1 times and is gone, and either the time-out has passed and the last command sent is EXIT, or the client was found gone at a look of this run. |
| Daemon.PetDaemon.AwaitArrival | src/petlib/daemon.py:209-228 | Told by a fresh hit event or by the durable flag or count in the list, exactly one more arrival is recognised, halted at the address; it gives up only past the deadline or when a look finds the client gone. |
| Daemon.PetDaemon.PumpViceEvents | src/petlib/daemon.py:83-104 | The idle pump sends no command, polls exactly what was queued and what the wire delivered meanwhile, ends in the state the last STOPPED or RESUMED of it tells, and keeps those events; it fails only when VICE is gone. |
| Daemon.LastSaidMeaning | src/petlib/daemon.py:95-103 | The pump ends RUNNING if and only if some RESUMED has no STOPPED after it, or it was running and no STOPPED came. |
| Daemon.PetDaemon.Restore | src/petlib/daemon.py:234-265 | It polls what was queued and what arrived up to a point of the stream, parks exactly when that has a hit with no later RESUMED, never turns a stopped state into running, and sends EXIT exactly when the resulting state is running; parked, it keeps all that it polled. Only with VICE gone does it do nothing. |
| Daemon.ParksMeaning | src/petlib/daemon.py:251-260 | A restore parks if and only if some checkpoint hit has no RESUMED after it. |
| Daemon.PetDaemon.Dispatch | src/petlib/daemon.py:153-175 | Verb by verb: status reports the state and changes nothing; release is a restore; resume sends one EXIT and sets it running; waiting sends nothing, reports a stop exactly as the events tell it, sets it stopped with it, and gives up only when its window is over or the client is gone; inspection sends its own command and hands on VICE's own answer to it; step and finish send theirs, finish then waits for a stop or out its time-out, both read the registers and set it stopped on success; quit sends QUIT and fails only when VICE refuses; run_until keeps its own promise. |
| Daemon.PetDaemon.AwaitStop | src/petlib/daemon.py:177-191 | Waiting sends no command. A stop reported is the first STOPPED read, with its pc and the checkpoint of the last hit before it in the slice that read it, and sets the state stopped; without one no STOPPED was read, and the window is over or a look found the client gone. |
| Daemon.PetDaemon.Handle | src/petlib/daemon.py:108-151 | A session is its requests answered one after the other up to the first that ends the daemon, a lost connection or an accepted quit; without one all are answered, refusals included, and the machine is then put back as by a restore. |
| Daemon.PetDaemon.Serve | src/petlib/daemon.py:55-81 | A run of idle pumps and clients leaves a history, from the daemon and machine before to those after, one moment per activity: an idle pump sends nothing and ends as the events it polled tell, and each client is a session handled as above. It ends early only when VICE is gone or a session ends the daemon. |
| Daemon.ParkedStaysParked | src/petlib/daemon.py:55-151 | In every history a parked machine receives no EXIT and stays parked until a client asks to run or an idle pump is told last that it runs. |
| Daemon.HandledQuiet | src/petlib/daemon.py:108-175 | A whole session that never asks to run leaves a parked machine parked and sends no EXIT, its refusals, releases and disconnect included. |
| Daemon.ServedRunning | src/petlib/daemon.py:108-175 | After any session, whatever was asked, a state of running means that the last command sent is EXIT: no client leaves a machine that should run frozen. |
| Ops.RunUntilClient | src/petlib/ops.py:270-293 | The client-side loop has the same exact count, halt and cleanup as the daemon's; it gives up only when the time-out has passed, and then the last command sent is EXIT. |
| Ops.AwaitHit | src/petlib/ops.py:275-287 | True exactly after one more stop of the followed checkpoint, halted at its address; false only past the deadline. |
| Ops.WaitForBreak | src/petlib/ops.py:156-195 | What is reported is a checkpoint, watchpoints included, that holds the machine halted with its hit flag set, of the number asked for, and the whole register file of the machine there; none is reported only when the time-out has passed, the machine was started, and no checkpoint asked for was passed over: none held it at first, and one that fired meanwhile did so once, after the last start, and still holds it. |
| Ops.CallRoutine | src/petlib/ops.py:203-248 | The machine is started on what was met with the return address less one in the two bytes at and below the stack pointer, high byte first, the stack pointer two lower, A, X and Y as given and no other register or byte changed, and the pc at the routine. When the routine returns the machine is halted at the trap, the checkpoint set for it fired exactly once and is gone; otherwise the time-out has passed, it is gone and the last command sent is EXIT. |
| Ops.Prepare | src/petlib/ops.py:217-231 | Register by register and byte by byte: registers 0, 1 and 2 take A, X and Y where given, register 4 is two lower, the two stack bytes hold the return address less one, the pc is the routine's, and the halted machine is otherwise as it was. |
| Ops.AllGiven | src/petlib/ops.py:217-231 | Setting the registers one after the other leaves each with the value given for it, and every other register alone. |
| Ops.ReturnsToTrap | src/petlib/ops.py:220-225 | For every stack pointer and trap, wrapping included, the routine's own RTS lands on the trap with the stack pointer restored. |
| Ops.FindBytes | src/petlib/ops.py:336-352 | The matches are all the addresses where the pattern occurs, overlaps included, in order and up to the limit; truncated exactly when some are missing. |
| Maze.Flood | demos/muncher/tools/mazecheck.py:234-242 | The worklist terminates and ends with exactly the cells reachable from the start by open neighbours, tunnels wrapping. |
| Maze.NeighbourMeaning | demos/muncher/tools/mazecheck.py:214-224 | The neighbour list holds exactly the cells one step in some direction leads to. |
| Maze.NeighbourCount | demos/muncher/tools/mazecheck.py:214-224 | The neighbour list has one entry for each direction that leads on, so a dead end is a cell with fewer than two. |
| Maze.StepMeaning | demos/muncher/tools/mazecheck.py:214-224 | One step leads up, left, down or right to the next cell unless that is wall, door or house or beyond top and bottom, and sideways off a tunnel row to the other side of that row. |
| Maze.CodeMeaning | demos/muncher/tools/mazecheck.py:23-24 | The codes of the map: dots 1, energizers 2, walls 3 and everything else 0. |
| Validator.Validate | demos/muncher/tools/mazecheck.py:165-263 | Accepts if and only if the map satisfies every rule; the report then lists its energizers and counts its dots. |
| Validator.ValidateText | demos/muncher/tools/mazecheck.py:154-263 | From the lines of a file: accepted if and only if the non-blank lines are 25 rows of 28 known characters obeying every rule; misshapen input is told apart. |
| Validator.CheckSymmetry | demos/muncher/tools/mazecheck.py:169-172 | No problem exactly when every cell equals its mirror image. |
| Validator.CheckSides | demos/muncher/tools/mazecheck.py:179-185 | No problem exactly when the side columns show a mouth on every tunnel row and a wall elsewhere. |
| Validator.CheckHouse | demos/muncher/tools/mazecheck.py:191-209 | No problem exactly when house walls, door, interior, the cells above the door and the start are as prescribed. |
| Validator.CheckDeadEnds | demos/muncher/tools/mazecheck.py:226-232 | No problem exactly when every corridor cell has two open neighbours. |
| Validator.CheckReachable | demos/muncher/tools/mazecheck.py:234-247 | No problem exactly when every pellet listed is reachable from the start. |
| Validator.CheckPellets | demos/muncher/tools/mazecheck.py:249-258 | No problem exactly when there are four energizers, all in columns 1 or 26, and the dots are within tolerance of the target. |
| Validator.CellsInOrder | demos/muncher/tools/mazecheck.py:249-256 | The lists of dots and energizers name each cell once, row by row. |
| Packing.FlatRoundTrip | demos/muncher/tools/mazecheck.py:266-282 | Unpacking undoes packing for every list of 2-bit cells whose length is a multiple of four, at a quarter of the length. |
| Packing.MazeRoundTrip | demos/muncher/tools/mazecheck.py:266-282 | Every 25 by 28 grid of 2-bit cells survives packing and unpacking, in 175 bytes. |
| Packing.Pack | demos/muncher/tools/mazecheck.py:266-274 | The nested loops put each group of four cells into one byte, first cell lowest. |
| Packing.Unpack | demos/muncher/tools/mazecheck.py:277-282 | The nested loops give the grid of the cells taken two bits at a time, short input leaving short rows. |
| Packing.RowsMeaning | demos/muncher/tools/mazecheck.py:277-282 | Row y of the grid holds the cells from 28y on, as many as there are. |
| Packing.UnpackMaze | demos/muncher/inc/mazes.s:41-81 | The game's unpacker, shifting each byte down in place, writes the very cells the host's unpacker gives and counts the dots in a byte pair. |
| Packing.PackedBits | demos/muncher/tools/mazecheck.py:266-274 | The first of each four cells lies in the lowest two bits, the last in the highest. |
| Packing.CountIsOfDots | demos/muncher/inc/mazes.s:41-81 | The count is the number of places that hold a dot; energizers do not count. |
| Track.CanMoveMeaning | demos/muncher/inc/engine.s:111-160 | On a sealed maze canmove answers for the cell the step would enter, and the only cells off the map are reached sideways from a mouth. |
| Track.HouseSealed | demos/muncher/tools/mazecheck.py:191-205 | From outside, the only way into the house is down through the door from row 9. |
| Track.StepKeepsTrack | demos/muncher/inc/engine.s:42-109 | One accumulator tick keeps every actor on its track: in range, at most one coordinate odd and turned along it, both straddled cells open to it, hidden only in a mouth with no footprint. |
| Track.StepSays | demos/muncher/inc/engine.s:42-109 | A tick in numbers: a pause runs down by one; otherwise the speed is added and an overflow moves the actor half a cell its way, from a centre only into an open cell and for the player not into the door; out of a mouth it is moved to the other with nothing drawn, hidden for four half-cells and then drawn; a half-step records one cell at a centre and two between. |
| Track.ProceedKeepsTrack | demos/muncher/inc/engine.s:58-109 | The half-step itself keeps the track, tunnel exits re-emerging on an open mouth included. |
| Track.TurnKeepsTrack | demos/muncher/inc/player.s:95-126 | A turn at a centre or a reversal anywhere keeps the track. |
| Track.CornerKeepsTrack | demos/muncher/inc/player.s:117-126 | The free half-step of a corner stays on the track if and only if the cell turned into is on the map. |
| Track.AcceptedIsSealed | demos/muncher/tools/mazecheck.py:174-209 | Every accepted maze, whatever has been eaten, is sealed as the engine needs: top and bottom walled, mouths in pairs, house walled. |
| Player.SteerKeepsTrack | demos/muncher/inc/player.s:85-126 | Steering keeps the player on her track if and only if it does not start her across the axis she straddles, corner while hidden, or corner off the map. |
| Player.SteerSays | demos/muncher/inc/player.s:85-126 | A key in numbers: a reversal counts at once, parked she starts off where the way is open, a turn across at a centre with the way open takes her half a cell into the new direction, and every other key changes nothing. |
| Player.StartMustBeClosed | demos/muncher/inc/player.s:18-25 | Parked at the start she may turn up or down safely if and only if the cell there is wall. |
| Player.TickPlays | demos/muncher/inc/player.s:85-138 | Where the start is walled above and below and no two mouths touch, a whole player tick at any speed and key keeps her on the track. |
| Player.AcceptedIsRoomy | demos/muncher/tools/mazecheck.py:174-209 | An accepted maze with those two properties gives the engine all that the player needs. |
| Synthetic.SyntheticAccepted | demos/muncher/tools/test_mazecheck.py:14-53 | The map the validator's tests start from is accepted for every choice of tunnel rows and with the start walled in or not. |
| Synthetic.OpenStartFails | demos/muncher/inc/player.s:18-25 | There is an accepted maze on which the player parked at the start and told to go up leaves her track. |
| Synthetic.TouchingMouthsFail | demos/muncher/inc/player.s:95-126 | There is an accepted maze with two tunnel rows touching on which going up from one mouth to the other and then out sideways puts the player off the map. |
| Synthetic.WalledPlays | demos/muncher/tools/test_mazecheck.py:14-53 | With the start walled in and no two tunnel rows touching the same map meets every condition play needs. |
| Synthetic.VanishingTick | demos/muncher/inc/player.s:132-186 | A player centred in the left mouth and walking out is hidden at the right mouth after one tick. |
| Synthetic.FarMouthPainted | demos/muncher/inc/player.s:132-209 | On that accepted maze, with nobody else in play, walking out by a mouth leaves a screen that does not show the maze state, for any glyph but a space. |
| Engine.EraseKeepsFaithful | demos/muncher/inc/engine.s:232-283 | Erasing redraws from the maze state, so even with overlapping actors every cell outside the remaining footprints shows its true glyph. |
| Engine.DrawKeepsFaithful | demos/muncher/inc/engine.s:162-230 | Drawing an actor whose footprint is erased disturbs nothing outside the footprint it records. |
| Engine.EatKeepsFaithful | demos/muncher/inc/player.s:145-209 | Eating a cell and repainting it keeps the picture faithful where she has a footprint there; otherwise with at most that one cell excepted. |
| Engine.PaintShows | demos/muncher/inc/player.s:145-209 | Painting a cell she does not cover keeps the whole picture faithful if and only if another footprint covers it or the glyph is the one the maze state prescribes. |
| Engine.WallsUntouched | demos/muncher/inc/engine.s:285-325 | Wall cells and everything beside the maze still show their first glyph. |
| Engine.Engine.EraseBlob | demos/muncher/inc/engine.s:236-283 | In place: each vacated cell shows 46 on a dot, 81 on an energizer, the lintel 64 at the door, else 32, no other cell of the screen changes, the footprint is cleared and the picture stays faithful. |
| Engine.Engine.DrawBlob | demos/muncher/inc/engine.s:163-230 | In place: the glyph at a centre, between two cells the two half blocks that join across their edge, swapped in reverse video; no other cell changes, the footprint is recorded and the picture stays faithful. |
| Engine.Engine.ForceStep | demos/muncher/inc/engine.s:98-109 | Erase, half a cell further, draw: the actor array changes in that one entry and the picture stays faithful. |
| Engine.Engine.StepActor | demos/muncher/inc/engine.s:43-94 | One tick of one actor changes only its entry, to the value one step prescribes, and keeps the picture faithful. |
| Engine.Engine.CanMoveDir | demos/muncher/inc/engine.s:117-160 | The byte lookup decides exactly whether the next cell may be entered. |
| Engine.Engine.Steer | demos/muncher/inc/player.s:95-126 | Where steering is safe the latched key is applied in place with the picture kept faithful. |
| Engine.Engine.PlayerTick | demos/muncher/inc/player.s:85-209 | A player tick keeps the whole invariant; the maze loses exactly the dot or energizer landed on, no wall changes, and the cell landed on shows the glyph. In a tick that hides her the screen still shows the maze state everywhere if and only if another actor covers the far mouth or the glyph is a space. |
| Engine.Engine.Land | demos/muncher/inc/player.s:145-209 | Landing clears a dot or energizer under her and no other, makes her pause one jiffy for a dot and three for an energizer, and writes the glyph to that one screen cell; without a footprint there the screen shows the maze state if and only if someone covers the cell or the glyph is right for it. |
| Engine.TickSays | demos/muncher/inc/player.s:85-209 | A whole tick is the key, then the step, then a landing exactly when the step took her to another place that is a centre. |
| Engine.TickShows | demos/muncher/inc/player.s:132-186 | A tick that lands either draws her where she lands or hides her in the far mouth with no footprint; no other tick hides her, and when she appears again she covers that mouth. |
| Engine.Engine.Run | demos/muncher/inc/engine.s:42-109 | Any interleaving of player ticks, steps, turns, erasures and entries of eight actors goes scene by scene as the actions say, each changing its own actor and no other; every actor stays on its track and the screen shows the maze state outside the footprints and the far mouth of a hidden player. |
| Engine.Engine.EraseAll | demos/muncher/inc/engine.s:232-283 | Erasing all actors in any order leaves every cell that is no wall showing 46, 81, 64 or 32 by the maze state, walls and surroundings as first drawn, but for the far mouth of a hidden player. |
| Engine.Engine.DrawMaze | demos/muncher/inc/mazes.s:160-206 | The first drawing puts the dots, energizers, lintel and spaces of the maze in its columns and rows, some glyph on each wall, and touches nothing beside it. |
| Engine.RenderedIsFirst | demos/muncher/inc/engine.s:285-325 | Redrawing a cell from the maze state gives back what the first drawing put there, wherever nothing was eaten. |
| Engine.Engine.WallsNeverWritten | demos/muncher/inc/engine.s:285-325 | At every point of a run each wall cell and each cell beside the maze shows its first glyph. |
| Engine.PlayBoard | demos/muncher/tools/mazecheck.py:165-263 | Acceptance carries over: on an accepted roomy maze, in any wall style, any play from the first drawing goes scene by scene as its actions say and keeps the engine's invariant. |
| FruitPaths.Walk | demos/muncher/tools/mazecheck.py:94-105 | Succeeds exactly when every cell stepped into is corridor, with the end of the walk. |
| FruitPaths.ValidateFruitPaths | demos/muncher/tools/mazecheck.py:108-124 | Accepts exactly the path sets in which every path walks corridors from a tunnel mouth to its ring corner and the four cycle segments close the ring. |
| FruitPaths.BackTrail | demos/muncher/inc/fruit.s:197-219 | Steps in reverse order with directions flipped visit the same cells in reverse order and end where the walk began. |
| FruitPaths.BackWalks | demos/muncher/inc/fruit.s:197-219 | Reversing runs and flipping directions undoes a corridor walk within the corridors. |
| FruitPaths.UnitsBack | demos/muncher/inc/fruit.s:202-219 | Reversing whole runs is reversing the walk cell by cell. |
| FruitRoute.RouteIsConnected | demos/muncher/inc/fruit.s:156-219 | For any two mouths the compiled route is one corridor walk: to the entry corner, a lap of 26 steps that passes the four ring corners in order and no cell twice, on around the ring to the exit corner, and the exit path backwards out to exactly the exit mouth. |
| FruitRoute.CompiledRoute | demos/muncher/inc/fruit.s:138-219 | For every accepted maze and path set with at least two mouths and every two random bytes the route joins two of its mouths, with its lap and its four parts as above, from records the game reads back unchanged, in at most 19 runs. |
| FruitRoute.RouteQueue.Compile | demos/muncher/inc/fruit.s:138-219 | The compiler's loops leave exactly that route in the queue arrays, which never overflow their 20 entries. |
| FruitRoute.RouteQueue.AddPath | demos/muncher/inc/fruit.s:259-282 | Appends a record's runs forward. |
| FruitRoute.RouteQueue.AddPathBack | demos/muncher/inc/fruit.s:197-219 | Appends a record's runs last to first with directions flipped. |
| FruitRoute.RouteQueue.AddLap | demos/muncher/inc/fruit.s:170-182 | Appends the four cycle segments from a corner back to it, the lap proved to pass every corner once. |
| FruitRoute.LapCircles | demos/muncher/inc/fruit.s:168-182 | The first j runs of a lap end at the j-th next corner, the lap has 26 steps, and its cells are pairwise distinct but for first and last. |
| FruitRoute.RouteGoesAround | demos/muncher/inc/fruit.s:156-219 | In every maze the route is the entry runs, the lap, the sides on to the exit corner one by one, and the exit runs last to first, each undoing its own steps. |
| FruitRoute.RouteQueue.AddAround | demos/muncher/inc/fruit.s:183-195 | Appends the segments from one corner on to another, none when they are the same. |
| FruitRoute.RecordRoundTrip | demos/muncher/tools/mazecheck.py:137-143 | The 16-byte record gives back start, corner and runs. |
| FruitRoute.RecordLayout | demos/muncher/tools/mazecheck.py:137-143 | Byte by byte: start column and row, corner, number of runs, and each run as direction and length in its place. |
| FruitRoute.PickIsModulo | demos/muncher/inc/fruit.s:138-152 | A mouth is picked by the two lowest random bits, reduced once by the number of mouths where that is too large. |
| FruitRoute.AcceptedEmits | demos/muncher/tools/mazecheck.py:127-143 | Every accepted path of at most six runs fits the record: no run is longer than the maze. |
| FruitRoute.PickInRange | demos/muncher/inc/fruit.s:138-152 | Two random bits reduced once by the number of mouths always name an existing mouth if and only if there are at least two. |
| FruitRoute.RingCloses | demos/muncher/tools/mazecheck.py:60-61 | Each side of the cycle ends at the next corner, so the ring closes. |
| FruitRun.Spawn | demos/muncher/inc/fruit.s:138-236 | A spawned fruit is parked and drawn at the first mouth, reversed, with no direction and speed 40, and with the route to the second. |
| FruitRun.RouteFewZeros | demos/muncher/inc/fruit.s:156-219 | No accepted route has more than five runs of no cells in a row. |
| FruitRun.StepFollows | demos/muncher/inc/fruit.s:55-74 | With cells left to walk nothing blocks the fruit: each overflow of its accumulator moves it half a cell along the route. |
| FruitRun.LoadFollows | demos/muncher/inc/fruit.s:41-54 | Loading the next run keeps it on the route; a run of no cells is passed over, because at this speed the accumulator cannot overflow before the next is loaded. |
| FruitRun.Fruit.Tick | demos/muncher/inc/fruit.s:31-105 | Each jiffy keeps the fruit on its route, moves it half a cell ahead exactly when its accumulator overflows at 40 parts of 256 a jiffy and not at all otherwise, toggles its reverse video exactly when it comes to a centre, and brings it nearer to the exit; when it leaves uneaten it has trodden the whole route and stands in the exit mouth. |
| FruitRun.Fruit.FollowRoute | demos/muncher/inc/fruit.s:31-74 | Left alone the fruit always gets out by its exit mouth, the whole route trodden, its footprint erased. |
| GhostMath.ScoredIsDistance | demos/muncher/inc/ghosts.s:594-635 | The byte sums equal the columns times themselves plus the rows times themselves between the next cell and the target, also at columns -1 and 28 beyond the mouths. |
| GhostMath.Scan | demos/muncher/inc/ghosts.s:589-658 | Picks the first candidate, in priority order, whose next cell is nearest: no candidate's squared columns and rows add up to less. |
| GhostMath.CalcTarget | demos/muncher/inc/ghosts.s:660-812 | On wrapping bytes computes exactly the integer targeting rule, for every position of player and ghosts, with the result inside the maze; Sable hunts from more than 64 in squared cells and retreats from no more. |
| GhostMath.TargetSays | demos/muncher/inc/ghosts.s:660-812 | Ghost by ghost: the corners in scatter; the player's cell; four ahead of her, facing up also four left; twice the cell two ahead of her less Bruiser's; both to the nearest cell of the map; her cell or the corner by squared distance 64. |
| Ghosts.Decide | demos/muncher/inc/ghosts.s:464-658 | The direction chosen is the forced reverse, the only candidate, the random one exactly for the frightened and in scatter for Pixie and for Bruiser not cruising, or else the nearest one. |
| Ghosts.CandidatesAre | demos/muncher/inc/ghosts.s:466-502 | The candidates are exactly the directions that do not reverse, do not enter the door and are enterable, each once, in the priority order up, left, down, right. |
| Ghosts.CandidatesMeaning | demos/muncher/inc/ghosts.s:466-502 | On an accepted maze the candidates are exactly the open neighbours of the validator that do not turn both column and row step around. |
| Ghosts.ExitMeaning | demos/muncher/inc/ghosts.s:475-502 | On an accepted maze a move that the door guard and canmove allow is exactly an open neighbour of the validator's. |
| Ghosts.NeverBoxedIn | demos/muncher/inc/ghosts.s:503-509 | On an accepted maze a normal or frightened ghost at a corridor centre always has a candidate: the forced reverse is never reached. |
| Ghosts.DecideRoams | demos/muncher/inc/ghosts.s:464-587 | A decision never turns back, never picks the house, and leaves the ghost headed for corridor. |
| Ghosts.StepRoams | demos/muncher/inc/engine.s:42-109 | A step of a ghost that has decided ends in the corridors, tunnels included. |
| Ghosts.Tick | demos/muncher/inc/ghosts.s:277-297 | One jiffy decides at most once per centre, keeps the ghost in the corridors and does not reverse it. |
| Ghosts.Ghosts.GhostTick | demos/muncher/inc/ghosts.s:267-297 | The same in place, for one entry of the pack. |
| Ghosts.Ghosts.RevAll | demos/muncher/inc/ghosts.s:847-868 | A normal or frightened ghost heads where both its column and its row step change sign, its latch column is 255 and nothing else of it changes; every other ghost is left as it was, and all stay in the corridors. |
| Ghosts.Ghosts.FrightOn | demos/muncher/inc/ghosts.s:113-136 | An energizer turns everyone out about, and when the board has blue time makes the normal ones frightened with the reversed ring 215; nothing else changes. |
| Ghosts.Ghosts.FrightTick | demos/muncher/inc/ghosts.s:138-191 | The countdown goes down by one; in its last window the frightened show 87 and 215 by its fourth bit, and at its end exactly the frightened are normal again, reversed and with their own initial; nothing else changes. |
| Ghosts.Ghosts.SchedTick | demos/muncher/inc/ghosts.s:814-845 | The clock stands in blue time, its state never goes back, and each reversal it makes is logged; in the last state there is none. |
| Ghosts.ScheduleByClock | demos/muncher/inc/ghosts.s:814-845 | State and reversals are functions of the jiffies outside blue time: reversals at exactly 421, 1622 and 1923. |
| Ghosts.Ghosts.Jiffy | demos/muncher/inc/ghosts.s:87-111 | A jiffy takes each ghost through energizer, blue time, its own decision by the clock's scatter or chase and, for Ivy, by where Bruiser has just gone, its step, and a turn at a schedule edge, in that order. Between two centres a ghost is turned about by an energizer or an edge but not by both or neither; at a centre it never goes back the way it came, save by such a turn. The clock advances by one exactly outside blue time, and all stay in the corridors. |
| Ghosts.HuntsTurns | demos/muncher/inc/ghosts.s:87-111 | The turn of a ghost in a jiffy, in the signs of its column and row steps, from the four stages it goes through. |
| Ghosts.Ghosts.Prowl | demos/muncher/inc/ghosts.s:102-106 | All ghosts that are out move one after the other, each seeing the schedule, and Bruiser where he then is. |
| Ghosts.Ghosts.Gulp | demos/muncher/inc/ghosts.s:353-379 | A frightened ghost that is eaten is eyes, shows the quote 34 unreversed and moves at once; the other ghosts pause thirty jiffies and nothing else changes. |
| Ghosts.Ghosts.Happen | demos/muncher/inc/ghosts.s:87-111 | Whatever happens changes the pack, the blue time and the clock exactly as that event says; a jiffy decides by the schedule's phase at its clock, and turns the roaming ghosts about at a schedule edge exactly when the clock then reads 421, 1622 or 1923. |
| Ghosts.Ghosts.Run | demos/muncher/inc/ghosts.s:87-111 | Every run goes event by event as they say; no normal or frightened ghost is ever in the door, the house or a wall, the clock counts exactly the jiffies outside blue time, and the reversals logged are those of 421, 1622 and 1923 up to it. |
| March.FormTop | demos/invaders/invaders.s:333-343 | The formation starts at row 4 plus the wave number less one modulo nine. |
| March.Rack.constructor | demos/invaders/invaders.s:333-367 | A wave opens with all 55 in formation around the centre, eleven to a row two columns apart, marching right. |
| March.Rack.March | demos/invaders/invaders.s:389-469 | One tick moves exactly the first live alien at or after the cursor, one down in a dropping sweep and else one column on, raising the flag at columns 0 and 39 and ending the wave at row 23; or, when none is left, the sweep starts over, dropping and turned around if and only if the flag was raised. |
| March.TickedSays | demos/invaders/invaders.s:389-469 | Every tick is one of those two, field by field. |
| March.MoveKeepsRank | demos/invaders/invaders.s:426-451 | A moved alien is displaced by exactly the sweep's step, stays on columns 0 to 39, and raises the edge flag exactly when it lands on an edge. |
| March.WrapKeeps | demos/invaders/invaders.s:406-425 | At the wrap the whole formation has moved one step, and the latched direction leaves every live alien room for the next. |
| March.Rack.Kill | demos/invaders/invaders.s:575-579 | A kill at any tick removes one alien, lowers the count, and leaves everything else and the formation as it was. |
| March.Rack.Shoot | demos/invaders/invaders.s:562-579 | A shot kills the highest-numbered live alien on its cell, or nobody. |
| March.Rack.Run | demos/invaders/invaders.s:389-469 | Any run of ticks and shots ends in exactly the state its deeds lead to one by one, and keeps the formation rigid, on screen and counted. |
| March.Rack.Formation | demos/invaders/invaders.s:389-469 | At every point some origin gives each live alien its place by rank and file plus this sweep's step exactly behind the cursor, within columns 0 to 39, and no row reaches the baseline before the wave counts as landed. |
| March.SweepCost | demos/invaders/invaders.s:389-425 | Over any script of ticks and shots from one wrap up to the next, every survivor has moved by exactly one step and nobody twice, and the ticks are the survivors and those shot after their move; the wrap is one more. |
| March.Sweep | demos/invaders/invaders.s:389-469 | Without kills a sweep costs exactly one tick per live alien and one more to wrap, and moves all of them one step. |
| March.Rack.LowCol | demos/invaders/invaders.s:1094-1109 | Finds the lowest live alien of a column exactly when the column has one. |
| March.Rack.Aim | demos/invaders/invaders.s:1031-1061 | The wiggly bomb falls from the lowest alien of the live column nearest to the column right of the base's left edge, the rightmost of two equally near; complement and add with carry is that distance. |
| Score.PlotAddr | demos/invaders/invaders.s:1119-1144 | The shifts and carries give the screen address of every row and column. |
| Score.Digit | demos/invaders/invaders.s:1343-1363 | Repeated two-byte subtraction is division with remainder. |
| Score.Hud.DrawNum | demos/invaders/invaders.s:1316-1341 | Writes exactly the five decimal digits of ten times the number, and nothing else. |
| Score.ShowsReads | demos/invaders/invaders.s:1316-1341 | The five cells hold digits 48 to 57, and read off they are the number. |
| Score.Hud.AddScore | demos/invaders/invaders.s:591-621 | The score is the sum capped at 9999, shown in the HUD; a base is added exactly when it first reaches 150, in tens. |
| Score.Hud.Game | demos/invaders/invaders.s:591-621 | Over a whole game the score is the total capped at 9999, and one base is added if and only if the total reaches 150. |

## Left out

- Request ids from 0xFFFFFFFF on: the client refuses to send instead of packing a wider id.
- Errors of VICE in the middle of a loop: every contract is conditional on success, and a failed command ends the operation.
- Self-deletion of temporary checkpoints, conditions, ignore counts and checkpoints fired while a step command executes.
- Register names: the register file is by register id, and the lookup of names and the REGISTERS_AVAILABLE exchange are not modelled.
- Vice.Vice.Process: commands that the proofs do not need (stepping, quitting, key feeding and the like) leave an arbitrary program counter, registers and memory and an arbitrary answer.
- Daemon.PetDaemon.RunUntil: when the client is found gone the deletion of the checkpoint is claimed but no EXIT; the restore that follows may see a hit that raced in. An error of VICE or an exhausted numbering in the middle leaves state and machine unspecified.
- Daemon.PetDaemon.Restore: a hit landing after its poll and before its EXIT is outside what the code can see, so it is not claimed that no park is ever lost.
- Daemon.PetDaemon.Dispatch: verbs that are one monitor command are one case, answered with VICE's frames; argument decoding and the reading of those frames are left out.
- Daemon.PetDaemon.Handle: a client that breaks off in the middle of a request or sends malformed lines is one whose requests end earlier.
- Ops.WaitForBreak: the program counter handed on beside the registers is one of them and not stated again.
- Sockets, process launching, JSON transport, symbol files, text decoding, the command line, disk and image output.
- Display and palette replies, memory reads, memory spaces, banks and side effects, key feeding; the byte search is modelled on the bytes already read.
- Validator.ValidateText: splitting the text into lines is left out, and a tunnel row beyond the map counts as misshapen where the original fails with an index error.
- The scaling of thresholds and elroy tables, and the writing of the assembler include file apart from the fruit records.
- The ghosts in the house, leaving it and flying home as eyes: any behaviour of theirs is allowed until they are released above the door at a centre where no decision is latched.
- Ghosts.Ghosts.Gulp: the player's own pause, the points and the popup belong to the rest of the game.
- Engine.Engine.DrawMaze: the glyphs of the wall styles are an arbitrary choice for each wall cell.
- Player input, speeds and glyph tables are arbitrary bytes; collisions, pauses and lives enter only as changes other code may make to an actor.
- Engine.Engine.Act: the player is placed anew only while not hidden, because the original does not clear her hidden counter when she is placed.
- The blinking of energizers, cut scenes, sound, titles, popups, the death animation.
- FruitRun.Fruit.Tick: steps the actor by the engine's step function and leaves the screen to the engine; being eaten is a choice of the caller.
- March.Rack.March: the screen cells of the aliens, animation glyphs and the heartbeat are left out; it is called, as in the main loop, only until the wave has landed.
- The invaders' bombs in flight, shields, saucer, and the random choice of column for straight bombs.
