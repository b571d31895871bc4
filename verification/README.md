# A model of the numbered-pipe shell, the chat-style server, the SOCKS proxy and the web console

This project models the logic of the four network-programming assignments and proves what it is for.

* **Numbered-pipe shell** (`Descriptors`, `Shell`, `ShellInvariants`, `ForkFacts`, `ShellRuns`, `ShellTheorems`,
  `PipeLifetimes`, `PipelineTheorems`, `WaitingEnds`, `TypedSlots`, `OlderShell`, `ShellProgram`). A command ending in
  `|n` or `!n` writes to the n-th next non-empty line. The code keeps an unordered list of countdowns and forks
  processes that inherit the shell's descriptors. A process is a table from slots to open ends; fork copies the table;
  closing a closed slot does nothing. Each command has flags for its output file and its accepted or refused user
  pipes, which take over standard slots. `ShellProgram` has the source's loops over mutable objects and proves that
  they compute `Shell.Next`; the theorems are about `Shell.Run` over every sequence of lines. `OlderShell` is about
  the one list that hw2/1 treats differently.
* **Multi-user server** (`UserPipes`, `Manager`, `ClientManager`, `ManagerRuns`, `ManagerLaws`, `UserPipeTheorems`,
  `PipeBooks`, `UserPipeWorld`, `UserPipeReaders`, `UserPipeForks`). `ClientManager.Server` is `Client_Mananger` with
  its bitmap, client vector and pipe vector, together with the user-pipe steps of a line; `Manager` is the function
  each method computes; the others are about every run of all clients' lines. `UserPipeWorld` adds the processes and
  the write ends they inherit.
* **SOCKS 4 / 4A server** (`Relay`, `RelaySession`, `RelayTheorems`, `RelayLaws`, `SocksRequest`, `RequestTarget`,
  `DomainName`, `Firewall`). `Relay` is a state machine over completions of asynchronous operations in any order and
  with short writes; `RelaySession.Session` has the two real buffers and the callbacks, and follows that machine.
* **Text** (`Tokenizer`, `Decimal`, `CommandLine`, `LineLaws`, `Html`, `Percent`, `Query`): `split`, the recognisers of
  the command line, HTML escaping, percent-decoding, the console's query string. `TypedLines` and `TypedSlots` join
  `CommandLine` to the shell's runs.

`dafny verify dfyconfig.toml` covers all files.

## Where the code falls short of what it is for

Each of these is modelled as coded. A lemma says exactly what happens, or when the code does what is meant; where a
particular input shows the failure, a second lemma has it.

* The loop that clears a leaving user's pipes steps on after an erase, so a neighbour can stay behind
  (hw2/2/client.cpp:96-106). It clears everything iff the user's pipes are `Spaced` in the list
  (`UserPipes.SweepClearsIff`, `UserPipeTheorems.LeaveIsExact`). `UserPipeTheorems.LeftoverIsInherited` is a run of three
  users in which a newcomer inherits a pipe that it never wrote. When the erased pipe was the last one the code goes
  on to read one place past the end of the vector; the model treats that place as absent.
* An exclamation mark behind a space, with something behind it, is taken for a pipe sign wherever it stands
  (hw2/2/shell.cpp:67-91), so `yell hi !bob` is forked in front of a numbered pipe with count 0, which is delivered to no
  line (`CommandLine.YellIsTakenForNumbered`, `TypedLines.YellIsNeverDelivered`). A line is run as it is written iff it
  has no such mark, or the character that is changed is the last one of a single command (`CommandLine.SingleCommand`,
  `CommandLine.PipelineIsPlain`, `CommandLine.NumberedIff`).
* A `>` with a file, or a lone command's refused `>b`, takes the output of a numbered line away from its pipe
  (hw2/2/cmd.cpp:112-117, hw2/2/shell.cpp:118-127). The n-th next line is delivered the output iff the last command's
  words have neither (`TypedLines.TypedDelivery`, `TypedLines.FileIsNeverDelivered`,
  `TypedLines.RefusedIsNeverDelivered`); it is delivered the pipe all the same.
* `|n` is recognised up to 1000 and 0 is let through, larger numbers are run as a command; `!n` has no limit
  (`CommandLine.NumberedIff`, `CommandLine.MarkedIsNumbered`). A countdown that starts at 0
  is never delivered (`TypedLines.TypedDelivery`).
* A built-in command drops the pipe delivered to it without closing it (hw2/2/shell.cpp:180-185): the shell lets go of
  a delivered pipe iff the line is external (`ShellTheorems.BuiltinLeaksDelivered`, `ShellTheorems.BuiltinLeakHappens`).
* Each chain of commands leaves the read end of its last pipe open in the shell (`PipelineTheorems.LeftoverEnds`;
  `PipeLifetimes.ShellHolds` lists what is left after a whole run), and each stage but the first keeps the read end of
  its own output pipe, so a writer sees a broken pipe only after both its reader and itself are gone
  (`PipelineTheorems.BrokenIffReadersGone`).
* Processes forked while a numbered pipe waits inherit both of its ends and hold them until they end, so its reader and
  its writers wait for them (`ShellTheorems.WritersOfDelivered` and `WaitingEnds.ReadEndsHeld` say which ones).
* In hw2/1 a pipe delivered to a built-in line is read by a later one. An external line reads what is due for it iff
  nothing is left over before it, and nothing ever is iff no built-in line of the run is due anything
  (`OlderShell.ReadsDueIff`, `OlderShell.InOrderIff`, `OlderShell.LateDelivery`).
* A `>b` on a line ending in `|n`, before or behind the number, is announced and never opened: for another user b the
  books of the pipe balance iff the line has no `>b` or it would not be accepted
  (`UserPipeTheorems.NumberedDropsToOthers`, `UserPipeTheorems.NumberedDropHappens`); over whole runs iff no line drops
  one (`PipeBooks.RunUnopened`).
* A built-in command with `<a`, or a `<a` behind a number, announces the reception and leaves the pipe in place
  (`UserPipeTheorems.OneConsumesIff`, `UserPipeTheorems.BuiltinKeepsPipe`, `UserPipeTheorems.TailKeepsPipe`).
* Processes forked for anybody while a user pipe is in the list inherit its write end, so its reader waits for all of
  them (`UserPipeReaders.ReaderMeetsEof`).
* A user that pipes to itself in a chain whose last consumed pipe was its own loses the new one
  (`UserPipeTheorems.ChainDeliversIff`, `UserPipeTheorems.SelfPipeIsLost`).
* The relay does not continue a short write (`async_write_some`, hw4/src/sock_server.cpp:259-281, 370-403). All bytes
  read in a direction are delivered, except for the chunk in its buffer (on its way, or left there by a failed write),
  iff all its finished writes were full (`RelayTheorems.LosslessIffFullWrites`, `RelayTheorems.ShortWriteLosesData`).
* The backward scan of a SOCKS 4A request agrees with a forward reading iff no NUL follows the domain's, or the last
  field of what follows is the domain again (`DomainName.LaterNulWins`, `DomainName.SecondNameWins`).
* The test for an address that stands for a name looks for `0.0.0.` anywhere in its text (hw4/src/sock_server.cpp:138),
  so a CONNECT to 10.0.0.7 is resolved as a name. It is right iff the first octet is not ten or a greater multiple of
  ten with two zeros behind it (`RequestTarget.NameTestIff`, `RequestTarget.AddressTakenForName`).
* Of a resolved address the firewall is given the second octet three times (hw4/src/sock_server.cpp:160): its answer is
  that for the address, whatever the rules, iff the last two octets equal the second (`RequestTarget.ResolvedCheckIff`).
* The first word of a firewall rule, permit or deny, is not looked at (`Firewall.PrintedRulesDecide`): a
  list whose one rule denies every address lets every request pass (`Firewall.DenyAllPasses`).
* Where `sscanf` reads no number behind a percent sign the decoder repeats the code it read last, or what an
  uninitialised variable holds. The result does not depend on that variable iff a number is read for the first percent
  sign (`Percent.DeterminedIff`), and decoding can be cut behind a string iff the string cuts no escape
  (`Percent.CutIff`). `Percent.FailedEscapeRepeats` is a failing input of both kinds of use.
* A backslash in a session's output is not escaped for the page's script (hw3/src/cgi.cpp:51-52). The script reads the
  text's literal as the text iff there is none (`Html.PageShowsIff`, `Html.BackslashBreaks`).

## Model

| member | source | states |
|---|---|---|
| ShellTheorems.DeliveryIsExact | hw2/2/shell.cpp:149-273 | For every history, a line is delivered a pipe iff some earlier line t with count n has t + n equal to it. The processes whose output is that pipe are the last commands of exactly those lines that have no output file there (nor, alone on their line, a refused `>b`); those whose errors go there are the last commands of exactly those that ask for it with `!n`; no other stages. |
| ShellTheorems.FirstStageReads | hw2/2/shell.cpp:192-471 | In every history, what the first command of an external line reads: nothing after a refused `<a`; the user pipe if it was accepted and nothing is delivered, or the line is a plain chain or pipes to a user too; else the delivered pipe; else the server's own input. One process is forked per command. |
| TypedSlots.TypedEnds | hw2/2/cmd.cpp:43-96 | From text to slots, in every history, for every pipeline that is typed and not marked: the first command reads another user's pipe iff its words hold an accepted `<` and no refused one (alone, only if nothing is delivered or it also writes to a user), and nothing iff one is refused; the last writes to a user iff its words hold an accepted `>`, no refused one and no file, to the file iff they name one, and to the client iff they hold none of these. |
| TypedSlots.PlainLineSlots | hw2/2/shell.cpp:183-521 | The three standard slots of every command of any plain line, however it is spaced, from its words and the history. |
| TypedSlots.NumberedLineSlots | hw2/2/shell.cpp:253-425 | The same in front of a numbered pipe: the last command writes to the pipe that waits for the n-th next line, and the errors go where the output is meant to go iff the line is marked. |
| TypedSlots.ParsedIs | hw2/2/cmd.cpp:43-96 | Place by place in the words of any command: a word is a file name iff a `>` that is no file name stands before it; a user pipe is met, accepted or refused, as input or output, iff some other word asks for it. |
| ShellTheorems.WritersOfDelivered | hw2/2/shell.cpp:183-252 | After an external line was delivered a pipe, whatever runs later, the shell never holds its write end; a process holds it iff it was forked before that line and not before the first line that writes to the pipe. |
| WaitingEnds.ReadEndsHeld | hw2/2/shell.cpp:183-520 | In every history, which processes of an external line can read the pipes between lines: all of them each pipe that waits, but for a lone command in front of a numbered pipe, which cannot read that one; of the delivered pipe all commands in front of a numbered pipe, only the first of a plain line, and not a lone command whose `<a` is refused unless it pipes from one user to another besides. |
| ShellTheorems.BuiltinLeaksDelivered | hw2/2/shell.cpp:180-251 | The shell ever after holds the delivered pipe's write end iff the line was a built-in command. |
| ShellTheorems.BuiltinLeakHappens | hw2/2/shell.cpp:180-251 | The failing run: a command with count 1 and then a built-in, after which the shell can write to the delivered pipe ever after. |
| ShellTheorems.WaitingPipesStayOpen | hw2/2/shell.cpp:268-273 | While a pipe waits in the list the shell holds both of its ends, in every history. |
| ShellTheorems.DueIff | hw2/2/shell.cpp:149-156 | The sweep delivers something iff the set of producers of the line is not empty. |
| ShellTheorems.SettledForever | hw2/2/shell.cpp:149-156 | A pipe that left the list is never delivered or joined again, and neither the shell nor any new process gains or loses its write end. |
| ShellRuns.RunWired | hw2/2/shell.cpp:128-530 | Invariant of every run: every stage of every line was forked, every output not yet due has a waiting entry, and each entry with countdown n has on it exactly the outputs and errors meant for the line n lines on that their own lines do not divert. |
| ShellRuns.WiredStep | hw2/2/shell.cpp:128-530 | One line of any kind keeps that invariant. |
| ShellInvariants.SweepFacts | hw2/2/shell.cpp:149-156 | The sweep counts each entry down once, keeps exactly those not due, keeps countdowns distinct, and moves out at most one pipe: the one whose countdown was 1. |
| ShellInvariants.NextSound | hw2/2/shell.cpp:149-273 | Sharing or creating keeps pipes and countdowns of the list pairwise distinct. |
| ShellInvariants.RunSound | hw2/2/shell.cpp:149-273 | So in every run the list has at most one entry per countdown and per pipe. |
| ForkFacts.SingleFacts | hw2/2/shell.cpp:186-229 | What a lone external command has on its three standard slots when it execs, with every combination of output file, accepted and refused user pipes and delivery, and which pipe ends it holds besides. |
| ForkFacts.NumberedFacts | hw2/2/shell.cpp:291-315 | The same for the one command in front of a numbered pipe. |
| ForkFacts.StageFacts | hw2/2/shell.cpp:462-502 | The same for stage i of k > 1 chained commands, in a plain line or in front of a numbered pipe. |
| ForkFacts.NextFds | hw2/2/shell.cpp:241-252 | Which ends the shell itself holds after a line, end by end. |
| PipelineTheorems.ChainTopology | hw2/2/shell.cpp:433-519 | For every chain length and history: stage i reads chain pipe i - 1 and writes chain pipe i, the last writes where the line says, each unless its own output file, refused or accepted user pipe overrides that; of all processes only stage i holds the write end of pipe i; the shell holds no write end and only the last read end. |
| PipelineTheorems.EofIffWriterGone | hw2/2/shell.cpp:433-519 | At any time after the line, whatever was run since and whichever processes are alive: a read from chain pipe i meets end of file iff the process of stage i is gone. |
| PipelineTheorems.BrokenIffReadersGone | hw2/2/shell.cpp:480-487 | At any time after the line: a write to chain pipe i fails iff stage i + 1 is gone and, from the second stage on, stage i too. |
| PipelineTheorems.LeftoverEnds | hw2/2/shell.cpp:517-518 | The only end the chain of a line leaves open in the shell is the read end of its last pipe. |
| PipeLifetimes.ShellHolds | hw2/2/shell.cpp:128-530 | After every run the shell holds exactly both ends of each waiting pipe, both ends of each pipe delivered to a built-in line, and one read end for every line that chained commands. |
| PipeLifetimes.GoneForever | hw2/2/shell.cpp:128-530 | Once the shell has closed an end of a pipe that is not waiting, neither it nor any process forked from then on ever holds that end. |
| ShellProgram.NumberPipe.IsPop | hw2/2/number_pipe.cpp:8-13 | Counts down by one and reports whether zero was reached. |
| ShellProgram.Session.Sweep | hw2/2/shell.cpp:149-156 | The backward loop with in-place decrement and erase leaves the list and the moved-out pipes that the specification says, without aliasing. |
| ShellProgram.Session.ShareOrCreate | hw2/2/shell.cpp:258-273 | Takes the first waiting pipe with the same countdown and changes nothing, or opens and appends a new one. |
| ShellProgram.Session.ForkStage | hw2/2/shell.cpp:434-460 | Opens the stage's pipe, drops the delivered write end, and forks a child whose table is the shell's at that moment, rewired for its place and its words. |
| ShellProgram.Session.CloseStage | hw2/2/shell.cpp:517-518 | Closes the write end of this stage's pipe and the read end of the one before; nothing before the first stage. |
| ShellProgram.Session.RunSingle | hw2/2/shell.cpp:183-251 | The lone-command branch: its child and the shell's table. |
| ShellProgram.Session.RunNumbered | hw2/2/shell.cpp:275-327 | The branch of one command in front of a numbered pipe. |
| ShellProgram.Session.RunPipeline | hw2/2/shell.cpp:427-520 | The loop over a plain chain forks the k children of the specification, for every k. |
| ShellProgram.Session.RunNumberedPipeline | hw2/2/shell.cpp:335-425 | The loop over a chain in front of a numbered pipe does so too, dropping the delivered pipe only after its last stage. |
| ShellProgram.Session.RunLine | hw2/2/shell.cpp:128-530 | All branches together: one line takes the object's state to `Shell.Next` of it, whatever output files and user pipes its commands have. |
| OlderShell.ReadsDueIff | hw2/1/shell.cpp:100-149 | The first server keeps its delivered list across lines: an external line reads the pipe due for it, and nothing when none is, iff no pipe is left over before it, as counted by the lines alone. |
| OlderShell.InOrderIff | hw2/1/shell.cpp:100-329 | Over a whole run of that server nothing is ever left over iff no built-in line is due a pipe. |
| OlderShell.BacklogIs | hw2/1/shell.cpp:119-329 | What each kind of line leaves over: a built-in line takes nothing out, a plain one a pipe per command, a numbered one a single pipe. |
| OlderShell.OldestIsReadAgain | hw2/1/shell.cpp:125-149 | As long as a pipe is left over, every external line reads the same one, the oldest, though pipes are taken out at the other end. |
| OlderShell.CurIsSettled | hw2/1/shell.cpp:109-116 | What that list holds is never waiting any more, in any run. |
| OlderShell.LateDelivery | hw2/1/shell.cpp:119-149 | The failing run: a command with count 1, a built-in, and then an external line, which is due nothing and reads what was meant for the built-in. |
| UserPipes.SweepClearsIff | hw2/2/client.cpp:96-106 | The clearing loop leaves no pipe of the user iff the user's pipes are spaced in the list. |
| UserPipes.SweepIsFilterIff | hw2/2/client.cpp:96-106 | In that case and only then it leaves exactly the other pipes in order. |
| UserPipes.SweepKeepsOthers | hw2/2/client.cpp:96-106 | The pipes that do not touch the user always survive, in order. |
| UserPipes.SweepSplits | hw2/2/client.cpp:96-106 | Kept and erased pipes together are the old list; only pipes of the user are erased. |
| UserPipes.SweepLeavesOne | hw2/2/client.cpp:96-106 | The failing input: pipes (1,2) and (1,3), user 1 leaves, (1,3) stays. |
| UserPipes.WithoutFacts | hw2/2/client.cpp:228-237 | Deleting a pipe removes it and nothing else, and keeps the list duplicate-free. |
| ManagerRuns.StepKeepsInv | hw2/2/client.cpp:73-106 | Every operation keeps: bitmap slot k is set iff a client has id k + 1, ids in 1..30, clients strictly sorted by id, descriptors and chosen names distinct, pipes unique, and openings and closings of each pipe taking turns. |
| ManagerRuns.RunInv | hw2/2/client.cpp:73-249 | So all of that holds after every run. |
| ManagerRuns.FreeSlot | hw2/2/client.cpp:239-245 | With fewer than 30 clients the bitmap has a free slot. |
| ManagerRuns.JoinKeepsClients | hw2/2/client.cpp:73-76 | A newcomer gets an unused id and is inserted in order; nobody else changes. |
| ManagerRuns.LeaveKeepsClients | hw2/2/client.cpp:85-94 | A departure frees its id and keeps bitmap and vector in step. |
| ManagerRuns.LeaveKeepsPipes | hw2/2/client.cpp:96-106 | Even the clearing loop as coded closes each pipe once, after it was opened. |
| ManagerRuns.RenameKeepsClients | hw2/2/client.cpp:149-160 | A rename keeps chosen names distinct. |
| ManagerLaws.RenameIs | hw2/2/client.cpp:149-160 | If nobody has the name, the client with that descriptor has exactly it afterwards, and its other fields, the other clients, ids, pipes and log are as before; if somebody has it, nothing changes. |
| ManagerLaws.NameStaysTaken | hw2/2/cmd.cpp:151-158 | In every run, once a client has asked for a name somebody has it, and whoever asks for it next changes nothing. |
| ManagerLaws.JoinIs | hw2/2/client.cpp:73-83 | A newcomer is the one new client, unnamed, with the lowest of the ids 1 to 30 that nobody has; no pipe and no announcement changes. |
| ManagerLaws.QuitIs | hw2/2/client.cpp:85-106 | A departure removes that client only; pipes that do not touch it stay in order, those that go are its own, and the log gets one closing for each of them and nothing else. |
| ManagerLaws.OneIs | hw2/2/shell.cpp:164-252 | For every pipe and every event, what a lone command changes: an accepted `>b` opens the pipe, an accepted `<a` is received and, by an external command, taken out. |
| ManagerLaws.ChainIs | hw2/2/shell.cpp:427-524 | For every pipe, whether a plain chain leaves it in the list, from the words of the chain and the state before. |
| ManagerLaws.NumberedIs | hw2/2/shell.cpp:253-424 | For every pipe: a numbered line takes out those its commands' accepted `<a` name, opens none, and what is typed behind the number touches none. |
| UserPipeTheorems.LeaveIsExact | hw2/2/client.cpp:85-106 | After a departure the other pipes are there in order; every pipe still has two connected ends iff the leaver's pipes were spaced. |
| UserPipeTheorems.NewcomerStartsClean | hw2/2/client.cpp:73-76 | A newcomer takes the lowest id nobody has, and starts without pipes in either direction whenever every pipe has live ends. |
| UserPipeTheorems.StepLiveIff | hw2/2/client.cpp:85-106 | Of all operations exactly the departures with unspaced pipes leave a pipe with a dead end. |
| UserPipeTheorems.RunLive | hw2/2/client.cpp:85-106 | In every run whose departures are spaced, all pipes have live ends throughout. |
| UserPipeTheorems.LeftoverIsInherited | hw2/2/client.cpp:96-106 | The failing run from the empty server: a newcomer owns a pipe it never wrote. |
| UserPipeTheorems.ChainOpensAnnounced | hw2/2/shell.cpp:439-446 | In a plain chain each announced `>b` is opened, once. |
| UserPipeTheorems.NumberedDropsAnnounced | hw2/2/shell.cpp:335-350 | The commands of a numbered line announce an accepted `>b` and do not open it; judged by the state before the line, the announcements added to the books of a pipe are exactly those of the commands that do so. |
| UserPipeTheorems.NumberedLineDrops | hw2/2/shell.cpp:253-424 | The whole numbered line: those of its commands and the one behind the number are all that is added to the books of a pipe. |
| UserPipeTheorems.NumberedDropsToOthers | hw2/2/shell.cpp:253-424 | For a pipe to another user c the books balance iff the line has no `>c`, in its commands or behind its number, or that would not be accepted before the line. |
| UserPipeTheorems.NumberedDropHappens | hw2/2/shell.cpp:253-333 | The failing runs from the empty server: user 1's `>2` on a numbered line, in the command or behind the number, is announced, and there is no pipe. |
| UserPipeTheorems.TailKeepsPipe | hw2/2/shell.cpp:253-254 | The failing run: a `<1` typed behind the number of a line is announced as received, and the pipe stays. |
| UserPipeTheorems.ChainKeepsOthers | hw2/2/shell.cpp:439-524 | A pipe to somebody else survives the rest of the chain that opened it. |
| UserPipeTheorems.ChainDeliversIff | hw2/2/shell.cpp:521-524 | A chain ending in `>b` leaves that pipe in the list iff it was there or user b is, unless b is the user itself and the last pipe the line consumes is its own; all judged by the state before the line. |
| UserPipeTheorems.SelfPipeIsLost | hw2/2/shell.cpp:521-524 | The failing run: user 1 pipes to itself, then reads that pipe in a chain that pipes to itself again, and no pipe is left. |
| UserPipeTheorems.OneConsumesIff | hw2/2/shell.cpp:171-241 | A lone command's accepted `<a` is announced; it is consumed iff the command is external. |
| UserPipeTheorems.BuiltinKeepsPipe | hw2/2/shell.cpp:180-181 | The failing run: a built-in command's `<1` is announced as received, and the pipe stays. |
| UserPipeTheorems.InvSuffices | hw2/2/client.cpp:73-106 | The invariant of every run gives the manager's methods what they require. |
| PipeBooks.RunUnopened | hw2/2/shell.cpp:128-530 | In every run, for every pipe, announcements of `>b` exceed openings by exactly those that numbered lines dropped, and agree iff no line of the run dropped one. |
| PipeBooks.RunUnclosed | hw2/2/shell.cpp:128-530 | In every run announcements of `<a` exceed closings by the receptions that left the pipe alone, less the closings nobody announced. |
| PipeBooks.RunBooks | hw2/2/shell.cpp:128-530 | Conservation in every run: what was announced into a pipe was announced as received, dropped by a numbered line, closed by a departure or a cleanup, or is in the list now; receptions that kept the pipe are counted on the other side. |
| PipeBooks.StepUnopened | hw2/2/shell.cpp:128-530 | One operation of any kind adds to the unopened announcements of a pipe what it drops, judged by the state before it. |
| PipeBooks.StepUnclosed | hw2/2/shell.cpp:128-530 | And to the unclosed ones what it keeps, less what it loses. |
| UserPipeReaders.ReaderMeetsEof | hw2/2/shell.cpp:183-524 | With all clients' lines interleaved, in every run and at any time after its line: the input of a command that reads a user pipe is at end of file iff every process is gone that was forked, for any client, while the pipe was in the list, except its writer if that writes to a file. |
| UserPipeReaders.ReadsIff | hw2/2/shell.cpp:186-471 | A line has such a reader iff its first command's `<a` is accepted and forked, and no delivered pipe takes the place of the input: for a lone command unless it pipes to a user too, in front of a numbered pipe always, in a plain chain never. |
| UserPipeWorld.StepFollows | hw2/2/shell.cpp:128-530 | Every operation of any client keeps: the holders of a listed pipe's write end are the processes forked since its opening, and a pipe that left the list is held by no later process. |
| UserPipeWorld.RunFollows | hw2/2/shell.cpp:128-530 | So it is in every run, and these runs are those of `ManagerRuns.Run` with the processes added. |
| UserPipeForks.ForksIs | hw2/2/shell.cpp:183-524 | In every run a step forks exactly one process for each external command of its line, and none for a built-in, a name, an arrival or a departure; the earlier processes stay. |
| UserPipeForks.LoneCommandIs | hw2/2/shell.cpp:186-241 | In every run, a lone command's process: what it reads, that the pipe its accepted `>b` opens is born with it, and which write ends it holds: the new one unless its output goes to a file, and those that were open but for the one it reads. |
| UserPipeForks.ChainWriterIs | hw2/2/shell.cpp:436-521 | In every run, for each command of a chain whose `>b` opens a pipe: that pipe is born with that command's process, which holds its write end unless it is the last one and has an output file; no earlier process does, and of the later commands those until the user takes its own pipe again. |
| UserPipeForks.LineHolds | hw2/2/shell.cpp:335-524 | In every run, of the commands of a chain or numbered line those before the first that takes a listed pipe hold its write end, and no later one. |
| UserPipeForks.LineInputs | hw2/2/shell.cpp:361-471 | Only the first command of such a line can read a user pipe, and only one that was in the list. |
| UserPipeForks.LineOpens | hw2/2/shell.cpp:253-524 | A chain opens as many pipes as it has commands whose `>b` opens one; a numbered line opens none. |
| ClientManager.SortedOnce | hw2/2/client.cpp:70-76 | Clients with different ids have only one sorted order, so any sort gives the specification's. |
| ClientManager.Server.OccupyId | hw2/2/client.cpp:239-245 | Takes the lowest free id and sets its slot only. |
| ClientManager.Server.FreeId | hw2/2/client.cpp:247-249 | Clears that slot only. |
| ClientManager.Server.Add | hw2/2/client.cpp:73-76 | Id, push and sort together make `Manager.Enter`. |
| ClientManager.Server.Del | hw2/2/client.cpp:85-94 | Makes `Manager.Leave`: id, pipes as far as the loop gets, and record. |
| ClientManager.Server.NameCommand | hw2/2/cmd.cpp:151-158 | Renames unless the name is taken by anybody. |
| ClientManager.Server.FindUserPipe | hw2/2/client.cpp:219-226 | Finds the first such pipe iff there is one. |
| ClientManager.Server.AddUserPipe | hw2/2/client.cpp:204-211 | Appends the pipe unless it is there. |
| ClientManager.Server.DelUserPipe | hw2/2/client.cpp:228-237 | Removes the pipe if it is there. |
| ClientManager.Server.FreeUserPipe | hw2/2/client.cpp:96-106 | The index loop over the shrinking vector computes `UserPipes.Sweep` and erases `UserPipes.Erased` in order. |
| ClientManager.Server.Command | hw2/2/cmd.cpp:47-92 | A redirection is accepted and announced iff the other user is there and the pipe is (for `<`) or is not (for `>`) in the list. |
| ClientManager.Server.RunOne | hw2/2/shell.cpp:164-252 | The user-pipe steps of a lone command, in the source's order. |
| ClientManager.Server.RunChain | hw2/2/shell.cpp:427-524 | Those of a plain chain, with the cleanup after the loop. |
| ClientManager.Server.RunNumbered | hw2/2/shell.cpp:253-424 | Those of a line in front of a numbered pipe, the announcements typed behind the number first. |
| RelayTheorems.RelaySafety | hw4/src/sock_server.cpp:229-281 | Under every interleaving each side has received, in order and once, a prefix of every chunk read for it, as long as the finished writes say. |
| RelayTheorems.LosslessIffFullWrites | hw4/src/sock_server.cpp:259-281 | Delivered bytes and the chunk in the buffer (on its way, or left by a failed write) are all bytes read iff every finished write of the direction was full. |
| RelayTheorems.ShortWriteLosesData | hw4/src/sock_server.cpp:370-383 | The failing run: a byte cut off by a short write never arrives. |
| RelayTheorems.GreetingIsReply | hw4/src/sock_server.cpp:213-227 | In every run the client's first bytes are what was written of the reply. |
| RelayTheorems.ClientStream | hw4/src/sock_server.cpp:213-383 | The client's stream is the 8-byte reply, or as much as its one write took, followed by target bytes only; for CONNECT the reply repeats the request's port and address. |
| RelayLaws.ServedIsGranted | hw4/src/sock_server.cpp:141-147 | In every run of a CONNECT session that is connecting, replying or relaying, a request was read and granted, and none was refused. |
| RelayLaws.RefusedIsDropped | hw4/src/sock_server.cpp:144-147 | Once a request was refused, nothing was or will be sent to either side and no operation can complete. |
| RelayLaws.GrantedIsServed | hw4/src/sock_server.cpp:141-143 | A granted request leaves the connect operation under way, and nothing else. |
| RelayLaws.EndIsLast | hw4/src/sock_server.cpp:109-189 | A completion that ends a session, a refusal or a failure before both reads were started, is its last one. |
| RelayLaws.DirectionEnds | hw4/src/sock_server.cpp:229-281 | A failed read or write ends its direction for good. |
| RelayLaws.ClosingEnds | hw4/src/sock_server.cpp:332-403 | In a BIND session a failure closes both sockets: at most one operation that was under way still succeeds. |
| RelayLaws.OtherGoesOn | hw4/src/sock_server.cpp:259-281 | In a CONNECT session a failed write leaves the other direction as it was. |
| RelayLaws.DirectionGoesOn | hw4/src/sock_server.cpp:213-281 | In every run, from the moment a session relays: a direction that no failure disturbed is never idle; the write of the chunk read last can complete with any part of it, or a read with any chunk. |
| RelayLaws.ReplyBytes | hw4/src/sock_server.cpp:288-330 | In every run the reply is 0, 90 and, for BIND, two bytes whose number is the port with the high byte first and four zeros; for CONNECT the next six bytes of the request. |
| RelaySession.PendingIsDisciplined | hw4/src/sock_server.cpp:213-403 | At any moment each buffer has at most one operation, so none is filled while it is sent, and each socket at most one read and one write. |
| RelaySession.ValidIsDisciplined | hw4/src/sock_server.cpp:213-403 | So it is for the operations of every session in order. |
| RelaySession.PendingCanEnd | hw4/src/sock_server.cpp:213-403 | Each operation under way can complete, so no session is stuck. |
| RelaySession.EnabledIsPending | hw4/src/sock_server.cpp:213-403 | Each completion that can happen is one of an operation under way. |
| RelaySession.Session.OnHeader | hw4/src/sock_server.cpp:109-189 | The request callback: go on to connect, or leave. |
| RelaySession.Session.OnConnected | hw4/src/sock_server.cpp:213-218 | Overwrites two bytes of the request's buffer and writes eight. |
| RelaySession.Session.OnReply | hw4/src/sock_server.cpp:218-226 | After the reply CONNECT starts both reads and BIND waits for the target. |
| RelaySession.Session.OnAccepted | hw4/src/sock_server.cpp:317-330 | BIND starts both reads. |
| RelaySession.Session.OnSetupFailed | hw4/src/sock_server.cpp:191-227 | An error before both reads were started: nothing is under way any more. |
| RelaySession.Session.OnReadFromClient | hw4/src/sock_server.cpp:229-241 | A chunk read is written from the same buffer; buffers, operations and streams follow the state machine. |
| RelaySession.Session.OnReadFromServer | hw4/src/sock_server.cpp:244-256 | The same in the other direction. |
| RelaySession.Session.OnWriteToServer | hw4/src/sock_server.cpp:271-280 | After a write the next read starts, whatever the write took. |
| RelaySession.Session.OnWriteToClient | hw4/src/sock_server.cpp:259-268 | The same in the other direction. |
| RelaySession.Session.OnReadFromClientFailed | hw4/src/sock_server.cpp:339-347 | A failed read ends a CONNECT process and closes a BIND session's sockets. |
| RelaySession.Session.OnReadFromServerFailed | hw4/src/sock_server.cpp:358-366 | The same in the other direction. |
| RelaySession.Session.OnWriteToServerFailed | hw4/src/sock_server.cpp:398-401 | A failed write ends its direction; only BIND closes the sockets. |
| RelaySession.Session.OnWriteToClientFailed | hw4/src/sock_server.cpp:378-381 | The same in the other direction. |
| SocksRequest.AddressRoundTrip | hw4/src/cgi.cpp:199-213 | For every 32-bit address and 16-bit port: dotted text, split, octets, request bytes, the server's decoding give the same address and port. |
| SocksRequest.WireBytes | hw4/src/cgi.cpp:204-213 | The eight bytes are 4, 1, the port's high and low byte, and the octets in the order they are printed. |
| SocksRequest.OctetTextIff | hw4/src/cgi.cpp:154-160 | For every digit string the unsigned-char accumulator is the number, and is so at every step, iff the number is below 256. |
| SocksRequest.AccumulatedIsValue | hw4/src/cgi.cpp:154-160 | The accumulator is the number modulo 256. |
| SocksRequest.OneCharacterMore | hw4/src/cgi.cpp:154-160 | Any character, a digit or not, adds its code less that of 0. |
| SocksRequest.HostTextSplits | hw4/src/sock_server.cpp:132-135 | The server's dotted text splits into its four octet texts. |
| SocksRequest.RequestsAreDistinct | hw4/src/cgi.cpp:199-213 | Two endpoints make the same request iff they are the same. |
| SocksRequest.StringToIp | hw4/src/cgi.cpp:154-160 | The loop computes the accumulator that the lemmas are about. |
| SocksRequest.EncodeRequest | hw4/src/cgi.cpp:199-213 | Fills the eight-byte array with the request. |
| SocksRequest.PacketHandler | hw4/src/sock_server.cpp:18-23 | Shifts and ors give the decoded packet. |
| SocksRequest.DecodedIs | hw4/src/sock_server.cpp:18-23 | For every request of at least eight bytes: version and command are its first two bytes, the port is the next two as a number with the high byte first, and the address the next four. |
| SocksRequest.DecodedAlikeIff | hw4/src/sock_server.cpp:18-23 | Two requests decode alike iff their first eight bytes agree. |
| SocksRequest.AnyRequestRoundTrip | hw4/src/sock_server.cpp:18-23 | The round trip for every version and command byte, not only the console's. |
| SocksRequest.HostTextIs | hw4/src/sock_server.cpp:135 | The host text of any address is its four base 256 digits in decimal, the highest first. |
| RequestTarget.TargetIs | hw4/src/sock_server.cpp:132-176 | What any request asks for, by its bytes: command 1 connects to the address in its text, or to a name iff the second and third octets are 0 and the first is a multiple of ten; command 2 binds; any other does nothing. |
| RequestTarget.NameTestIff | hw4/src/sock_server.cpp:138 | The textual test tells the addresses that stand for names from others iff the first octet is not ten or a greater multiple of ten with two zeros behind it. |
| RequestTarget.AddressTakenForName | hw4/src/sock_server.cpp:138-151 | The failing inputs: CONNECT to such an address resolves a host whose name is the last octet and the user's id. |
| RequestTarget.ResolvedCheckIff | hw4/src/sock_server.cpp:158-160 | All rule lists answer for a resolved address as for the octets that are checked instead of it iff its last two octets equal its second. |
| RequestTarget.Request | hw4/src/sock_server.cpp:109-176 | The request callback up to the firewall, with its search in the text and its scan for the name. |
| RequestTarget.Find | hw4/src/sock_server.cpp:138 | Whether a text occurs in another, anywhere. |
| DomainName.ScanFindsDomain | hw4/src/sock_server.cpp:25-42 | For every request of 8 arbitrary header bytes, user id, NUL, domain, NUL and NUL-free rest, the backward scan returns the domain, as a forward reading does. |
| DomainName.LaterNulWins | hw4/src/sock_server.cpp:25-42 | Whatever follows the domain's NUL: the scan agrees with the forward reading iff no NUL follows, or the last field of what follows is the domain again. |
| DomainName.SecondNameWins | hw4/src/sock_server.cpp:25-42 | The failing inputs: a second NUL-ended name behind the domain is returned instead of it. |
| DomainName.LastFieldIs | hw4/src/sock_server.cpp:25-42 | Whatever comes before it, the scan finds the field between the last two NULs. |
| DomainName.TooFewNuls | hw4/src/sock_server.cpp:25-42 | With one NUL all that comes before it is found, with none nothing is. |
| DomainName.Scan | hw4/src/sock_server.cpp:25-42 | The counter loop returns the bytes between the last NUL and the one before it, or nothing without a NUL. |
| Firewall.Firewall | hw4/src/sock_server.cpp:66-107 | The carried-flag loop returns true iff no rule is for the command or one that is matches all four octets. |
| Firewall.MatchFrom | hw4/src/sock_server.cpp:75-84 | The inner loop ends at -1 iff all four parts match. |
| Firewall.PrintedMeans | hw4/src/sock_server.cpp:71-77 | A printed rule is for its command only, and matches iff each part is a star or the octet. |
| Firewall.PrintedRulesDecide | hw4/src/sock_server.cpp:66-107 | The answer over printed rules in terms of the rules; the first words play no part, and neither do order and repetition. |
| Firewall.LineSays | hw4/src/sock_server.cpp:66-107 | A line as it is written: c is for CONNECT (1) and b for BIND (2), the first word says nothing, and a list of this one line lets an address pass iff it is for the other command or each part is a star or the octet in decimal. |
| Firewall.DenyAllPasses | hw4/src/sock_server.cpp:66-107 | The failing input: one rule with the word deny and four stars lets every CONNECT pass. |
| Tokenizer.Split | hw2/2/shell.cpp:4-13 | The getline loop computes `Tokens`. |
| Tokenizer.SplitOfLayout | hw2/2/shell.cpp:4-13 | Non-empty delimiter-free parts with one or more delimiters between them come back. |
| Tokenizer.EveryStringIsALayout | hw2/2/shell.cpp:4-13 | Every string is its tokens laid out with delimiters: nothing else is lost. |
| Tokenizer.SplitAtDelimiter | hw2/2/shell.cpp:4-13 | A delimiter between two strings separates their tokens. |
| Decimal.TextOfValue | hw4/src/sock_server.cpp:135-136 | Every string of digits without a leading zero is the text of its number. |
| CommandLine.PrintedSplits | hw2/2/shell.cpp:147 | Split at the pipe signs and then at the spaces, a printed pipeline gives its words back. |
| CommandLine.PipelineIsPlain | hw2/2/shell.cpp:253 | A printed pipeline of several commands is run as those commands with the flags of their words, even if the last one looks like a number, iff it has no marked exclamation mark; with one it is taken for a numbered pipe. |
| CommandLine.NumberedIff | hw2/2/shell.cpp:27-47 | A line with an attached pipe sign and number is the numbered pipe it looks like iff the number is at most 1000 and no earlier exclamation mark is marked; otherwise it is one command more, or has one pipe sign more and both outputs. |
| CommandLine.MarkedIsNumbered | hw2/2/shell.cpp:67-91 | A line ending in `!n` is a numbered pipe for both outputs with that count, up to the largest int. |
| CommandLine.SingleCommand | hw2/2/cmd.cpp:132-134 | A printed single command is run alone iff it is not marked or only its last character is changed; then it is a built-in iff its first argument, files and user pipes left out, is one of the seven names, and otherwise runs with the flags of its words. |
| LineLaws.NamesAreBuiltin | hw2/2/cmd.cpp:132-134 | A command that is typed alone and unmarked is a built-in iff its first argument is setenv, printenv, exit, who, name, tell or yell. |
| LineLaws.AnyLine | hw2/2/shell.cpp:142-258 | For every line, however it is spaced: it is numbered iff it has several pieces and is marked, or its last piece is one word that looks like a count with no space between it and the last pipe sign; its pieces, count and kind from its characters. |
| LineLaws.AttachedWord | hw2/2/shell.cpp:27-47 | Whatever word stands attached to the last pipe sign of an unmarked line: it is a count iff it has one to three digits, leading zeros too, or is 1000, and one more command otherwise. |
| CommandLine.YellIsTakenForNumbered | hw2/2/shell.cpp:67-91 | The failing input: a chat line with a word that starts with an exclamation mark is a numbered line with count 0. |
| TypedLines.TypedDelivery | hw2/2/shell.cpp:128-530 | From text to delivery: for every history of typed lines, the last command of a line printed with a number n behind it, after a pipe sign or an exclamation mark, writes to the pipe delivered to the current line iff that is the n-th next one, n is at most 1000 or the line has a marked exclamation mark, and its words name no output file nor, alone on its line, a refused `>b`; its errors go there iff the line is marked. |
| TypedLines.FileIsNeverDelivered | hw2/2/cmd.cpp:112-117 | The failing input: in every history what `ls > f |1` prints is delivered to no line, though the next line is due its pipe. |
| TypedLines.RefusedIsNeverDelivered | hw2/2/shell.cpp:118-127 | The failing input: so it is with `ls >9 |1` when the `>9` is refused. |
| TypedLines.TypedProducer | hw2/2/shell.cpp:253-273 | Such a typed line is a producer of exactly that line, whatever its words, under the condition on n and the mark. |
| TypedLines.YellIsNeverDelivered | hw2/2/shell.cpp:149-273 | In every history neither the output nor the errors of that chat line are delivered to any line. |
| CommandLine.IsExecutionFile | hw2/2/shell.cpp:37-47 | True iff there is a pipe sign and the last one has no space behind it. |
| LineLaws.AttachedIff | hw2/2/shell.cpp:37-47 | The same, place by place in the line. |
| CommandLine.IsErrorNumberPipe | hw2/2/shell.cpp:67-80 | True iff the last exclamation mark with something behind it has a space before it. |
| LineLaws.MarkedIff | hw2/2/shell.cpp:67-80 | A line is marked iff, its last character left aside, its last exclamation mark stands behind a space. |
| CommandLine.ReplaceInput | hw2/2/shell.cpp:81-91 | The last exclamation mark becomes a pipe sign. |
| LineLaws.SubstitutedIs | hw2/2/shell.cpp:81-91 | Of a line cut at its last exclamation mark both parts stay as they are. |
| LineLaws.ReadIntIs | hw2/2/cmd.cpp:195-200 | How the count is read: an optional sign, digits up to the first other character, cut off at the ends of the int type, and 0 without digits. |
| CommandLine.ReadCommand | hw2/2/cmd.cpp:32-96 | The constructor's loop splits the words of a command into arguments, output file and user pipes, and sets the flags for accepted and refused ones. |
| CommandLine.ParseKeeps | hw2/2/cmd.cpp:43-96 | Every word but `>` is read as often as it stands there; arguments and user pipes are told apart by their look. |
| LineLaws.ParseJoins | hw2/2/cmd.cpp:43-96 | Words are read in their order: behind words that do not end in a `>` more words add their arguments, files and user pipes at the end. |
| LineLaws.WordIs | hw2/2/cmd.cpp:43-96 | What one word is read as, by its characters. |
| LineLaws.LastFileCounts | hw2/2/cmd.cpp:43-45 | The last file of a command is the one it writes to. |
| LineLaws.FirstWord | hw2/2/cmd.cpp:43-96 | The first argument is the first word, unless that is a `>` or a user pipe. |
| CommandLine.ReadAll | hw2/2/shell.cpp:433-434 | The flags of all commands of a line, each judged with its own place. |
| CommandLine.Classify | hw2/2/shell.cpp:142-258 | From the text to the kind of line, commands, count, error flag and each command's flags. |
| Html.PassesAreOneMap | hw3/src/cgi.cpp:37-44 | The six sequential passes in their order equal one character-by-character map. |
| Html.UnescapeEscaped | hw3/src/cgi.cpp:37-44 | Reading the references back undoes escaping. |
| Html.EscapedIsPlain | hw3/src/cgi.cpp:37-44 | No quote, angle bracket or newline is left. |
| Html.CharacterIsWritten | hw3/src/cgi.cpp:37-50 | Wherever a character stands, what is written for it: the six names letter by letter, nothing for a carriage return, itself otherwise. |
| Html.SecondNewlinePass | hw3/src/cgi.cpp:49-50 | The later newline pass finds nothing; the carriage-return pass drops those of the input only. |
| Html.ChunksDoNotMatter | hw3/src/cgi.cpp:55-63 | Escaping chunk by chunk and all at once give the same text, for every way of cutting. |
| Html.ShownReadsBack | hw3/src/cgi.cpp:46-72 | Reading the references of the shown text gives the session's output without its carriage returns. |
| Html.ElementHoldsText | hw3/src/cgi.cpp:51-52 | Cut at its quotes the script element gives back the element's name and the shown text, whatever the session printed. |
| Html.ElementIs | hw3/src/cgi.cpp:46-72 | The whole text of the element: a command goes to the element s of its session, what the session answers to the same in bold, its host to the element h. |
| Html.PageShowsIff | hw3/src/cgi.cpp:51-52 | With any table of escape sequences, the script reads the text's literal as the text that was put there iff the session printed no backslash; its references then read as the session's output. |
| Html.BackslashBreaks | hw3/src/cgi.cpp:51-52 | The failing inputs: a lone backslash swallows the closing quote, and a path comes out with a newline in it. |
| Html.ReplaceAll | hw3/src/cgi.cpp:37-44 | The in-place loop substitutes each occurrence and does not rescan the substitute. |
| Html.ReplaceHtmlChar | hw3/src/cgi.cpp:37-44 | The six calls compute that map. |
| Html.Output | hw3/src/cgi.cpp:46-72 | The three output functions print their element around the shown text. |
| Percent.DecodeEncoded | hw3/src/exe.cpp:14-29 | Decoding undoes every encoder that escapes the percent sign and any chosen other bytes, in either letter case. |
| Percent.WellFormedIsEncoded | hw3/src/exe.cpp:14-29 | Text in which each percent sign starts an escape is nothing but such encodings, of what it decodes to. |
| Percent.DecodeDistributes | hw3/src/exe.cpp:14-29 | Decoding distributes when the first part cuts no escape and the second does not depend on the past; well-formed parts are such. |
| Percent.DecodeConcat | hw3/src/exe.cpp:14-29 | Behind text that cuts no escape decoding can be cut before anything; only the carried code passes the cut. |
| Percent.CutIff | hw3/src/exe.cpp:17-23 | Decoding can be cut behind a string, whatever follows, iff the string cuts no escape. |
| Percent.DeterminedIff | hw3/src/exe.cpp:17-23 | The result does not depend on what the uninitialised variable holds iff a number is read for the first percent sign. |
| Percent.UnreadRepeats | hw3/src/exe.cpp:17-24 | Behind any text that cuts no escape, an escape that nothing is read for stands for the one read before it: whatever follows, the result is that of writing that byte as a proper escape again. |
| Percent.DecodeIsClosed | hw3/src/exe.cpp:17-21 | Well-formed text decodes the same whatever the uninitialised variable holds. |
| Percent.FailedEscapeRepeats | hw3/src/exe.cpp:19-23 | The failing input: an unreadable escape repeats the code before it, so the two parts decode differently on their own. |
| Percent.ScanPair | hw3/src/exe.cpp:19-21 | The number read for any two characters behind a percent sign: digits, one digit with white space or a sign before it or anything behind it, or none. |
| Percent.DigitsAre | hw3/src/exe.cpp:19-21 | The hexadecimal digits and their numbers, in both cases. |
| Percent.ShortEscape | hw3/src/exe.cpp:17-24 | An escape that the end of the text cuts off: one digit is read as it is, anything else repeats the code held. |
| Percent.UrlDecode | hw3/src/exe.cpp:14-29 | The loop, its index bumped inside, computes the decoding. |
| Query.SessionsComeBack | hw3/src/cgi.cpp:219-234 | The form's query string for any non-empty list of host, port and file, values possibly empty, is read back as that list. |
| Query.SessionsAndProxyComeBack | hw4/src/cgi.cpp:341-367 | So it is in hw4, for any list, with the proxy's host and port behind it. |
| Query.ValueOfField | hw3/src/cgi.cpp:193-199 | A field's value comes back, an empty one too. |
| Query.ValueIs | hw3/src/cgi.cpp:193-199 | Only a text of exactly two pieces has a value; a nameless or doubled one has none. |
| Query.FieldsComeBack | hw3/src/cgi.cpp:221-222 | The nested split recovers the values of any list of fields. |
| Query.FieldsAre | hw3/src/cgi.cpp:221-222 | The fields are what stands between the first two question marks; without one there are none. |
| Query.Collect | hw3/src/cgi.cpp:230-234 | The loop that advances its index three times per round collects every third start. |
| Query.TripleAt | hw3/src/cgi.cpp:230-234 | The j-th session is made of the values 3j, 3j + 1 and 3j + 2. |
| Query.Sessions | hw3/src/cgi.cpp:219-234 | The whole reading in hw3, for a number of fields divisible by three. |
| Query.SessionsAndProxy | hw4/src/cgi.cpp:341-367 | The whole reading in hw4, where the loop stops before the last two fields. |
| Query.DropSlash | hw4/src/cgi.cpp:342-343 | Erases the first slash. |
| Query.FirstSlashGoes | hw4/src/cgi.cpp:342-343 | What stands before and behind the first slash stays, and so does a text without one. |

## Left out

- ShellProgram.Session.RunLine: the tables follow user pipes in the standard slots only; the shell's own steps on its list of user pipes are in ClientManager, and who holds their write ends is in UserPipeReaders.
- ShellProgram.Session.ForkStage: likewise, without the list steps between the stage's pipe and its fork.
- ShellProgram.Session.RunSingle: likewise.
- ShellProgram.Session.RunNumbered: likewise.
- ShellProgram.Session.RunPipeline: likewise; both redirections on one command of a chain, where the source dereferences a null pointer, are flags here like any others.
- ShellProgram.Session.RunNumberedPipeline: likewise.
- ForkFacts.SingleFacts: likewise, in other slots the table has no user-pipe ends; an output file is taken to open.
- ForkFacts.NumberedFacts: likewise.
- ForkFacts.StageFacts: likewise.
- TypedLines.TypedDelivery: whether a user pipe is accepted or refused is a parameter of each line, since it depends on the other clients.
- ShellTheorems.WritersOfDelivered: is about the processes of one client; in the one server process those of other clients inherit its waiting pipes as well.
- ShellProgram.NumberPipe.IsPop: counts in unbounded integers, so a countdown does not wrap around the int range.
- ClientManager.Server.OccupyId: requires a free slot, since the source returns no value when all 30 are taken.
- ClientManager.Server.CheckUserPipeId: requires an id in 1..30, since the source indexes the bitmap without a check.
- ClientManager.Server.RunChain: each command has at most one redirection; with both on one command of a chain the source looks up the wrong pipe and dereferences a null pointer.
- ClientManager.Server.RunNumbered: likewise; behind the number there may be one of each.
- UserPipeWorld.StepFollows: the forks are on values; whether a numbered pipe is delivered to a line and which of its commands have an output file are parameters of each operation, and of the descriptors only the write ends of user pipes are there.
- ClientManager.SortById: stands for the library's sort; SortedOnce says why its algorithm does not matter.
- RelaySession.Session.OnHeader: the request is refused or granted by a parameter; the path from a domain name through the resolver to the firewall is not modelled, as its outcome depends on the order of resolver callbacks.
- RequestTarget.Request: stops where the firewall, the resolver and the connection are called; which of them answers first is not modelled.
- RequestTarget.ResolvedCheckIff: is about the octets that are checked, not about when the check runs.
- DomainName.Scan: takes the one-byte array the source turns into a C string to be the byte alone; it has no terminator, so the source may append more.
- CommandLine.IsErrorNumberPipe: a mark at the very beginning, where the source reads the byte before the string, counts as not marked.
- CommandLine.ReadCommand: the verdict on each user pipe is a parameter; which users and pipes there are is ClientManager's.
- CommandLine.Classify: requires a word wherever the source takes the first argument of a command.
- Html.ElementHoldsText: cuts at quotes only; what a script makes of a backslash is in PageShowsIff.
- Html.PageShowsIff: leaves the script language's table of escape sequences open, and uses only that each sequence is longer than what it stands for.
- Percent.UrlDecode: what scanning a bare 0x gives is a parameter, since C libraries differ.
- Query.SessionsAndProxy: requires the slash, the question mark and the two last fields that the source takes for granted.
- Firewall.Firewall: requires the fields the source indexes: two on every line, and an address of four parts on each rule for the command.
- OlderShell.ReadsDueIff: that shell fills and sweeps its list of waiting pipes as Shell does; a pipe that was closed and is still in the delivered list counts as the one read.
- The descriptors of hw2/1, and hw1 (hw1/src/main.cpp), which takes delivered pipes out at each stage of a numbered chain too. Where hw2/1 closes the delivered write end behind the fork (hw2/1/shell.cpp:173-176, 278-281) it does so in the parent and in the child, so the tables are those of a close before it.
- Descriptor numbers and their reuse by the kernel, failing pipe, fork and exec, process exit and waiting, and the order in which several writers of one pipe are served.
- Messages and their wording, who, tell and yell, the environment commands, the prompt, HTML pages and logging.
- Sockets, select, accept loops, name resolution, timers and the asio library itself; a completion is an event of the model.
- The console's session loop (prompt detection, reading the command file) and NUL bytes in what a session prints.
- Parsing of the HTTP request line and environment variables around the query string.
