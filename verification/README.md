# A verified model of the cow game engine

The engine runs untrusted scripts in a small language, replicates a physics world from a room
server to its clients, starts and reaps room processes, and ships an editor that exports
archives. This project models seven of its components in Dafny and proves what they are for.

**The CowScript language.** `CowLexis`, `CowGrammar` and `CowInterp` define lexer, parser and
evaluator as functions on values; `CowLexer`, `CowParser` and `CowMachine` are the same three as
objects with a moving position, environments on the heap and mutable counters, proved to agree
with the functions. The evaluator threads the counters of the source (steps, depth) and a meter
of what it did, so that halting, accounting, independence from limits and bounds on native
recursion are theorems about it (`CowBudget`, `CowLimits`, `CowFrames`, `CowScope`, `CowEvents`).
What programs mean is said a second time without budgets: `CowMeaning` is a set of rules from which
facts about expressions, statements and loops are derived, `CowValues` and `CowSoundness` prove that
whatever the evaluator does can be derived, and `CowCompleteness` that nothing else can.
A printer that uses as few parentheses as possible specifies the grammar: parsing what it prints
gives the tree back (`CowRoundTrip`, `CowStmtRoundTrip`), down to source text (`CowSourceText`).
`CowPrecedence` states how operators group with the classes written out. `CowTokens` says which
stretches of a source are tokens and gaps, with no scanner in it. The highlighter is a second
scanner, and `CowScanners` proves that the two see the same tokens.

**Replication.** `NetProtocol` is the wire format and `NetCodec` the byte writer and reader with
their sticky flag; `WireLayout` states where each byte of a message stands. `Replication` gives the server's handlers and its tick, and the client's fold
over its reliable stream, as one transition system; `GameServer` holds the server and the client
as objects that update their fields. `ReplicationSafety` and `ReplicationRuns` prove that every
client agrees with the room at every tick boundary of every run on spawned bodies and players;
`ReplicationIdentity` proves what resets do to ids, and the room's capacity. On the scene's own
bodies clients can come to disagree: `ReplicationStreams` and `ReplicationScene` prove what each
client shows of them in every run and exactly when that is what stands in the room, and
`ReplicationGhost` gives the ways agreement is lost and runs that lose it. `ReplicationSessions`
is which traffic keeps a session alive and how long a silent one lasts, `ReplicationAdmission` who is
joined and since which hello, and `ReplicationBodies` which bodies carry ids and which numbers they
are. `SampleBuffer` is the snapshot buffer behind each body, capped and pruned.

**Script dispatch.** `ScriptDispatch` runs one event over every scripted entity while the scripts
attach, spawn and destroy; `DispatchSafety` proves the discipline of calls over whole runs, and
that a pass leaves no script out; `DispatchPasses` which events a pass may call, and
`DispatchLimits` that only a breach disables a script. `AttachNesting` is the native recursion of attaching scripts
whose top levels attach scripts, which no budget covers, with the exact condition for it to end.

**Rooms.** `Rooms` holds the lock regions of the room manager, `RoomRuns` every interleaving of
joins with one reaper and a shutdown, `RoomReaper` which rooms the reaper stops and which it spares,
and `RoomCapacity` the exact overshoot of `max_rooms`.

**Archives.** `Crc32` and `CrcPolynomial` are the checksum as a table, as a shift register and as
polynomial division (section 8 of RFC 1952); `StoredZip`, `ZipRoundTrip` and `ZipWriter` are the
stored-ZIP format (sections 4.3.7, 4.3.12 and 4.3.16 of the PKWARE APPNOTE), a reader that starts
from the end record, and the writer; `ZipLayout` gives the archive byte by byte.

**The editor.** `EditorBuffer`, `EditorHistory` and `EditorLines` are the text buffer with its
undo and redo stacks, and the conversion between offsets and positions; `EditorEdits` says what each
command does to the text, the selection and the saved states.

**Blast lights.** `BlastLights` is the selection of the brightest blasts into fixed slots.

Where the code and its own comments disagree the model follows the code, and says exactly when
the comment holds:

- Replacing a selection in the editor is announced as one undo step. One undo takes an insertion
  back if and only if there was no selection, and the insertion saved its own state or joined a
  burst that began in this very state (`EditorHistory.OneUndoTakesBack`).
- `max_rooms` is tested as a limit. It is one if and only if at most one join is under way at a
  time, or the limit is zero, or the port pool has no port to spare (`RoomCapacity.MaxRoomsIsALimit`).
- A reset is said to leave the clients' representation of the scene valid all the way through
  (`src/server/GameServer.cpp:471-475`). A client that showed what was due agrees with the room
  after a tick if and only if the reset in it, should there be one, finds every recorded id that the
  file has a body for standing, or the start scripts destroy it again, and finds no other recorded
  id standing (`ReplicationScene.TickAgrees`). Otherwise a removed body stands again and is not
  shown (`ReplicationGhost.ResetRevivesRemovedBody` is such a run), or a dropped one is still shown.
- Any traffic is said to keep a session alive (`src/server/GameServer.cpp:310`). It is heard if and
  only if the server knows the session or it connects, or its hello comes at the very start
  (`ReplicationSessions.HeardIff`). A hello of an unknown session is admitted as one last active at
  time zero, so it is reaped by the first tick after the server has been up for longer than the idle
  timeout (`ReplicationSessions.UnknownHelloIsReaped`; `AdmittedAndReaped` is such a run).

More places where a natural expectation fails are stated with their exact conditions:

- A client shows what is due from its admission on, the bodies that stand and those whose removal it
  is still to hear of, and agrees on the scene's bodies at every tick boundary since, if and only if
  its claims were the bodies due and every tick since has spared it (`ReplicationScene.SceneAgreement`;
  a late joiner's claims are not, as `ReplicationGhost.LateJoinerKeepsDestroyedBody` shows). Agreement
  at the boundaries alone asks less: that the first tick fits its claims, which may then differ on
  bodies that tick announces as removed, and every later one spares it
  (`ReplicationScene.BoundaryAgreement`).
- A reset of a room whose scene file could not be loaded rebuilds nothing and hands the recorded ids
  out again. Live ids stay distinct if and only if none of those it hands out is in use
  (`ReplicationIdentity.ResetInPlaceIds`).
- Two pieces of typing both survive if and only if no anchor was left at the cursor
  (`EditorHistory.AnchorAtCursorEatsTyping`, reached from an opened file by
  `EditorHistory.AnchorAtCursorIsReached`), and the selection stays inside the text if and only if no
  backspace stranded such an anchor (`EditorHistory.AnchorsStayInText`).
- The step budget can stop a script if and only if calls are allowed and it is below the all-ones
  value (`CowEvents.StepBudgetStopsSome`).
- Attaching a script ends if and only if no chain of attachments from top levels goes on for ever
  (`AttachNesting.AttachingFinishes`).
- A port is in use with nobody to give it back if and only if a join was dropped while it spawned, or
  a shutdown stopped a room the reaper was not about to release (`RoomRuns.LeaksAreLosses`).
- An archive whose directory starts within 32 bits gives back what was staged if and only if the
  count and every name fit 16 bits (`ZipRoundTrip.ReadsBackIff`).

Doubles are opaque bit patterns with an arithmetic passed in as a parameter; builtins, property
accessors and the host world are deterministic functions of the world and the arguments. The
order in which a hash container is iterated, what scripts do in a tick, the outcome of each script
call, status probes and clocks are parameters of the events that use them.

## Model

| member | source | states |
|---|---|---|
| CowEvents.EventAccounts | src/script/CowScript.cpp:968-992 | Every event call ends; at most maxSteps charges succeed, and a step breach is the outcome exactly when the counter passed maxSteps; user calls and loop turns are each paid by charges of their own; at the all-ones maxSteps, where the counter wraps, there is no step breach; call depth never passes its limit; a breach is raised once and is never swallowed on the way out; no return escapes |
| CowEvents.LimitsMatterOnlyWhenReached | src/script/CowScript.cpp:980-1266 | A run that trips neither limit is reproduced, result, globals, world and counters, under other limits if and only if its steps and its peak depth fit them |
| CowEvents.RaisingLimitsIsInvisible | src/script/CowScript.cpp:980-1266 | Raising either limit never changes a run that tripped neither |
| CowEvents.NativeRecursionIsBounded | src/script/CowScript.cpp:996-1060 | The execStmt and evalExpr activations open at once never exceed maxCallDepth times the height of the tallest function or event body |
| CowEvents.GlobalsKeepTheirNames | src/script/CowScript.cpp:905-932 | No event call adds or removes a global variable, however it ends |
| CowEvents.CallsKeepCallerLocals | src/script/CowScript.cpp:1041-1060 | Once its arguments are evaluated, a call changes no binding of any local frame of its caller, and adds or removes no global |
| CowEvents.StepBudgetStopsSome | src/script/CowScript.cpp:980-992 | For any program, host and world, some event ends in a step breach if and only if calls are allowed at all and maxSteps is below the all-ones 64-bit value |
| CowCompleteness.EventMeaning | src/script/CowScript.cpp:968-1344 | An event call that no limit stops comes to a value or an error, globals and a world if and only if they can be derived from the rules of the language, which know no budgets: the evaluator is sound and complete for them |
| CowCompleteness.ExprMeaning | src/script/CowScript.cpp:1130-1263 | The same for every expression: its value or failure, the variables and the world after it are exactly what can be derived, with truth, the operators on their operand values, short circuits, look-up, assignment and calls each given by a rule |
| CowCompleteness.StmtMeaning | src/script/CowScript.cpp:1062-1128 | The same for every statement: which branch an if takes, when a while stops or turns again, what a block hides and what a return carries |
| CowCompleteness.BodyMeaning | src/script/CowScript.cpp:1050-1053 | The same for statement lists |
| CowSoundness.ExprSound | src/script/CowScript.cpp:1130-1263 | Every evaluation of an expression that no limit stops has a derivation of exactly what it did |
| CowSoundness.LoopSound | src/script/CowScript.cpp:1100-1120 | Every run of a loop that no limit stops has a derivation |
| CowCompleteness.ExprComplete | src/script/CowScript.cpp:1130-1263 | What is derived of an expression is what the evaluator does, from any state with those variables and that world, unless a limit stops it |
| CowCompleteness.CallComplete | src/script/CowScript.cpp:1030-1060 | The same for calls: the builtin, or the first function of the name on a frame of its parameters above the globals, or an error |
| CowCompleteness.LoopComplete | src/script/CowScript.cpp:1100-1120 | The same for loops, whatever number of turns they have already done |
| CowCompleteness.LoopIsCapped | src/script/CowScript.cpp:1103-1117 | A loop that has completed 1,000,001 turns is stopped right there by the loop limit |
| CowValues.TruthMeans | src/script/CowScript.cpp:23-39 | True are true itself, numbers other than zero, strings that are not empty and handles that are not null, and nothing else |
| CowValues.EqualMeans | src/script/CowScript.cpp:1237-1252 | Null equals null alone, a handle the same handle alone; with a string the texts are compared, and otherwise the numbers |
| CowValues.OperatorMeans | src/script/CowScript.cpp:1209-1261 | Each operator on any two values has the outcome its rule gives, division by zero being an error |
| CowValues.BindMeans | src/script/CowScript.cpp:1044-1049 | The frame of a call holds each parameter with its argument, null where there is none, and the last of parameters that share a name |
| CowValues.FindMeans | src/script/CowScript.cpp:1033-1039 | The function called is the first of its name, if there is one |
| CowScope.AssignMeaning | src/script/CowScript.cpp:1151-1157 | After an assignment the name reads the new value and every other name reads what it did, across the whole chain of environments |
| CowScope.StmtScoped | src/script/CowScript.cpp:1062-1128 | A statement may add names to the innermost frame only; every enclosing frame keeps its set of names |
| CowScope.ExprScoped | src/script/CowScript.cpp:1130-1263 | The same for every expression, calls, breaches and errors included |
| CowBudget.ExprSpends | src/script/CowScript.cpp:1130-1263 | What evaluating any expression may do to the budget: steps never go back, turns cost strictly less than the steps paid, calls no more |
| CowBudget.CallSpends | src/script/CowScript.cpp:1030-1060 | A user call is paid for by the charge of its call expression |
| CowBudget.LoopSpends | src/script/CowScript.cpp:1100-1120 | Each loop turn is paid for by the charge of its condition |
| CowLimits.ExprSame | src/script/CowScript.cpp:1130-1263 | Evaluation that stays within another pair of limits is the same evaluation under them |
| CowLimits.LoopSame | src/script/CowScript.cpp:1100-1120 | The same for a while loop, its own 1,000,000 cap untouched |
| CowFrames.ExprFrames | src/script/CowScript.cpp:1130-1263 | Open activations above any expression are bounded by its height plus one tallest body per unused call level |
| CowFrames.CallFrames | src/script/CowScript.cpp:1030-1060 | Entering a callee exchanges one unused call level for one body of at most the tallest height |
| CowInterp.EvalExpr | src/script/CowScript.cpp:1130-1263 | However an expression ends, normally, by error or by breach, the call depth and the number of frames are what they were |
| CowInterp.ExecStmt | src/script/CowScript.cpp:1062-1128 | The same for every statement, returns included |
| CowInterp.RunEvent | src/script/CowScript.cpp:1323-1344 | An event call ends at depth zero with only the globals' frame left |
| CowMachine.Env.Find | src/script/CowScript.cpp:910-918 | Finds the nearest binding along the parent chain |
| CowMachine.Env.Assign | src/script/CowScript.cpp:920-931 | Writes the nearest existing binding and no other, or reports that there is none |
| CowMachine.Env.AssignOrDefine | src/script/CowScript.cpp:1151-1157 | Writes the nearest binding, or defines the name in the innermost environment |
| CowMachine.Interpreter.BeginBudget | src/script/CowScript.cpp:968-977 | Starts a run with fresh counters over the globals as they stand |
| CowMachine.Interpreter.Charge | src/script/CowScript.cpp:980-985 | Counts one node and tells whether the step budget still holds |
| CowMachine.Interpreter.BindParams | src/script/CowScript.cpp:1044-1049 | Missing arguments are null, extra ones dropped, and a repeated parameter keeps its last value |
| CowMachine.Interpreter.ExecFunction | src/script/CowScript.cpp:1041-1060 | In place, the interpreter runs a function as the evaluator does; the depth is back at its entry value on every exit |
| CowMachine.Interpreter.ExecCall | src/script/CowScript.cpp:1030-1039 | A builtin of the name comes before a user function, and an unknown name is a runtime error |
| CowMachine.Interpreter.ExecBody | src/script/CowScript.cpp:1050-1053 | Statements in order until one does not end normally |
| CowMachine.Interpreter.ExecInner | src/script/CowScript.cpp:1073-1080 | A block runs in an environment of its own that is gone afterwards |
| CowMachine.Interpreter.ExecStmt | src/script/CowScript.cpp:1062-1128 | In place, every statement has the evaluator's outcome, environments, counters and world |
| CowMachine.Interpreter.ExecWhile | src/script/CowScript.cpp:1100-1120 | The while loop as the evaluator unrolls it, condition first, counter after the body |
| CowMachine.Interpreter.EvalArgs | src/script/CowScript.cpp:1158-1165 | Arguments left to right, stopping at the first that does not end normally |
| CowMachine.Interpreter.EvalExpr | src/script/CowScript.cpp:1130-1263 | In place, every expression has the evaluator's outcome, environments, counters and world |
| CowMachine.Interpreter.EvalMemberAssign | src/script/CowScript.cpp:1174-1183 | Target, then value, then the accessor check, then the write; the value is the result |
| CowMachine.Interpreter.EvalBinary | src/script/CowScript.cpp:1193-1261 | Short circuits return the left operand itself; otherwise both operands are evaluated before the operator |
| CowMachine.Script.RunTopLevel | src/script/CowScript.cpp:1280-1300 | Top-level code runs in the globals under one budget; a return there escapes, which compile does not catch |
| CowMachine.Script.CallEvent | src/script/CowScript.cpp:1323-1344 | A missing event does nothing and leaves the limit flag alone; otherwise the report and the flag follow the run's outcome |
| CowRoundTrip.RoundTrip | src/script/CowScript.cpp:636-898 | Parsing the minimally parenthesised tokens of any expression, at any of the grammar's levels and before any token that cannot continue it, gives the expression back; with the classes of `CowPrecedence`, precedence and associativity are those of the source |
| CowRoundTrip.Spine | src/script/CowScript.cpp:669-785 | Left-associative chains of every binary level re-associate to the tree they came from |
| CowRoundTrip.CallChain | src/script/CowScript.cpp:805-851 | Postfix chains of calls and members parse back in order |
| CowRoundTrip.ArgsRoundTrip | src/script/CowScript.cpp:816-826 | Argument lists of any length parse back |
| CowPrecedence.ChainGroups | src/script/CowScript.cpp:669-803 | Any chain of operands and operators, of any length, groups by the classes {or}, {and}, {==, !=}, {<, <=, >, >=}, {+, -}, {*, /, %}, tighter ones first and from the left within one; prefix operators bind tighter than all of them and nest, and properties tighter still |
| CowPrecedence.PairGroups | src/script/CowScript.cpp:669-785 | x p y q z is p of x and (y q z) if and only if q is in a tighter class than p, and otherwise q of (x p y) and z |
| CowPrecedence.AssignmentGroups | src/script/CowScript.cpp:636-667 | An assignment takes everything after it as its right side |
| CowStmtRoundTrip.StmtRoundTrip | src/script/CowScript.cpp:557-634 | Every statement without a bare block parses back from its tokens, dangling else included |
| CowStmtRoundTrip.ProgramRoundTrip | src/script/CowScript.cpp:494-513 | Every such program parses back from its tokens, functions, events and top-level statements in order |
| CowStmtRoundTrip.ParserImage | src/script/CowScript.cpp:545-634 | The programs the parser can produce are exactly those without a bare block, and each is produced by its own rendering |
| CowStmtRoundTrip.ElseIf | src/script/CowScript.cpp:581-606 | else if is an else block holding that one if, and a second else if on the same chain is an error |
| CowParser.Parser.Advance | src/script/CowScript.cpp:466-470 | Moves to the next token, never past the end |
| CowParser.Parser.Match | src/script/CowScript.cpp:474-482 | Consumes the expected token or nothing |
| CowParser.Parser.ParseExpr | src/script/CowScript.cpp:636-667 | Assignment, right-associative, its target checked after the right side is read |
| CowParser.Parser.ParseBinary | src/script/CowScript.cpp:669-785 | Each binary level as a loop over its operators |
| CowParser.Parser.ParseUnary | src/script/CowScript.cpp:787-803 | Prefix operators, right-associative |
| CowParser.Parser.ParseCall | src/script/CowScript.cpp:805-851 | Postfix calls, on names only, and member accesses |
| CowParser.Parser.ParseArgs | src/script/CowScript.cpp:816-826 | Comma-separated arguments up to the closing parenthesis |
| CowParser.Parser.ParsePrimary | src/script/CowScript.cpp:853-898 | Literals, names and parentheses; anything else is an error |
| CowParser.Parser.ParseStatement | src/script/CowScript.cpp:557-634 | Which statement a first token announces |
| CowParser.Parser.ParseIf | src/script/CowScript.cpp:573-608 | if with else block or one chained if |
| CowParser.Parser.ParseBlock | src/script/CowScript.cpp:545-555 | Statements up to the closing brace |
| CowParser.Parser.ParseParams | src/script/CowScript.cpp:528-538 | Parameter names up to the list's end |
| CowParser.Parser.ParseFnLike | src/script/CowScript.cpp:515-543 | Name, parameters and braced body |
| CowParser.Parser.ParseProgram | src/script/CowScript.cpp:494-513 | Functions, events and top-level statements, each kept in order |
| CowScanners.ScannersAgree | src/script/CowScript.cpp:195-385 | On every source the lexer accepts, the highlight spans that are neither white space nor comment are one for one the lexer's tokens, with the same extents and matching kinds |
| CowScanners.SpansTile | src/script/CowScript.cpp:1427-1521 | On every source at all, the highlight spans are contiguous, non-empty and cover it |
| CowTokens.LexerMeaning | src/script/CowScript.cpp:195-385 | A source lexes to a list of tokens if and only if it reads as that list: gaps of blanks and comments, and between them numerals and words as long as they go, strings with their escapes, and signs, with the keywords and signs written out; where it reads as none, the lexer throws |
| CowTokens.TokenMeaning | src/script/CowScript.cpp:216-385 | Where a token begins, the lexer takes exactly that token |
| CowTokens.QuotedMeaning | src/script/CowScript.cpp:262-303 | What a string literal says: n, t and r after a backslash are newline, tab and carriage return, any other character is itself, and a missing closing quote ends with the source |
| CowTokens.GapMeaning | src/script/CowScript.cpp:195-214 | What is skipped is white space and comments to the end of their lines, and all of it |
| CowSourceText.TokenLexes | src/script/CowScript.cpp:216-385 | Every spellable token, strings with escapes included, reads back as itself wherever it stands |
| CowSourceText.SpellingLexes | src/script/CowScript.cpp:216-385 | A spelled token list lexes back to exactly that list |
| CowSourceText.TextRoundTrip | src/script/CowScript.cpp:1272-1284 | The source text of a program compiles to that program |
| CowLexer.Lexer.SkipWhitespace | src/script/CowScript.cpp:195-214 | Skips blanks and comments, keeping line and column right |
| CowLexer.Lexer.TakeString | src/script/CowScript.cpp:262-303 | Reads a string body with its escapes; an unterminated one ends with the source |
| CowLexer.Lexer.Next | src/script/CowScript.cpp:216-308 | The next token with the line and column where it starts |
| CowLexer.Lexer.NextPunct | src/script/CowScript.cpp:308-385 | Operators and punctuation, longest match first; an unknown character is an error |
| CowLexer.Lexer.Tokens | src/script/CowScript.cpp:216-385 | All tokens of the source, or an error where the lexer throws |
| CowLexer.CompileSource | src/script/CowScript.cpp:1272-1284 | Lexing and parsing together are the front half of compile |
| CowLexer.Highlight | src/script/CowScript.cpp:1427-1521 | The highlighter's loop produces exactly the spans of the specification |
| CowLexer.HighlightOne | src/script/CowScript.cpp:1431-1518 | One span: comment, string, number, word, blanks, two-character operator or single character |
| NetProtocol.SurvivesWire | src/net/Protocol.cpp:96-217 | A message decodes from its encoding to itself if and only if its name and entity counts fit their 16-bit prefixes |
| NetProtocol.DecodeEncode | src/net/Protocol.cpp:96-217 | Decoding an encoding followed by anything gives the message back |
| NetProtocol.EncodeDecode | src/net/Protocol.cpp:104-217 | Whatever decodes to a message starts with that message's encoding: the format is canonical |
| NetProtocol.PrefixRejected | src/net/Protocol.cpp:104-217 | Every strict prefix of an encoding is rejected |
| NetProtocol.PrefixFree | src/net/Protocol.cpp:96-217 | No message's encoding is a prefix of another's |
| NetProtocol.OnlyInputAndSnapshotsMayBeLost | src/net/Protocol.cpp:23-33 | Every message the replica is folded from travels on the reliable channel; only input and snapshots do not |
| NetProtocol.FromToLE | include/net/ByteIO.hpp:22-38 | Little-endian bytes read back as the number they hold |
| WireLayout.Layout | src/net/Protocol.cpp:37-102 | The bytes of every message but the snapshot: its number from 1 to 9, then its fields in order, each in two, four or eight bytes with the lowest first |
| WireLayout.SnapshotLayout | src/net/Protocol.cpp:56-68 | A snapshot is its number, two ticks and a count, and then 44 bytes an entity in order: id, position, rotation, velocity |
| NetCodec.ByteWriter.Raw | include/net/ByteIO.hpp:22-37 | Appends exactly the number's little-endian bytes |
| NetCodec.ByteWriter.WriteStr | include/net/ByteIO.hpp:59-63 | Length truncated to 16 bits, then the bytes |
| NetCodec.ByteWriter.WriteEntities | src/net/Protocol.cpp:56-68 | Each entity of a snapshot in order |
| NetCodec.ByteWriter.WriteBody | src/net/Protocol.cpp:37-94 | Appends exactly the message's body, field by field |
| NetCodec.EncodeMessage | src/net/Protocol.cpp:96-102 | The whole encoding: type byte and body |
| NetCodec.ByteReader.Take | include/net/ByteIO.hpp:140-148 | Never moves past the end; once a read has failed every later one fails |
| NetCodec.ByteReader.Raw | include/net/ByteIO.hpp:83-110 | Reads a little-endian number, or zero after a failure |
| NetCodec.ByteReader.ReadStr | include/net/ByteIO.hpp:129-137 | Length prefix and bytes, or empty after a failure |
| NetCodec.ByteReader.ReadEntities | src/net/Protocol.cpp:120-145 | A snapshot's entities, as far as the buffer holds them |
| NetCodec.ByteReader.ReadBody | src/net/Protocol.cpp:104-217 | Reads the body the type byte calls for, and rejects unknown types |
| NetCodec.DecodeMessage | src/net/Protocol.cpp:104-217 | The sticky-flag reader decodes exactly as the specification reads, never past the end |
| ReplicationRuns.ReplicaAgreement | src/server/GameServer.cpp:292-368 | At every tick boundary of every run, with any interleaving of connects, disconnects, hellos, inputs and scripts, each session's client, having read its reliable stream, knows its own id, shows exactly the live spawned bodies as they look and exactly the other joined players under their names; an unjoined client shows none; and every dynamic body carries an id |
| ReplicationRuns.InvAgrees | src/net/NetClient.cpp:148-172 | What the invariant gives at a tick boundary: agreement in both directions |
| ReplicationRuns.StepKeeps | src/server/GameServer.cpp:284-384 | Every handler and the tick keep the invariant |
| ReplicationRuns.TickKeeps | src/server/GameServer.cpp:558-601 | A tick keeps the invariant, leaves no dynamic body without an id and no removal unannounced |
| ReplicationRuns.InitKeeps | src/server/GameServer.cpp:64-122 | The loaded room satisfies the invariant before anyone connects |
| ReplicationRuns.RunKeeps | src/server/GameServer.cpp:558-601 | The invariant holds in every reachable state while the id counters stay in range |
| ReplicationSafety.AnnounceKeeps | src/server/GameServer.cpp:429-463 | Announcing a body reaches every joined client and keeps the replay list in step |
| ReplicationSafety.FlushKeeps | src/server/GameServer.cpp:484-505 | Announcing a removal takes the body from every joined client and from the replay list at once |
| ReplicationSafety.DespawnShown | src/net/NetClient.cpp:347-360 | A removal takes just that body away from a joined client, and leaves it in step with the shorter replay list |
| ReplicationSafety.RemoveSessionKeeps | src/server/GameServer.cpp:292-305 | A departing player's body goes and every remaining client drops its avatar |
| ReplicationSafety.RemoveSessionsKeep | src/server/GameServer.cpp:531-556 | The same for any set of idle sessions in any order |
| ReplicationSafety.LeaveShown | src/net/NetClient.cpp:347-360 | A player's leave takes just that avatar away, and the client still shows everyone left |
| ReplicationSafety.IntroduceAllGreets | src/server/GameServer.cpp:350-361 | After the introductions, in any order, newcomer and others know each other, and nobody else changed |
| ReplicationSafety.JoinShown | src/net/NetClient.cpp:148-160 | A player's join puts that player's avatar, under its name, among what a client shows and must show, and changes nothing else it shows |
| ReplicationSafety.ReplayAllGreets | src/server/GameServer.cpp:362-364 | From the introductions on, the replay restores the invariant for everyone: the newcomer shows every listed spawn |
| ReplicationStreams.ReplaySends | src/server/GameServer.cpp:362-364 | The replay sends the newcomer, and nobody else, each listed spawn once and in order |
| ReplicationSafety.HelloKeeps | src/server/GameServer.cpp:307-368 | A hello, refused or admitted, with whatever the player's scripts do on compiling, keeps the invariant |
| ReplicationSafety.RebuildKeeps | src/server/GameServer.cpp:224-248 | Tearing the world down around the players and rebuilding it keeps every invariant |
| ReplicationSafety.ScriptsKeep | src/server/GameServer.cpp:465-482 | Whatever scripts spawn, destroy or request keeps the invariant |
| ReplicationIdentity.IdsStayDistinct | src/server/GameServer.cpp:185-222 | In every reachable state all live net ids are distinct and in range, each joined player's body carries its session's id, and the recorded scene ids never change |
| ReplicationIdentity.ResetsRestoreIds | src/server/GameServer.cpp:224-248 | Any reset in any run sends nothing and queues removals of spawned bodies only, and gives every replicated body of the file its first-load id back if and only if the first start scripts destroyed none of them |
| ReplicationIdentity.RecordedIds | src/server/GameServer.cpp:203-214 | The recorded ids begin with the file's own exactly when the start scripts spared its dynamic bodies |
| ReplicationIdentity.RebuiltBodies | src/server/GameServer.cpp:185-222 | After a rebuild the file's bodies stand in order under the recorded ids, the players are untouched, and exactly the overflow is left to be announced as spawns |
| ReplicationIdentity.TeardownAnnouncesSpawnsOnly | src/server/GameServer.cpp:465-482 | A teardown queues no removal of a scene body |
| ReplicationIdentity.ResetInPlaceIds | src/server/GameServer.cpp:185-222 | A reset with no scene file to go back to keeps live ids distinct if and only if none of the recorded ids it hands out is in use |
| ReplicationIdentity.CapacityHolds | src/server/GameServer.cpp:325-338 | No run ever has more players joined than the room admits |
| ReplicationScene.SceneShown | src/net/NetClient.cpp:63-110 | In every run every client shows, of the scene's own bodies, its claims but for those whose removal was announced on its stream, and nothing else |
| ReplicationScene.AdmittedAgrees | src/server/GameServer.cpp:340-364 | A client just admitted agrees with the room on the scene's bodies if and only if its claims are exactly the scene ids that stand, and shows what is due if and only if they are exactly those that stand or whose removal is still to be announced |
| ReplicationScene.TickAgrees | src/server/GameServer.cpp:224-248 | After a tick a joined client that showed what was due agrees on the scene's bodies if and only if there was no reset, or every recorded id with a body in the file stood when it was acted on or is destroyed again by the start scripts, and no other recorded id stood |
| ReplicationScene.StepOwes | src/server/GameServer.cpp:284-384 | Between ticks no event changes whether a client shows what is due |
| ReplicationScene.SceneAgreement | src/server/GameServer.cpp:558-601 | For every run and every client admitted in it: it shows what is due from its admission and agrees on the scene's bodies at every tick boundary since, if and only if its claims were the bodies due and every tick since met the reset guard |
| ReplicationScene.TickAgreesWhen | src/server/GameServer.cpp:558-601 | Any joined client agrees after a tick if and only if, without a reset, it holds just the ids that stand among those whose removal the tick does not announce, or, with one, just the recorded ids that are to stand among those |
| ReplicationScene.BoundaryAgreement | src/server/GameServer.cpp:558-601 | For every run and every client admitted in it: it agrees on the scene's bodies at every tick boundary since if and only if the first tick since fits it and every later one met the reset guard |
| ReplicationScene.ResetOnRecorded | src/server/GameServer.cpp:185-222 | After a reset a recorded id stands if and only if the file has a body for it that the start scripts do not destroy, and its removal is queued if and only if it was before or they do |
| ReplicationScene.RemovalIsFinal | src/net/NetClient.cpp:347-360 | A scene body once announced as removed on a stream is not shown again while the session lasts, whatever resets bring back |
| ReplicationStreams.ScriptsOnScene | src/server/GameServer.cpp:465-482 | A script run moves the ids of exactly the scene bodies it destroys from the living to the pending |
| ReplicationStreams.StepQuiet | src/server/GameServer.cpp:284-384 | Between ticks no stream says anything about the scene's bodies |
| ReplicationGhost.RevivedBodyIsMissing | src/server/GameServer.cpp:185-222 | In any reset, a recorded id that did not stand and that the file has a body for stands afterwards and is missing from every client that was in step |
| ReplicationGhost.DroppedBodyIsShown | src/server/GameServer.cpp:216-222 | In any reset, a recorded id that stood and that the file has no body for is gone afterwards and still shown by every client that was in step |
| ReplicationGhost.ResetRevivesRemovedBody | src/server/GameServer.cpp:465-482 | A run in which a client sees a scene body removed, a reset puts it back under its recorded id, and the client does not show it |
| ReplicationGhost.LateJoinerKeepsDestroyedBody | src/server/GameServer.cpp:362-364 | A run in which a client admitted after a script destroyed a scene body claims and shows it: removals are not replayed |
| ReplicationSessions.SilenceIsReaped | src/server/GameServer.cpp:531-556 | Through any run without a word from a session, it is still there if and only if there was no tick, or the time since it was last active is no more than the idle timeout |
| ReplicationSessions.HeardIff | src/server/GameServer.cpp:307-310 | A message of a session, or its connection, leaves it known and active now if and only if the server knew it, or it connects, or it is a hello in the right version at time zero |
| ReplicationSessions.UnknownHelloIsReaped | src/server/GameServer.cpp:312-340 | A hello of an unknown session makes one last active at time zero: without another word it lasts until the first tick at which the server has been up for longer than the idle timeout |
| ReplicationSessions.AdmittedAndReaped | src/server/GameServer.cpp:531-556 | In a room up for longer than the timeout such a session is joined, and gone after the next tick although no time has passed |
| ReplicationAdmission.HelloJoins | src/server/GameServer.cpp:307-368 | A hello joins its session if and only if it is in the right version and there is room, whether or not the server knew the session, and it joins nobody else |
| ReplicationAdmission.WrongVersionIsRefused | src/server/GameServer.cpp:316-323 | A hello in another version changes nothing but when its session, if known, was last active |
| ReplicationAdmission.NewcomerGets | src/server/GameServer.cpp:340-361 | The newcomer has the next player id from 2^30 on, the name it gave and a new body; every other session is as it was |
| ReplicationAdmission.StepJoins | src/server/GameServer.cpp:284-384 | After any event a session is joined if and only if the event admits it, or it was joined and the event does not end it |
| ReplicationAdmission.JoinedIff | src/server/GameServer.cpp:284-384 | In any run a session is joined if and only if a hello of its own in the right version, with room left, admitted it and no disconnect or silence has ended it since |
| ReplicationBodies.ReplicatedBodies | src/server/GameServer.cpp:429-463 | In every run a body carries an id only if it moves, and after a tick every body that moves carries one |
| ReplicationBodies.NumbersInUse | include/net/Protocol.hpp:42-48 | Ids in use are recorded scene ids below 0x40000000, players counted from 0x40000000, and spawns counted from 0x60000000 |
| ReplicationBodies.AnnouncedAs | src/server/GameServer.cpp:429-463 | A new body is announced with its own looks under the next spawn id, to those joined and nobody else |
| ReplicationBodies.ResetIsServed | src/server/GameServer.cpp:224-248 | After a tick a reset is due if and only if one was due or asked for in it and the start scripts of that reset asked for another |
| GameServer.Server.constructor | src/server/GameServer.cpp:64-122 | A new server is in the loaded state: file read, start scripts run, scene ids handed out and recorded |
| GameServer.Server.OnNetIdDestroyed | src/server/GameServer.cpp:465-482 | Queues scene and spawned ids, except scene ids while a reset is under way; never player ids |
| GameServer.Server.NumberScene | src/server/GameServer.cpp:185-222 | Numbers the bodies without an id in Identity order, recording the ids at first load and handing the record out again afterwards |
| GameServer.Server.Broadcast | src/server/GameServer.cpp:301-304 | Each addressee's stream gains exactly the one message |
| GameServer.Server.OnConnect | src/server/GameServer.cpp:284-290 | Registers a new session or touches a known one |
| GameServer.Server.OnDisconnect | src/server/GameServer.cpp:292-305 | Removes the session and its body and tells everyone left |
| GameServer.Server.OnHello | src/server/GameServer.cpp:307-368 | The whole admission: version and capacity refusals, body, scripts, welcome, introductions, replay |
| GameServer.Server.CountSpawned | src/server/GameServer.cpp:329-332 | Counts exactly the joined sessions |
| GameServer.Server.SweepIdleSessions | src/server/GameServer.cpp:531-556 | Removes exactly the sessions silent for longer than the timeout |
| GameServer.Server.ResetScene | src/server/GameServer.cpp:224-262 | Acts on a requested reset: teardown around the players, rebuild, scene ids, start scripts, in that order |
| GameServer.Server.DetectAndAnnounceSpawns | src/server/GameServer.cpp:429-463 | Gives every dynamic body without an id a spawn id, lists it for replay and announces it to the joined |
| GameServer.Server.FlushPending | src/server/GameServer.cpp:484-505 | Takes every pending id off the replay list and announces its removal, oldest first |
| GameServer.Server.Tick | src/server/GameServer.cpp:558-601 | One tick in the source's order: reap, scripts, reset, spawns, removals |
| GameServer.NetClient.Handle | src/net/NetClient.cpp:141-171 | One reliable message updates the represented entities as the client fold does |
| GameServer.NetClient.ProcessIncoming | src/net/NetClient.cpp:134-172 | Draining the queue folds its messages in order |
| SampleBuffer.PruningIsInvisible | src/net/NetClient.cpp:362-388 | In every run with a rising clock in which the 32-sample buffer always fits, every frame draws what the whole unpruned history calls for: the last sample at or before the target, blended with its successor |
| SampleBuffer.DrawnExactlyWhenReached | src/net/NetClient.cpp:212-217 | In any run with a rising clock a frame agrees with the whole history if and only if the buffer's front has been reached or is the sample the history begins with: nothing was dropped, or only its equals stamped in the same frame |
| SampleBuffer.ThirtyTwoNewerIsTooMany | src/net/NetClient.cpp:212-217 | With 32 samples newer than the last drawn target the next frame there can differ |
| SampleBuffer.BlendInside | src/net/NetClient.cpp:379-386 | A blend only happens strictly between its two samples, and its mix is the part of their span that has passed, or 1 where the span is at most a millionth |
| SampleBuffer.PoseMeaning | src/net/NetClient.cpp:369-384 | The pose comes from the first sample before any is reached, the newest once all are, the one just reached, and otherwise the two neighbours of the target |
| SampleBuffer.RenderMeaning | src/net/NetClient.cpp:369-388 | For any buffer, in order or not: a frame drops samples while the next has been reached and draws the front or the stated mix of the front two |
| SampleBuffer.PushKeeps | src/net/NetClient.cpp:212-217 | A buffer of 32 drops its oldest sample for the new one, and a shorter one drops nothing |
| SampleBuffer.PruneStops | src/net/NetClient.cpp:369-370 | Pruning stops exactly at the last sample at or before the target |
| SampleBuffer.Track.Receive | src/net/NetClient.cpp:212-217 | Keeps the newest 32 samples |
| SampleBuffer.Track.Render | src/net/NetClient.cpp:362-388 | Prunes in place and draws a hold or a blend |
| RoomRuns.PortsStayExclusive | control/src/rooms.rs:144-197 | Under every interleaving of joins, one reaper and a shutdown, the ports of live rooms, spawning joins and rooms stopped but not yet released are pairwise distinct, in the pool and marked in use |
| RoomRuns.CooldownsAreKept | control/src/rooms.rs:144-166 | Under every interleaving, no port is claimed again before its cooldown has run |
| RoomRuns.PoolBoundsRooms | control/src/rooms.rs:168-197 | Live rooms and rooms being started together never exceed the pool |
| RoomRuns.LeaksAreLosses | control/src/rooms.rs:168-197 | Under every interleaving a port is marked in use with no room, join or reaper to give it back if and only if some step lost it: a join dropped while spawning, or a shutdown of a room the reaper is not about to release |
| RoomRuns.StepLeaks | control/src/rooms.rs:402-420 | No step claims or gives back a leaked port, and only those two steps leak one |
| RoomCapacity.OvershootIsBounded | control/src/rooms.rs:175-195 | With at most J joins under way at once, rooms and admitted joins never exceed max_rooms - 1 + J |
| RoomCapacity.OvershootIsReached | control/src/rooms.rs:175-195 | That bound is reached by some run whenever the pool is large enough, so max_rooms limits one join at a time only |
| RoomCapacity.MaxRoomsIsALimit | control/src/rooms.rs:175-195 | Every run with at most J joins under way at once keeps to max_rooms if and only if J is at most one, max_rooms is zero, or the pool has at most max_rooms ports |
| RoomRuns.ClaimKeeps | control/src/rooms.rs:144-158 | The port claimed is held by nobody |
| RoomRuns.ReleaseKeeps | control/src/rooms.rs:396-400 | The reaper gives back a port nobody holds any more |
| RoomRuns.MarkedRooms | control/src/rooms.rs:366-394 | A reaper pass moves no room, adds and removes none, and lists distinct rooms with their own ports |
| RoomReaper.PassMeaning | control/src/rooms.rs:366-394 | For any probes of distinct rooms: a room is listed if and only if its process had exited, or it answered with no sessions or not at all and at least the idle window has passed since it was last occupied; what each room comes out as; and that no other changes |
| RoomReaper.OccupiedWhen | control/src/rooms.rs:376-379 | In every run a room was last occupied when it started or when a pass last found sessions in it, whichever is later |
| RoomReaper.StopsOnlyTheDue | control/src/rooms.rs:396-400 | In every run a live room about to be stopped had exited, or nobody was in it for at least the idle window |
| RoomReaper.DueAreListed | control/src/rooms.rs:366-394 | At any point of any run a pass lists exactly the probed rooms whose process exited or that have been empty for at least the idle window |
| RoomRuns.ClaimMeaning | control/src/rooms.rs:144-158 | A claim takes the lowest port of the pool that is neither in use nor cooling down, if there is one, and forgets only cooldowns that have run out |
| RoomRuns.ReleaseMeaning | control/src/rooms.rs:160-166 | A port given back may be claimed again from the end of its cooldown on and not before |
| Rooms.LowestFree | control/src/rooms.rs:151-156 | The result is the lowest pool port the table does not mention, or there is none |
| Rooms.RoomManager.ClaimPort | control/src/rooms.rs:144-158 | Drops expired cooldowns, then claims the lowest free port |
| Rooms.RoomManager.FindJoinable | control/src/rooms.rs:135-142 | A room of this game and version with space, if and only if there is one |
| Rooms.RoomManager.Mark | control/src/rooms.rs:366-394 | Refreshes the probed rooms in place and lists the doomed ones in order |
| DispatchSafety.CallsAreDisciplined | src/ecs/systems/ScriptSystem.cpp:70-145 | Over any run of passes over a world the scripts change: an instance is started at most once and before its first update, updated at most once a pass, never called through a destroyed entity, and never again after a recorded breach |
| DispatchSafety.RunsAreOrderly | src/ecs/systems/ScriptSystem.cpp:70-145 | The record of calls stays in order through passes, attachments, destructions, loading and resets |
| DispatchSafety.PassServesAll | src/ecs/systems/ScriptSystem.cpp:80-144 | In any run, every instance present when a pass starts that is still there and not disabled when it ends has been started, and in an update pass has been updated in it |
| DispatchSafety.VisitServes | src/ecs/systems/ScriptSystem.cpp:89-142 | When an entity's turn is over, every enabled script on it, whenever attached, has been started and in an update pass updated |
| DispatchPasses.StartPassOnlyStarts | src/ecs/systems/ScriptSystem.cpp:128-129 | Every call a start pass makes is a start, whatever the world |
| DispatchPasses.PassCalls | src/ecs/systems/ScriptSystem.cpp:80-144 | In any pass of any run an instance is called at most for its start and then its update, and for its start only if it had never been called |
| DispatchPasses.UpdatesComeFromUpdatePasses | src/ecs/systems/ScriptSystem.cpp:80-144 | In any run every update on record was called by an update pass |
| DispatchLimits.DisabledIffBreached | src/ecs/systems/ScriptSystem.cpp:107-141 | In any run an instance is disabled if and only if some call of it breached a limit |
| DispatchLimits.BreachMeaning | src/ecs/systems/ScriptSystem.cpp:118-141 | A call of an enabled instance breaches a limit if and only if there is a handler for the event and that handler does |
| DispatchSafety.InstanceKeeps | src/ecs/systems/ScriptSystem.cpp:97-141 | Running one instance disturbs no instance still to be visited |
| DispatchSafety.CallKeeps | src/ecs/systems/ScriptSystem.cpp:118-141 | A call, its effects and the disabling after a breach keep the invariant |
| DispatchSafety.EffectsKeep | src/script/ScriptHost.cpp:562-596 | Whatever a script attaches, spawns or destroys leaves every surviving instance in its place |
| ScriptDispatch.ApplyWork | src/script/ScriptHost.cpp:562-571 | Attaching is idempotent per path, so an entity can only run out of files to attach |
| ScriptDispatch.InstanceWork | src/ecs/systems/ScriptSystem.cpp:89-142 | The index loop over a growing list of instances ends |
| ScriptDispatch.ScriptSystem.AttachScript | src/script/ScriptHost.cpp:562-596 | Records one fresh instance, or does nothing when the path is already listed or its file is unusable; what the file's top level does meanwhile is `AttachNesting` |
| AttachNesting.AttachingFinishes | src/script/ScriptHost.cpp:571-596 | Attaching a script ends, at some depth of native recursion, if and only if the chains of unlisted files that attach one another from their top levels are no longer than the attachments there are |
| AttachNesting.BoundedFinishes | src/script/ScriptHost.cpp:571-596 | Without a chain of more than n attachments, n nested compilations are enough |
| AttachNesting.EndlessFails | src/script/ScriptHost.cpp:571-596 | With chains of every length no depth of recursion is enough, whatever else is attached and recorded first |
| AttachNesting.SelfAttachingIsEndless | src/script/CowScript.cpp:1281-1299 | A file whose top level attaches itself to an entity that does not list it gives chains of every length: the top level runs before the path is recorded |
| ScriptDispatch.ScriptSystem.Mark | src/ecs/systems/ScriptSystem.cpp:107-114 | Disables the instance still standing at the index, if any |
| ScriptDispatch.ScriptSystem.CallEvent | src/ecs/systems/ScriptSystem.cpp:118-121 | The call's effects on the world, and the script's limit flag after it |
| ScriptDispatch.ScriptSystem.RunOne | src/ecs/systems/ScriptSystem.cpp:97-141 | One instance: skipped, started, updated or both, and disabled after a breach |
| ScriptDispatch.ScriptSystem.Run | src/ecs/systems/ScriptSystem.cpp:80-144 | A pass over the snapshot, in place, is the specified pass |
| CrcPolynomial.CrcIsRemainder | src/templates/EmbeddedTemplate_web.cpp:102-121 | For every message the table-driven checksum is the complemented remainder of polynomial long division by the IEEE polynomial, its first 32 terms complemented |
| CrcPolynomial.PolyBits | src/templates/EmbeddedTemplate_web.cpp:112-113 | The reflected constant in the code is that polynomial |
| CrcPolynomial.OneByteIsNoticed | src/templates/EmbeddedTemplate_web.cpp:117-120 | Messages that differ in one byte have different checksums |
| Crc32.RegisterIsBitSerial | src/templates/EmbeddedTemplate_web.cpp:102-121 | The table-driven register equals feeding the message bit by bit, for every message and starting value |
| Crc32.TableStepIsEight | src/templates/EmbeddedTemplate_web.cpp:118-119 | One table step is eight one-bit steps |
| Crc32.BitStepLinear | src/templates/EmbeddedTemplate_web.cpp:112-113 | The one-bit step is linear over exclusive or |
| Crc32.Checksum.Fill | src/templates/EmbeddedTemplate_web.cpp:104-116 | Every table entry is its byte shifted through eight steps |
| Crc32.Checksum.Of | src/templates/EmbeddedTemplate_web.cpp:102-121 | The checksum of the data, the table filled on first use |
| ZipRoundTrip.StagedRoundTrip | src/templates/EmbeddedTemplate_web.cpp:136-215 | When the count and names fit 16 bits and the directory starts within 32, reading the archive of any staged files gives each staged path once, with the bytes staged last under it and their checksum |
| ZipRoundTrip.ReadsBackIff | src/templates/EmbeddedTemplate_web.cpp:136-215 | For archives whose directory starts within 32 bits, reading gives back what was staged if and only if the count and every name fit 16 bits |
| ZipRoundTrip.GivenBackFits | src/templates/EmbeddedTemplate_web.cpp:136-215 | An archive of any size that gives everything back had a count and names that fit 16 bits |
| ZipRoundTrip.BeyondIsLost | src/templates/EmbeddedTemplate_web.cpp:204-212 | Where the low 32 bits of the directory's start do not point at a directory record, nothing is read back |
| ZipRoundTrip.ArchiveRoundTrip | src/templates/EmbeddedTemplate_web.cpp:149-215 | From end record through directory to local headers, reading gives the kept files back in order |
| ZipRoundTrip.ReadsFrom | src/templates/EmbeddedTemplate_web.cpp:204-212 | Every archive is read from the low 32 bits of the directory's start and for the low 16 bits of the count |
| ZipRoundTrip.KeptIsLastPerPath | src/templates/EmbeddedTemplate_web.cpp:138-147 | Every staged path is kept once, with the bytes staged last |
| ZipRoundTrip.RecordReads | src/templates/EmbeddedTemplate_web.cpp:180-202 | Every directory record's back-pointer leads to its own local header and data |
| ZipRoundTrip.TakeEncoded | src/templates/EmbeddedTemplate_web.cpp:123-134 | Every header field reads back as what was written, modulo its width |
| ZipLayout.ArchiveLayout | src/templates/EmbeddedTemplate_web.cpp:149-214 | The archive byte by byte: every local header, path and data where the ones before it end, every directory record with the offset of its header, and the end record with count, size and start |
| ZipLayout.LocalLaid | src/templates/EmbeddedTemplate_web.cpp:161-174 | A local header is 50 4b 03 04, version 20, ten zeros, then checksum, both sizes, path length and no extra field |
| ZipLayout.CentralLaid | src/templates/EmbeddedTemplate_web.cpp:182-200 | A directory record is 50 4b 01 02 with the same fields, twelve zeros and the offset |
| ZipLayout.EndLaid | src/templates/EmbeddedTemplate_web.cpp:204-212 | The end record is 50 4b 05 06, both counts, size and start of the directory, and no comment |
| ZipLayout.KeptOrder | src/templates/EmbeddedTemplate_web.cpp:138-147 | Entries stand in the order in which their paths were first staged |
| ZipWriter.ZipWriter.Put32 | src/templates/EmbeddedTemplate_web.cpp:128-134 | Four little-endian bytes of the number, the rest lost |
| ZipWriter.ZipWriter.Deduplicate | src/templates/EmbeddedTemplate_web.cpp:138-147 | Later files replace earlier ones of the same path, in their place |
| ZipWriter.ZipWriter.PutLocal | src/templates/EmbeddedTemplate_web.cpp:154-176 | Local header, name and data, byte for byte |
| ZipWriter.ZipWriter.PutCentral | src/templates/EmbeddedTemplate_web.cpp:180-201 | A directory record with the offset of its local header |
| ZipWriter.ZipWriter.PutEnd | src/templates/EmbeddedTemplate_web.cpp:204-212 | The end record with count, size and start of the directory |
| ZipWriter.ZipWriter.Build | src/templates/EmbeddedTemplate_web.cpp:136-215 | The buffer ends up holding exactly the specified archive |
| EditorHistory.UndosThenRedos | src/app/CodeEditor.cpp:385-421 | k undos followed by k redos restore text, cursor, anchor and both stacks if and only if there were k states to undo or nothing to redo |
| EditorHistory.RunsKeepBuffersValid | src/app/CodeEditor.cpp:334-421 | Over every run of commands, live and saved cursors lie in their own texts and the stacks together hold at most 500 states |
| EditorHistory.AnchorsStayInText | src/app/CodeEditor.cpp:320-421 | Over every run of commands from an opened file the anchor, live and in every saved state, has lain in its text all along if and only if no command was a backspace, with the anchor at the cursor, that erased more than stands after the cursor |
| EditorHistory.DoKeepsAnchors | src/app/CodeEditor.cpp:855-872 | With every anchor in its text, a command keeps them there if and only if it is not that backspace |
| EditorHistory.SelectionInText | src/app/CodeEditor.cpp:757-769 | The selection ends inside the text if and only if the anchor lies in it |
| EditorHistory.AnchorIsStranded | src/app/CodeEditor.cpp:855-872 | Three moves and a backspace from an opened file end with a selection that reaches beyond the text |
| EditorHistory.UndoTakesBack | src/app/CodeEditor.cpp:334-356 | One undo takes back an edit that saved its own state, and an edit leaves nothing to redo |
| EditorHistory.OneUndoTakesBack | src/app/CodeEditor.cpp:371-383 | One undo takes an insertion back if and only if there was no selection, and the insertion saved its own state or joined a burst that began in this very state |
| EditorHistory.BurstIsOneStep | src/app/CodeEditor.cpp:334-346 | A burst of typing stands in the text in order and is taken back by one undo |
| EditorHistory.AnchorAtCursorEatsTyping | src/app/CodeEditor.cpp:371-383 | Two pieces typed with no selection both end up in the text if and only if no anchor is set: an anchor left at the cursor makes the second replace the first |
| EditorHistory.AnchorAtCursorIsReached | src/app/CodeEditor.cpp:320-332 | An anchor left at the cursor is reached from an opened file: extend the selection by a character and back |
| EditorHistory.ReplacingTakesTwoUndos | src/app/CodeEditor.cpp:371-383 | Replacing a selection saves two states: the first undo gives the text without the selection, the second the text with it |
| EditorEdits.InsertMeaning | src/app/CodeEditor.cpp:371-383 | Text goes in at the cursor or in place of the selection; which states are saved, where the cursor ends and what becomes of the anchor, with nothing left to redo |
| EditorEdits.BackspaceMeaning | src/app/CodeEditor.cpp:855-872 | Backspace erases from the boundary to the cursor, or the selection, or does nothing; the state is saved unless deletions go on |
| EditorEdits.DeleteMeaning | src/app/CodeEditor.cpp:874-890 | Delete erases from the cursor to the boundary, or the selection, or does nothing |
| EditorEdits.CutMeaning | src/app/CodeEditor.cpp:757-765 | Cut takes the selection out and saves the state before it twice |
| EditorEdits.DeleteSelectionMeaning | src/app/CodeEditor.cpp:358-369 | The selection goes as far as it lies in the text, the cursor stands where it began and the state is saved |
| EditorEdits.MoveMeaning | src/app/CodeEditor.cpp:320-332 | The cursor is brought into the text, and the anchor kept, dropped at the old cursor or lifted |
| EditorEdits.UndoMeaning | src/app/CodeEditor.cpp:385-421 | Undo and redo take exactly the newest state of their stack and leave the live one on the other |
| EditorEdits.PushMeaning | src/app/CodeEditor.cpp:334-356 | At most 500 states are kept, the oldest going first, and none is saved while typing or deleting goes on |
| EditorEdits.BackspacesAreOneStep | src/app/CodeEditor.cpp:334-356 | However many backspaces follow each other, they erase one stretch of text and one undo brings it back |
| EditorBuffer.CodeBuffer.Push | src/app/CodeEditor.cpp:334-356 | Saves the state unless it joins a burst, drops the oldest beyond 500, and clears the redo stack |
| EditorBuffer.CodeBuffer.EraseSelection | src/app/CodeEditor.cpp:358-369 | Erases the selected text, clamped to the text's end |
| EditorBuffer.CodeBuffer.Type | src/app/CodeEditor.cpp:371-383 | Replaces any selection, then inserts at the cursor |
| EditorBuffer.CodeBuffer.OnBackspace | src/app/CodeEditor.cpp:855-872 | Erases the selection or back to the boundary |
| EditorBuffer.CodeBuffer.OnDelete | src/app/CodeEditor.cpp:874-890 | Erases the selection or forward to the boundary |
| EditorBuffer.CodeBuffer.OnCut | src/app/CodeEditor.cpp:757-765 | The menu's cut saves the state twice, once itself and once in the deletion |
| EditorBuffer.CodeBuffer.MoveCursorTo | src/app/CodeEditor.cpp:320-332 | Moves within the text, keeping, starting or dropping the selection |
| EditorBuffer.CodeBuffer.ApplyUndo | src/app/CodeEditor.cpp:385-402 | Exchanges the live state with the newest saved one |
| EditorBuffer.CodeBuffer.ApplyRedo | src/app/CodeEditor.cpp:404-421 | Exchanges the live state with the newest undone one |
| EditorLines.ByteToLineCol | src/app/CodeEditor.cpp:177-190 | Binary search finds the line, whose number is the number of newlines before the byte, and the last line for a byte beyond the text |
| EditorLines.LineStarts | src/app/CodeEditor.cpp:165-175 | Where each line starts |
| EditorLines.LineColToByte | src/app/CodeEditor.cpp:192-202 | The offset of a position, clamped to the text and the line |
| EditorLines.OffsetRoundTrip | src/app/CodeEditor.cpp:177-202 | An offset goes to a position and back unchanged if and only if it lies in the text; one beyond comes back as the text's end |
| EditorLines.PositionRoundTrip | src/app/CodeEditor.cpp:177-202 | Every position inside its line goes to an offset and back unchanged |
| BlastLights.CollectBlastLights | src/ecs/systems/BlastVfxSystem.cpp:58-106 | Fills min(maxLights, eligible) slots with the paired data of distinct eligible blasts, no eligible blast left out brighter than one kept, the slots beyond untouched; null arrays or no room give none |
| BlastLights.Dimmest | src/ecs/systems/BlastVfxSystem.cpp:95-98 | The first slot of least brightness |
| BlastLights.BrightnessMeans | src/ecs/systems/BlastVfxSystem.cpp:69-81 | A blast is as bright as the intensity times the cube of the share of its life that is left, in full at first and dark at the end, and gets a light if it has a life and is brighter than a thousandth |
| BlastLights.ReplaceKeeps | src/ecs/systems/BlastVfxSystem.cpp:94-103 | Replacing the dimmest slot by a brighter blast keeps a top selection |
| BlastLights.OrderOnlyBreaksTies | src/ecs/systems/BlastVfxSystem.cpp:58-106 | Two top selections of the same blasts differ only in blasts of equal brightness, so the view's order decides nothing but ties |

## Left out

- The wall-clock deadline of a script run (`maxMillis`) and its sampling every 1024 steps: the model takes `maxMillis` as 0.
- CowEvents.EventAccounts: at the all-ones 64-bit `maxSteps` the counter wraps, and nothing is claimed of its value; `CowEvents.StepBudgetStopsSome` says what that means for the budget.
- CowCompleteness.EventMeaning: the rules know no limits, so a call that one stops is outside them; `CowEvents.LimitsMatterOnlyWhenReached` says when that is.
- CowEvents.LimitsMatterOnlyWhenReached: the limits of the first run exclude that same `maxSteps`, since its counter may have wrapped; those of the second run do not.
- CowMachine.Script.RunTopLevel: a `return` at top level escapes compile in the source; the model reports it as an outcome of its own.
- Line numbers and message texts of errors; the token list is lexed before parsing starts, so a lexical error anywhere is a parse error, as it is in the source.
- Number parsing (`stod`) and number formatting are parameters; text round trips ask only that a number's spelling reads back.
- CowParser.Parser.ParseBinary: one method for the six binary levels, which the source writes as six functions of the same shape.
- Changing a script's limits between calls, and builtins that call back into the interpreter: the bound on native recursion is for one interpreter, and `AttachNesting` covers the nesting of interpreters by attachments alone.
- ReplicationRuns.ReplicaAgreement: assumes that the player counter stays below the spawn range, that scene ids stay below the player range, that scripts do not destroy player bodies, and that each incarnation of a session is a fresh client; spawn ids are not wrapped at 32 bits. The same holds for the claims of `ReplicationScene`.
- ReplicationIdentity.IdsStayDistinct: its runs are of rooms whose scene file was loaded; a room that fell back to the default scene resets in place, and `ReplicationIdentity.ResetInPlaceIds` says when that keeps ids distinct.
- Unreliable snapshots, explosions, positions and the correction of the local player; input commands only keep their session alive.
- Player names are taken as already sanitised and looks as opaque; the cap of 512 spawned entities is not modelled.
- SampleBuffer.PruningIsInvisible: times and the mix are real numbers, and mixing itself is left as a pair of samples with a fraction.
- RoomRuns.PortsStayExclusive: leaked ports stay in use for good and are not listed among the holders (`RoomRuns.LeaksAreLosses`); tokens are taken to be fresh.
- Child processes, readiness polling, status frames and the clock's arithmetic overflow in the room manager.
- DispatchSafety.CallsAreDisciplined: scripts are compiled without running their top-level effects, which can be given as effects between passes; the file set is fixed during a run.
- ScriptDispatch.ScriptSystem.AttachScript: records the path without running the attached file's top level, which the source runs first.
- AttachNesting.AttachingFinishes: a top level attaches a fixed list of paths to entities that exist, however the world looks; its other effects and its own budget are left out.
- ScriptDispatch.ScriptSystem.Run: the component pool is a map field, so the invalidation of references by its reallocation is not modelled beyond the look-ups by index that answer it.
- ZipRoundTrip.StagedRoundTrip: where the directory starts beyond 32 bits, what the reader then finds depends on the bytes of the files; `ZipRoundTrip.ReadsFrom`, `GivenBackFits` and `BeyondIsLost` say all that holds whatever they are.
- EditorHistory.RunsKeepBuffersValid: claims no range for the selection anchor, which can lie beyond the text; `EditorHistory.AnchorsStayInText` says when.
- Word and UTF-8 boundaries in the editor are parameters of the erasing commands; rendering, mouse and clipboard are not modelled.
- BlastLights.CollectBlastLights: brightness is real arithmetic; positions, radii and colours are opaque.
- Rendering, windows, physics, cameras, asset loading, JSON scenes, localStorage, UDP, QUIC and WebSocket transports, the control API and its database: input and output, or geometry over libraries that are not part of this model.
