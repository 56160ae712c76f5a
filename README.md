# HiveMind engine adapter, modelled in Dafny

The server talks to an external Hive-playing engine, the HiveMind. There
are two transports. Over a child process it writes newline-terminated
commands to the engine's standard input. It then recovers the first JSON
object from the engine's noisy standard output. Over a socket it writes
message texts. It then decodes each reply as `SUCCESS`, `FAILED`, a
movement, or an invalid command. A session keeps at most one pending move
request. Each request is identified by a counter. A later request fails the
earlier one, and a timer fails a request that is still current.

This project models those pieces:

- `JsonScanner` (`json_scanner.dfy`) models `extractJSON(from:)`. It is a
  method with the source's `while` loop. It is proved equal to a
  declarative specification, `Extraction`. The result starts at the first
  `{`. The depth stays positive inside the result. The result ends where the
  depth returns to zero, or at the end of the text. Lemmas prove three
  things: at most one span meets this specification; the result is a
  balanced object or an unterminated tail; and brace-free text in front of
  the output does not change what is extracted.
- `HiveMindProcess` (`hive_mind_process.dfy`) models the `new`, `play` and
  `move` command lines. The `play` line and the `new` line written at start
  are proved to be exactly one line each. A `move` line is proved to be one
  line exactly when the move's JSON holds no newline. Given one JSON
  rendering of a movement for both transports, each line is proved equal to
  the socket message text plus a newline. The module also models what the
  `play` timer makes of the output it reads.
- `SocketProtocol` (`socket_protocol.dfy`) models `SocketMessage.description`,
  `SocketResponse.from(string:)` and the `HiveMindError` cases.
- `HiveMindSession` (`hive_mind.dfy`) models the `HiveMind` class. Its
  fields are `movementPromiseID` and `nextMovementPromise`. A promise is the
  identifier it was created with. A timer firing is a call `Timeout(id)`. A
  socket message arriving is a call `Receive(text)`. A ghost `log` records
  every resolution in order. The invariant `Valid()` says two things. No
  promise is resolved twice. Every promise up to the current identifier is
  resolved, except the pending one. Every method keeps `Valid()`, so both
  facts hold after any sequence of `Play`, `Timeout`, `Receive` and `Apply`
  calls.
- `Wrappers` (`wrappers.dfy`) holds `Option`, `Result` and the text of a
  Swift `Bool`.

`Movement` comes from the engine library. Here it is a type parameter. Its
JSON rendering (`json`) and decoder (`decode`) are parameters: arguments to
the functions, and constants of the session class.

`HiveMindSession.HiveMind.Resolve` is the shared step that fails or
completes the pending promise and clears the slot. `SupersededRequest` and
`TimedOutRequest` are two short client scenarios that run the session
methods in sequence. They have no row of their own.

The model follows the code in these points, where a reader might expect
something else:

- `handle(response:)` compares no identifiers. Any response resolves
  whatever promise is pending. So a late reply to a timed-out request
  completes the next request. Only the timer checks the identifier.
- A superseded request fails with `noMovement`. The error enum has no
  separate "superseded" case.
- For unbalanced braces, `extractJSON` returns the unterminated tail from
  the first `{` (`UnbalancedExample`). It does not return "no match".
- The socket decoder does not call `extractJSON`. It matches the two
  literals, then hands the whole text to the movement decoder.
- The socket `HiveMind` never sends the `new` message. Only the process
  variant writes `new … 10.0`.

## Model

| member | source | states |
|---|---|---|
| `JsonScanner.FirstIndex` | Sources/App/Process/HiveMindProcess.swift:151 | none exactly when the character is absent; otherwise an in-range index holding it, with no occurrence before it |
| `JsonScanner.ExtractJSON` | Sources/App/Process/HiveMindProcess.swift:149-166 | the scan loop returns exactly `Extraction(s)`: none iff there is no `{`, otherwise a span meeting `IsExtraction`; the loop keeps `depth` equal to the depth of the text scanned so far, positive before the last step |
| `JsonScanner.ExtractionSpec` | Sources/App/Process/HiveMindProcess.swift:150-151 | the extraction is none exactly when the text holds no `{`; otherwise it meets the specification |
| `JsonScanner.ExtractionUnique` | Sources/App/Process/HiveMindProcess.swift:152-165 | at most one span meets the specification, so the scanner's result is determined by the text |
| `JsonScanner.DepthCounts` | Sources/App/Process/HiveMindProcess.swift:153-163 | the depth after scanning a stretch of text equals its number of `{` minus its number of `}`; other characters do not count |
| `JsonScanner.ExtractionShape` | Sources/App/Process/HiveMindProcess.swift:154-165 | the extracted text is a balanced object (starts with `{`, ends with `}`, equal counts, every proper prefix has more `{`) or the unterminated tail ending at the end of the text |
| `JsonScanner.ShiftedExtraction` | Sources/App/Process/HiveMindProcess.swift:151-165 | a span meeting the specification on `s`, moved by the length of a brace-free prefix, meets it on the prefixed text |
| `JsonScanner.PrependNoise` | Sources/App/Process/HiveMindProcess.swift:151 | brace-free text in front shifts the span by its length and leaves the extracted text unchanged; it never turns a result into none or back |
| `JsonScanner.ExtractsBalancedObject` | Sources/App/Process/HiveMindProcess.swift:151-165 | a balanced object behind brace-free text is exactly what is extracted, whatever follows it |
| `JsonScanner.ExtractsUnterminatedTail` | Sources/App/Process/HiveMindProcess.swift:154-165 | an object whose braces never close, behind brace-free text, is extracted as the whole tail rather than rejected |
| `JsonScanner.NoisyExample` | Sources/App/Process/HiveMindProcess.swift:149-166 | `noise{"a":{"b":1}}more` yields the span of `{"a":{"b":1}}` |
| `JsonScanner.UnbalancedExample` | Sources/App/Process/HiveMindProcess.swift:149-166 | `log {{}` yields the tail `{{}`, not none |
| `HiveMindProcess.NewCommand` | Sources/App/Process/HiveMindProcess.swift:48 | the `new` command is a single newline-terminated line iff the rendered exploration time holds no newline |
| `HiveMindProcess.InitCommand` | Sources/App/Process/HiveMindProcess.swift:42-48 | the command written at start, with exploration time 10, is a single line |
| `HiveMindProcess.PlayCommand` | Sources/App/Process/HiveMindProcess.swift:72 | `play` is a single newline-terminated line |
| `HiveMindProcess.MoveCommand` | Sources/App/Process/HiveMindProcess.swift:127 | the `move` command is a single line iff the move's JSON holds no newline |
| `HiveMindProcess.SameProtocolAsSocket` | Sources/App/HiveMind/HiveMind.swift:18-27 | each process command equals the socket message text for the same command, followed by a newline |
| `HiveMindProcess.ReadMove` | Sources/App/Process/HiveMindProcess.swift:89-108 | fails with `JSONExtraction` iff the output holds no `{`; otherwise decodes exactly the extracted text, giving the movement or a decoding failure |
| `HiveMindProcess.ReadsMoveBehindNoise` | Sources/App/Process/HiveMindProcess.swift:89-102 | a movement whose JSON is a balanced object is read back from output where brace-free diagnostics come before it and anything comes after |
| `SocketProtocol.From` | Sources/App/HiveMind/HiveMind.swift:36-46 | total: exactly `SUCCESS` gives success, exactly `FAILED` gives failure, any other text the decoder accepts gives that movement, and the rest is an invalid command |
| `SocketProtocol.DescriptionInjective` | Sources/App/HiveMind/HiveMind.swift:18-27 | distinct messages have distinct texts, when the move JSON tells the moves apart |
| `SocketProtocol.MovementRoundTrip` | Sources/App/HiveMind/HiveMind.swift:36-46 | a movement's JSON object decodes back to that movement when the decoder inverts the encoder |
| `SocketProtocol.LiteralsTakePrecedence` | Sources/App/HiveMind/HiveMind.swift:37-39 | the two literals are recognised whatever the movement decoder would say about them |
| `HiveMindSession.Delivered` | Sources/App/HiveMind/HiveMind.swift:131-147 | a movement delivers success with it; failure and invalid command deliver `noMovement`; success delivers nothing |
| `HiveMindSession.HiveMind.constructor` | Sources/App/HiveMind/HiveMind.swift:61-71 | a new session has identifier 0, nothing pending, no resolutions; the invariant holds |
| `HiveMindSession.HiveMind.Resolve` | Sources/App/HiveMind/HiveMind.swift:99-101 | appends one resolution of the pending promise with the given outcome and clears the slot; the identifier and the written texts are unchanged, and the invariant holds |
| `HiveMindSession.HiveMind.Play` | Sources/App/HiveMind/HiveMind.swift:81-105 | a pending promise is first failed with `noMovement`; the identifier goes up by exactly 1; the new, unresolved promise is installed; `play` is written |
| `HiveMindSession.HiveMind.Timeout` | Sources/App/HiveMind/HiveMind.swift:97-102 | fails the pending promise with `timeOut` and clears it iff one is pending and the captured identifier is current; a timer for an already resolved promise changes nothing |
| `HiveMindSession.HiveMind.Handle` | Sources/App/HiveMind/HiveMind.swift:131-147 | resolves the pending promise, whatever its identifier, with what the response delivers, and clears it; with nothing pending, or on success, nothing changes |
| `HiveMindSession.HiveMind.Receive` | Sources/App/HiveMind/HiveMind.swift:161-165 | decodes the text with `From` and handles the result |
| `HiveMindSession.HiveMind.Apply` | Sources/App/HiveMind/HiveMind.swift:112-115 | writes the `move` message and leaves the identifier, the pending promise and the resolutions unchanged |

## Left out

- Process spawning, pipes, reads of available output, `deinit` and `close`: these are operating-system I/O. The output the `play` timer reads is the parameter of `ReadMove`. The draining of output before `play` is not modelled.
- The WebSocket connection, disconnection and delegate callbacks other than the text they pass on: network I/O. `websocketDidReceiveData` converts bytes to text and then does what `Receive` does.
- The `DispatchQueue` timers and the race between timer and socket threads: concurrency. The timer is the explicit call `Timeout(id)`. The 12-second delay (exploration time plus 2) is not modelled.
- JSON encoding and decoding of `Movement`: these belong to the engine library. They are the parameters `json` and `decode`.
- `JsonScanner.ExtractJSON`: the model's text is a sequence of Unicode scalar values, while a Swift `String` is a sequence of grapheme clusters. `firstIndex(of:)` and the `switch` on each character compare whole clusters in the source, so a `{` or `}` followed by a combining mark is not a brace there. On such input the model finds a brace where the source does not. For example, on `{` U+0301 `}` the source finds no `{`, and the model returns the span of the whole text. The same holds for `JsonScanner.FirstIndex` and for `HiveMindProcess.ReadMove`.
- UTF-8 conversions between `Data` and `String` are not modelled: text is `seq<char>`. So the `stringToDataConversion` failures and the `nil` from a failed conversion cannot occur in the model.
- The floating-point rendering of the exploration time: it is the text `10.0` for the process, and an abstract string field in `SocketMessage.New`.
- `ReadMove`: the decoder's own thrown error is the single case `DecodingFailed`. The `unknown` failure for a deallocated process object is not modelled.
- `HiveMindProcess.SameProtocolAsSocket`: the process renders a movement with `JSONEncoder`, and the socket renders it with `movement.json()`. The lemma takes one function `json` for both. It does not show that the two renderings agree; they belong to the engine library.
- `MoveCommand`: `apply(move:)` silently writes nothing when the move cannot be encoded. The model always has the move's JSON text.
- `HiveMindSession.HiveMind.Play`: `movementPromiseID` is a Swift `Int`, which traps on overflow. The model's integer is unbounded.
- The HTTP controllers, the shell-based process variant, configuration, routes and the `JSONEncoder` wrapper: framework glue and I/O.
- The `print` logging in both transports: console output with no effect on state.
- The one-second delay before `init(isFirst:)` writes the `new` line: timing. `InitCommand` is the text written. The model does not capture that a `play` issued within that second can reach the engine before `new`.
- The message texts of `HiveMindError`: a message table, not behaviour.
