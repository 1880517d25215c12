# Multi-language object broker: a Dafny model

This project models the core of a broker that lets programs in different
runtimes share objects over socket connections. Each connected runtime (an
endpoint) registers class descriptors with the broker. Any endpoint can then
ask the broker to create an object of a registered class, call a method on
an object, and receive a method's return value.

The model covers two Java classes:

- `LanguageServer` (module `Server`, file `server.dfy`): the registry
  (`langMap`, `dataMap`), overload resolution (`matchParams`, module
  `Overload`, file `overload.dfy`), the routing of CreateObject and
  CallMethod requests to the endpoint that owns the class, and the
  correlation table (`returnMap`, `returnId`) that sends a return value
  back to the endpoint waiting for it.
- `LanguageHandler` (module `Handler`, file `handler.dfy`): one broker-side
  connection, with its strictness flag, its run flag, its outgoing queue and
  the frame builders. The frame format and the reader's classification of
  an input line by its five-character action prefix are pure functions in
  module `Wire` (file `wire.dfy`).

`writeCommand` builds each outgoing line from two padded fields and the
payload. It then passes the finished line, payload included, through
`String.format` with no arguments. The model follows that: `Wire.JavaFormat`
is the formatter on a format string with no arguments. `Wire.Frame` is the
line the handler queues, or no line when the formatter throws. A payload
without `%` passes unchanged, so its frame is the built line
`Wire.PlainFrame`. The handler's write methods report whether a line was
queued. The broker's methods return `FormatFailure` when a line was not
queued, and keep the state changes made before the write.

`LanguageServer` and `LanguageHandler` are Dafny classes whose fields are
updated in place, as in the Java code. The outgoing queue is a `seq` of
lines. The oldest line comes first and new frames go at the end. The maps
are Dafny `map`s. `matchParams` is a method with the original nested loops
and `break`s. It is proved equal to the specification function
`FirstMatch`, and the first-match properties are proved about that function.

Parsed JSON is modelled as datatypes:

- `ClassDescriptor`: a class's name, its constructors (lists of type tags)
  and its methods (`MethodSignature`: name, parameter tags, return tag).
- `Arg`: an argument as a (value, tag) pair. On the wire it is a one-entry
  JSON object that maps the value to its tag.
- `Payload`: the JSON object a handler builds for an outgoing frame.
- `InitData`: the body of an Init frame.

The JSON text of a payload (`toJSONString`) is the function `render` that
each handler is built with. The broker's operations take the parsed request,
not the JSON text.

The opcode enumeration `LanguageOperations` is not among the Java sources.
`Wire.Op` stands for it, with the ordinals of the Python client's copy:
Nothing 0, Error 1, Init 2, Return 3, RegisterClass 4, CreateObject 5,
CallMethod 6. The routing lemmas are proved from `OrdinalInjective` and
`Pad5Injective`, not from these particular values.

## Behaviour reproduced as the code has it

In several places the code behaves in ways a reader might not expect. The
model follows the code.

- `registerClass` replaces an earlier class of the same name, whichever
  endpoint registered it. No duplicate-class error is raised.
- Class names and variables share `langMap` and `dataMap`. A variable `v`
  is stored under the key `"var_" + v`.
- `createObject` computes the matching constructor and then ignores it. The
  owner receives the arguments exactly as they came.
- `callMethod` resolves the overload among the methods that have the called
  name. It then reads the return type at that index of the full method list.
  `ReturnTypeMisread` shows the index mix-up on a two-method class.
  `MisreadSession` runs that class through `CallMethod`: the call of a
  method that returns a string goes out as a void call, with id 0, and no
  correlation entry is recorded. `ReturnTypePositionAgrees` proves that
  the two lists agree when no method of another name comes before the
  chosen one.
- `returnValue` never removes the correlation entry. The Return frame goes
  out with id 0, and its payload does not repeat the correlation id.
- Every frame the broker writes has the five-digit id field. Frames that
  carry no correlation id still have the field, set to `00000`.
- Every outgoing line is read as a format string (see "## Findings"). A
  payload with a `%` that is not a valid text conversion throws after the
  broker has updated its maps. In `createObject` the variable stays bound.
  In `callMethod` the correlation id stays recorded, and `returnId` is
  already advanced. In `returnValue` the value is lost. `%%` reaches the
  endpoint as `%`, and `%n` as a line separator.
- On a resolution failure the broker writes no partial state. The thrown
  `InvalidObjectException` is the `InvalidObject` outcome of the broker's
  methods.

## Model

| member | source | states |
|---|---|---|
| `Wire.Ordinal` | Core/src/languageServer/LanguageHandler.java:46-55 | each operation's ordinal, as `ordinal()` gives it, is below 7 |
| `Wire.OrdinalInjective` | Core/src/languageServer/LanguageHandler.java:46-55 | two operations have the same ordinal only if they are the same operation |
| `Wire.Decimal` | Core/src/languageServer/LanguageHandler.java:128 | the digits `%d` prints for a non-negative number: at least one, decimal digits only |
| `Wire.DecimalLength` | Core/src/languageServer/LanguageHandler.java:128 | a number has at most k digits exactly when it is below 10^k |
| `Wire.ParseDecimalOfDecimal` | Core/src/languageServer/LanguageHandler.java:128 | the printed digits decode back to the number |
| `Wire.Pad5` | Core/src/languageServer/LanguageHandler.java:128 | `%05d` gives decimal digits only, at least five of them, and exactly five for a number below 100000 |
| `Wire.Pad5RoundTrip` | Core/src/languageServer/LanguageHandler.java:128 | a padded field decodes back to the number it was made from |
| `Wire.Pad5Injective` | Core/src/languageServer/LanguageHandler.java:46-55 | two numbers have the same padded field only if they are equal |
| `Wire.JavaFormat` | Core/src/languageServer/LanguageHandler.java:128 | the outer `String.format` with no arguments: text is copied, `%%` prints `%`, `%n` the line separator, a width pads `%`; any other conversion throws, and then no text at all is produced |
| `Wire.JavaFormatPlain` | Core/src/languageServer/LanguageHandler.java:128 | a string without `%` comes out of the formatter unchanged |
| `Wire.JavaFormatAppend` | Core/src/languageServer/LanguageHandler.java:128 | text without `%` in front of a format string passes through, and the rest is formatted on its own, failure included |
| `Wire.JavaFormatEscape` | Core/src/languageServer/LanguageHandler.java:128 | formatting undoes the doubling of every `%`: an escaped text comes out as it was |
| `Wire.JavaFormatRejects` | Core/src/languageServer/LanguageHandler.java:128 | `50%`, `%s`, `%-%` and `%05%` make the formatter throw |
| `Wire.JavaFormatTexts` | Core/src/languageServer/LanguageHandler.java:128 | `%%` prints `%` and `%n` prints the line separator |
| `Wire.JavaFormatWidths` | Core/src/languageServer/LanguageHandler.java:128 | `%3%` prints `  %` and `%-3%` prints `%  ` |
| `Wire.Header` | Core/src/languageServer/LanguageHandler.java:128 | the two padded fields are digits only, at least ten of them |
| `Wire.PlainFrame` | Core/src/languageServer/LanguageHandler.java:128 | definition: the line `writeCommand` builds, the padded ordinal, the padded id and the payload, before the outer `String.format`; its layout is proved in `PlainFrameLayout` |
| `Wire.Frame` | Core/src/languageServer/LanguageHandler.java:127-129 | the queued line is the header followed by the formatted payload, and there is no line when the payload fails to format; a payload without `%` gives the built line unchanged |
| `Wire.Queued` | Core/src/languageServer/LanguageHandler.java:128 | definition: the lines one write adds, the formatted line or none |
| `Wire.PlainFrameLayout` | Core/src/languageServer/LanguageHandler.java:128 | for an id below 100000 the built line is 10 characters longer than its payload; characters 0..5 decode to the ordinal and 5..10 to the id, and the payload follows unchanged |
| `Wire.FrameLayout` | Core/src/languageServer/LanguageHandler.java:127-129 | for an id below 100000 a line is queued exactly when the payload survives formatting; then characters 0..5 decode to the ordinal, 5..10 to the id, and the formatted payload follows, which is the payload itself when it holds no `%` |
| `Wire.PercentPayloadLost` | Core/src/languageServer/LanguageHandler.java:104-109 | a Return payload whose value is `50%` is not queued at all |
| `Wire.DoublePercentRewritten` | Core/src/languageServer/LanguageHandler.java:104-109 | a Return payload whose value is `50%%` is queued with the value `50%` |
| `Wire.Classify` | Core/src/languageServer/LanguageHandler.java:44-58 | the reader fails on exactly the lines shorter than the five-character action |
| `Wire.ClassifyPrefix` | Core/src/languageServer/LanguageHandler.java:44-58 | a line that starts with the padded ordinal of RegisterClass, CreateObject, Init, CallMethod or Return reaches that operation's handler with the rest of the line; Nothing and Error reach no handler |
| `Wire.ClassifyAction` | Core/src/languageServer/LanguageHandler.java:44-58 | for any line of five or more characters: if the action is the padded ordinal of a handled operation, the line goes to that handler with `line[5..]`; the action is reported unknown exactly when it matches none of the five |
| `Overload.Matches` | Core/src/languageServer/LanguageServer.java:170-191 | a candidate fits when its length equals the number of arguments and, in strict mode, each declared tag is `any` or the argument's tag |
| `Overload.FirstMatch` | Core/src/languageServer/LanguageServer.java:163-198 | the result is -1 or a valid index; a non-negative result fits the arguments under the active policy; every earlier candidate fails, and on -1 every candidate fails |
| `Overload.FirstMatchUnique` | Core/src/languageServer/LanguageServer.java:168-197 | any index with the first-match property, or -1 when nothing fits, is the result of `FirstMatch` |
| `Overload.MatchParams` | Core/src/languageServer/LanguageServer.java:163-198 | the nested loops with `found`, `matches` and `break` return exactly `FirstMatch`; strict mode needs equal arity and every declared tag `any` or equal to the argument's tag; loose mode needs equal arity only |
| `Overload.StrictMatchIsLoose` | Core/src/languageServer/LanguageServer.java:170-191 | every strict match also has equal arity, so it is a loose match too |
| `Overload.LooseIsFirstArity` | Core/src/languageServer/LanguageServer.java:186-191 | in loose mode the result is the first candidate whose length equals the number of arguments, or -1 when there is none |
| `Overload.LooseNotAfterStrict` | Core/src/languageServer/LanguageServer.java:170-191 | when strict resolution succeeds, loose resolution succeeds too, at the same index or an earlier one |
| `Overload.FirstMatchAppend` | Core/src/languageServer/LanguageServer.java:168-192 | adding candidates after the existing ones never changes a result among the existing ones; the new ones (offset by the old count) are reached only when no existing one fits |
| `Overload.StrictVersusLooseExample` | Core/src/languageServer/LanguageServer.java:170-191 | with candidates `["int"]`, `["string"]` and one `string` argument, strict mode selects 1 and loose mode selects 0 |
| `Overload.NoMatchExample` | Core/src/languageServer/LanguageServer.java:193-194 | with the one candidate `["int","int"]` and one argument, both modes give -1 |
| `Handler.LanguageHandler.constructor` | Core/src/languageServer/LanguageHandler.java:22-34 | a new connection has `strictTypes` and `shouldRun` true and an empty outgoing queue |
| `Handler.LanguageHandler.Init` | Core/src/languageServer/LanguageHandler.java:82-85 | `strictTypes` takes the Init payload's value and nothing else changes |
| `Handler.LanguageHandler.SetStrictTypes` | Core/src/languageServer/LanguageHandler.java:119-121 | `strictTypes` is overwritten and nothing else changes |
| `Handler.LanguageHandler.Stop` | Core/src/languageServer/LanguageHandler.java:111-113 | `shouldRun` becomes false and nothing else changes |
| `Handler.LanguageHandler.WriteCommand` | Core/src/languageServer/LanguageHandler.java:127-129 | the queue gains `Frame(op, id, payload)` at its tail, or nothing when the formatter throws, and the result says which; earlier lines are unchanged |
| `Handler.LanguageHandler.WriteUncorrelated` | Core/src/languageServer/LanguageHandler.java:123-125 | the two-argument `writeCommand` has the same effect as the three-argument one with id 0 |
| `Handler.LanguageHandler.CreateObject` | Core/src/languageServer/LanguageHandler.java:87-94 | one CreateObject frame with id 0, carrying class name, arguments and variable name, is queued, unless its payload fails to format, in which case nothing is |
| `Handler.LanguageHandler.CallMethod` | Core/src/languageServer/LanguageHandler.java:96-102 | one CallMethod frame carrying the given correlation id, the method name, the arguments and the variable name is queued, unless its payload fails to format |
| `Handler.LanguageHandler.ReturnValue` | Core/src/languageServer/LanguageHandler.java:104-109 | one Return frame with id 0, carrying the value and its type, is queued, unless its payload fails to format |
| `Server.Written` | Core/src/languageServer/LanguageServer.java:108 | definition: a request ending in one write succeeds with its line queued, or ends in the format failure |
| `Server.VarKey` | Core/src/languageServer/LanguageServer.java:106-107 | a variable's key is `"var_"` followed by the variable name |
| `Server.VarKeyInjective` | Core/src/languageServer/LanguageServer.java:115 | different variables have different keys |
| `Server.Candidates` | Core/src/languageServer/LanguageServer.java:119-127 | there are never more candidates than methods |
| `Server.CollectCandidates` | Core/src/languageServer/LanguageServer.java:119-127 | the loop over the class's methods collects exactly `Candidates`: the parameter lists of the methods with the called name, in declaration order |
| `Server.CandidatesInOrder` | Core/src/languageServer/LanguageServer.java:119-127 | the k-th candidate is the parameter list of the method at the k-th position in `NamedPositions`; those positions ascend, hold only methods of the called name, and include every method of that name |
| `Server.ReturnTypePositionAgrees` | Core/src/languageServer/LanguageServer.java:135-139 | the return type read at the resolved index of the full method list is the chosen method's own when no method of another name comes before the chosen one |
| `Server.ReturnTypeMisread` | Core/src/languageServer/LanguageServer.java:135-147 | for methods `describe(): void` then `bark(): string`, a call of `bark` resolves to candidate 0, and the return type read at position 0 is `describe`'s `void` |
| `Server.LanguageServer.constructor` | Core/src/languageServer/LanguageServer.java:39-47 | the broker starts with no connections, empty maps and `returnId` 1 |
| `Server.LanguageServer.Connect` | Core/src/languageServer/LanguageServer.java:63-64 | an accepted connection gets the number `langId++` and joins the end of `langs` |
| `Server.LanguageServer.RegisterClass` | Core/src/languageServer/LanguageServer.java:77-83 | the class's name maps to the registering endpoint and to its descriptor; an earlier class of that name is overwritten; the invariant is kept |
| `Server.LanguageServer.CreateObject` | Core/src/languageServer/LanguageServer.java:85-110 | an unknown class fails with nothing changed; otherwise constructors are resolved with the owner's strictness; no match fails with nothing changed; a match binds `"var_"+varName` to the owner and the class name, and queues one CreateObject frame with the original arguments to the owner and to no one else; if that frame fails to format, the binding stays, nothing is queued and the outcome is the format failure; the correlation state is untouched |
| `Server.LanguageServer.CallMethod` | Core/src/languageServer/LanguageServer.java:112-150 | candidates are the same-named methods' parameter lists, resolved with the owner's strictness; no match fails with nothing changed; a non-void return type (read at the resolved index of the full list) records the fresh id `old returnId` (at least 1, not yet in the table) for the caller, sends it, and advances `returnId` by one; a void one sends id 0 and leaves the table and counter alone; only the owner gets a frame; a frame that fails to format is not queued, the outcome is the format failure, and the table and counter keep their new values |
| `Server.LanguageServer.ReturnValue` | Core/src/languageServer/LanguageServer.java:152-161 | the endpoint recorded for the correlation id, and only it, gets one Return frame with id 0 carrying the value and its type, or nothing, with the format failure, when the frame fails to format; the table keeps the entry |
| `Server.DogSession` | Core/src/languageServer/LanguageServer.java:77-110 | after one registration and one creation, the variable is bound to the owner and the class, the owner has the one CreateObject frame (none if it failed to format), the caller none, and no correlation id has been handed out |
| `Server.ReturnRoundTrip` | Core/src/languageServer/LanguageServer.java:143-159 | register, create, call a non-void method and return: the owner receives the construction and then the call under id 1, and the caller receives exactly the returned value with its type; each frame arrives only if it and every earlier frame of the session formatted, and for payloads without `%` all three arrive as built |
| `Server.MisreadSession` | Core/src/languageServer/LanguageServer.java:135-147 | with `describe(): void` declared before `bark(): string`, a call of `bark` reaches the owner with id 0, and no correlation id is recorded or consumed |

## Left out

- Socket I/O, threads and the polling loops: `LanguageServer.run` (the accept
  loop, modelled only by `Connect`) and the read and write loop of
  `LanguageHandler.run`. Only the reader's classification of a line is
  modelled, as `Wire.Classify`. The writer that drains the queue to the
  socket is not modelled, and neither is concurrent access to the broker's
  maps.
- JSON parsing and `toJSONString` (the json-simple library). Requests are
  parsed datatypes, and the text of a payload is the handler's `render`
  function. `ParseException`, and a JSON field that is missing or of the
  wrong type, are not modelled.
- The catch blocks of `LanguageHandler.run`: an `InvalidObjectException`
  makes the handler queue an Error frame carrying the exception's message.
  The frame never reaches the endpoint: by then the loop has ended and the
  socket is closed. Any exception ends the handler's loop. The model
  returns the failure as an `Outcome` value. Message texts are not
  modelled.
- Logging (`System.out`, `System.err`, `printStackTrace`).
- The `getInstance` singleton, `getPort`, `setPort`, `LanguageServer.stop`
  and the getter `isStrictTypes`. These only read or set one field.
- Crashes on inputs the code does not check. They are preconditions of the
  model: `callMethod` on an unknown variable, or on a key that does not hold
  a variable of a registered class (a null or a failed cast); `createObject`
  on a name whose entry is a variable (a failed cast); `returnValue` with an
  id missing from the table (a null unboxed).
- `Server.LanguageServer.CallMethod`: does not model Java's 32-bit `int`
  wrap-around of `returnId` after 2^31 - 1 calls. The counter is an
  unbounded `nat`. Ids of 100000 and above make frames longer, as `%05d`
  does (`Wire.Pad5`), and never wrap.
- `Wire.Pad5`: takes only non-negative numbers. The code never formats a
  negative ordinal or id.
- `Wire.Pad5`: writes ASCII digits. Java's `String.format` uses the
  default locale's digits, which differ from ASCII under a few locales.
- `Wire.JavaFormat`: `%n` is written as `"\n"`, as `System.lineSeparator()`
  is on Linux and macOS; on Windows it is `"\r\n"`.
- `Wire.JavaFormat`: a conversion with an argument index, such as `%1$%`,
  fails in the model. Java prints `%` for it, or throws for index 0 on some
  Java versions. A width below 2^31 pads the text even where Java would run
  out of memory.
- `Wire.Classify`: counts the characters of a line as Unicode scalar values.
  Java's `substring` counts UTF-16 code units, so a line with a character
  outside the Basic Multilingual Plane is shorter in the model. For example,
  `"00\u{1F600}0"` is `TooShort` in the model, but in Java its action is
  reported unknown.
- `Wire.Classify`: on a line shorter than five characters the Java reader
  throws `StringIndexOutOfBoundsException` and the handler's thread ends.
  The model returns `TooShort`. A null line at end of stream is not
  modelled.

## Findings

| source | as written | input that shows it | evidently intended | confidence | as-written member | corrected member |
|---|---|---|---|---|---|---|
| Core/src/languageServer/LanguageHandler.java:128 | the finished line, payload included, is passed to `String.format` with no arguments, so the payload is read as a format string | a Return whose value is `50%` is lost: the formatter throws and the waiting endpoint never gets it; a value `50%%` arrives as `50%` | queue the built line, with the payload unchanged | not executed; high | `Wire.Frame`, `Wire.PercentPayloadLost`, `Wire.DoublePercentRewritten` | `Wire.PlainFrame`, `Wire.PlainFrameLayout` |

`Handler` and `Server` use the frame as written (`Wire.Frame`), so that the
failure paths and the state they leave behind are modelled. A payload
without `%` is not affected: for it `Wire.Frame` is the corrected
`Wire.PlainFrame` (`Wire.FrameLayout`).
