# java-fork-demo, modelled in Dafny

java-fork-demo has two small programs.

- The **Controller** starts a number of **Box** processes. It relays each Box's standard output
  and standard error onto its own standard output, one frame per read, each frame prefixed by the
  id the Controller logged for it. It also answers every Box's handshake with a name.
- A **Box** dials the Controller and announces its UUID. It then copies whatever the Controller
  sends to its own standard output until the connection ends.

This project models the sequential logic inside that plumbing and proves what each piece
promises.

- `Bytes.dfy`: bytes, big-endian longs, UTF-8 encoding of strings.
- `Decimal.dfy`: `Integer.parseInt` and the decimal text of a port number.
- `Streams.dfy`: a blocking `InputStream` (the bursts of data a read sees, then end of stream or
  an `IOException`) and an output sink that records one unit per write.
- `Handshake.dfy`: the UUID frame a Box sends (built with a `ByteBuffer` class), and how the
  Controller reads it back.
- `BoxProcess.dfy`: `Box` as a class (`connect`, `advertise`, `accept`, `start`), address
  parsing and the argument check.
- `ControllerProcess.dfy`: the redirection loop and its prefixes, the `Controller` class
  (`startBox`, `startBoxProcess`), `startSomeBoxes`, the launch command, the payload and the
  command line.

The environment enters as parameters:
- what a peer sends, and whether its stream fails;
- whether a connection succeeds, and whether a write succeeds;
- whether a process spawns;
- the random name draws and the fresh UUIDs;
- the iteration at which the thread's interrupt flag is seen set (`Option<nat>`, sticky once set).

## Behaviour worth knowing

- **The Box sends 128 bytes, not 16.** The buffer is sized `Long.SIZE * 2`
  (src/Box.java:42), and `Long.SIZE` is 64 bits.
  - The 16 id bytes are followed by 112 zero bytes (`HandshakeFrame`).
  - The Controller asks for up to 128 bytes (src/Controller.java:54). It reads the id from the
    first 16 and ignores the rest (`ReceiveHandshake`, `ReadIdIgnoresTail`).
- **Of the read results, only -1 ends the relay.** A read returning 0 writes nothing, and the
  loop goes on (src/Box.java:53-58, `Box.Accept`). The loop also ends when the interrupt is seen
  (src/Box.java:51), or when a read throws (src/Box.java:52).
- **A Box announces a different id from the one its output is prefixed with.**
  - `startBox(id)` logs `id` and prefixes the Box's output with it (src/Controller.java:91-95).
  - `startBoxProcess` gives the Box a freshly generated UUID instead (src/Controller.java:132).
  - In `Controller.StartBox`, `freshIdText` goes into the command, and `idText` goes into the log
    and the task.
- **After a failed connect, `close()` is never called.** `connect()` sits before the `try`
  (src/Box.java:27-33). In `Box.Start`, `closes == 0` when the peer is unreachable.
- **A short handshake escapes the handler.** `readId` then throws a `BufferUnderflowException`
  (src/Controller.java:82-88). It is not an `IOException`, so:
  - the handler's own message is never printed;
  - the client is never closed;
  - the executor thread's default uncaught-exception handler prints the exception to standard
    error.

  `ReceiveHandshake` returns `Err(BufferUnderflow)` in this case.

## Model

| member | source | states |
|---|---|---|
| Bytes.LongOfBigEndian | src/Controller.java:85-86 | reading eight big-endian bytes back gives the `long` that was written |
| Bytes.BigEndianOfLong | src/Controller.java:85-86 | every eight bytes are the big-endian form of the `long` read from them |
| Bytes.Utf8Char | src/Controller.java:79 | UTF-8 takes 1 to 4 bytes per character; exactly the ASCII characters take one byte, which is the character's code |
| Bytes.Utf8Append | src/Controller.java:78-79 | encoding a concatenation is the concatenation of the encodings |
| Bytes.Utf8 | src/Controller.java:79 | `getBytes(UTF_8)`: the encodings of the characters, in order; the bytes are empty exactly for the empty string |
| Bytes.Utf8Length | src/Controller.java:79 | the encoding is between one and four times as long as the string |
| Bytes.Utf8OfAscii | src/Controller.java:79 | an ASCII string encodes to one byte per character, equal to the character |
| Decimal.ParseInt | src/Box.java:95 | `Integer.parseInt`: a result needs an optional sign followed by digits only; unsigned, '+' and '-' digit strings parse to their value exactly when it fits in 32 bits |
| Decimal.NatString | src/Controller.java:124 | the decimal text of a number: digits only, no leading zero, denoting that number |
| Decimal.ParseNatString | src/Controller.java:124 | parsing the decimal text of an `int`-sized number gives the number back |
| Streams.SplitChunks | src/Box.java:50-52 | reads into a buffer of size c split one burst into pieces of at most c bytes that concatenate to the burst, none empty unless the burst is |
| Streams.ChunksBounded | src/Controller.java:142-144 | every read result is at most the buffer size |
| Streams.ChunksKeepBytes | src/Box.java:52 | the read results, concatenated, are exactly the bytes the stream carries, in order |
| Streams.ChunksOfNonEmptyBursts | src/Box.java:52 | when no burst is empty, no read returns 0 |
| Streams.InputStream.Read | src/Box.java:52 | `read(buffer)`: the next read result goes into the buffer's prefix and its length is returned; -1 at the end; an `IOException` at the end of a failing stream |
| Streams.OutputSink.Write | src/Box.java:57 | one write appends one unit |
| Handshake.HandshakeFrame | src/Box.java:41-46 | the frame is 128 bytes: the most significant half big-endian in bytes 0-7, the least significant half in 8-15, zeros after |
| Handshake.ByteBuffer.Allocate | src/Box.java:42 | a zero-filled buffer, position 0, limit at the capacity |
| Handshake.ByteBuffer.Put | src/Box.java:43-44 | the bytes go at the position, which advances past them; an overflow changes nothing |
| Handshake.ByteBuffer.PutLong | src/Box.java:43-44 | the eight big-endian bytes go at the position, which advances by 8; an overflow changes nothing |
| Handshake.FrameOfPuts | src/Box.java:42-45 | two `putLong`s into a fresh 128-byte buffer leave exactly the handshake frame in its backing array |
| Handshake.ByteBuffer.Flip | src/Box.java:45 | the limit moves to the position and the position to 0 |
| Handshake.GetLong | src/Controller.java:85-86 | `getLong` succeeds exactly when eight bytes remain and returns the long those bytes encode big-endian |
| Handshake.ReadId | src/Controller.java:82-88 | bytes 0-7 give the most significant half and 8-15 the least, each big-endian; fewer than 16 bytes underflow |
| Handshake.ReadIdIgnoresTail | src/Controller.java:82-88 | bytes after the 16th do not influence the id |
| Handshake.HandshakeRoundTrip | src/Controller.java:82-88 | reading back the frame `advertise` builds gives the original UUID |
| Handshake.ReadNBytes | src/Controller.java:54 | `readNBytes(n)` returns the first n bytes received, or all of them when fewer arrive |
| Handshake.ReceiveHandshake | src/Controller.java:53-55 | the Controller's handshake fails exactly when fewer than 16 bytes arrive before the stream ends (a failing read is not modelled); otherwise the id is the one whose frame starts with those 16 bytes |
| Handshake.AdvertisedIdIsReceived | src/Controller.java:54-55 | whatever follows a Box's frame, the Controller reads that Box's id |
| BoxProcess.IndexOf | src/Box.java:91 | `indexOf(':')` is -1 exactly when there is no colon, and otherwise the first colon's position |
| BoxProcess.ParseAddress | src/Box.java:90-100 | "port missing: " + input exactly when there is no colon; every address produced has a port from 0 to 65535 |
| BoxProcess.ParseAddressAtFirstColon | src/Box.java:91-99 | the split is at the first colon: the host is everything before it and the port is parsed from everything after it; an empty host gives the wildcard address; otherwise the result is a bad number or a bad range |
| BoxProcess.SecondColonIsNotANumber | src/Box.java:91-95 | a second colon ends up in the port text, which fails to parse ("a:b:1") |
| BoxProcess.WildcardFormParses | src/Box.java:97-98 | the `":" + port` form is the wildcard address with that port |
| BoxProcess.BoxSettings | src/Box.java:74-88 | a usage error exactly when there are not two arguments; otherwise argument 0 is the id with the address parsed from argument 1, or, when that parse fails, `BadAddress` carrying its error |
| BoxProcess.CreateBoxFromArguments | src/Box.java:84-88 | a new Box with the given id, the address parsed from argument 1 and the 5000 ms timeout, or exactly the error that stops the Box |
| BoxProcess.NonEmptyChunks | src/Box.java:56-58 | only non-empty read results are written, each one of the results read |
| BoxProcess.NonEmptyKeepsBytes | src/Box.java:56-58 | skipping zero-length reads loses no byte |
| BoxProcess.RelayedUninterrupted | src/Box.java:48-60 | without an interrupt, the Box writes every byte it receives, in order, in writes of 1 to 4096 bytes |
| BoxProcess.Connection.Connect | src/Box.java:38 | the connect succeeds exactly when the peer is reachable |
| BoxProcess.Connection.Write | src/Box.java:45 | a write sends all of the data or fails with nothing sent |
| BoxProcess.Connection.Close | src/Box.java:32 | closing counts one close and changes nothing else |
| BoxProcess.Box.constructor | src/Box.java:16-24 | a Box holds its id, the controller address and the timeout, and has no connection yet |
| BoxProcess.Box.Connect | src/Box.java:36-39 | a new socket goes in the field, connected exactly when the peer is reachable |
| BoxProcess.Box.Advertise | src/Box.java:41-46 | the connection receives exactly the 128-byte frame of the Box's id, or the write fails and nothing is sent |
| BoxProcess.Box.Accept | src/Box.java:48-60 | standard output receives one write per non-empty read result, in order, up to end of stream or the interrupt; the call fails exactly when it reaches a failing read |
| BoxProcess.Box.Start | src/Box.java:26-34 | when the connect succeeds, the connection is closed exactly once, whatever happens after; the frame is sent, then the incoming data is relayed |
| ControllerProcess.ControllerSettings | src/Controller.java:155-159 | a usage error without arguments; the box count is 3 by default, or the second argument as parsed |
| ControllerProcess.CreatePayload | src/Controller.java:74-79 | the payload is the UTF-8 first name, a space, then the UTF-8 last name |
| ControllerProcess.FirstNameIsWord | src/Controller.java:61-63 | each first name is ASCII without a space, and appears only once |
| ControllerProcess.LastNameIsWord | src/Controller.java:65-67 | each last name is ASCII without a space, and appears only once |
| ControllerProcess.PayloadIdentifiesNames | src/Controller.java:74-79 | different draws give different payloads: the bytes determine both names |
| ControllerProcess.OutputPrefix | src/Controller.java:100 | the stdout prefix is the id's bytes, then ':' and ' ' |
| ControllerProcess.ErrorPrefix | src/Controller.java:111 | the stderr prefix is "Error in " (9 bytes) in front of the stdout prefix |
| ControllerProcess.LineEnd | src/Controller.java:101 | the suffix is CR LF |
| ControllerProcess.Redirect | src/Controller.java:136-151 | every read result before -1 is written, in read order, as exactly one unit of prefix, chunk and suffix, and nothing else is written; the call fails exactly when the stream fails |
| ControllerProcess.RedirectedChunksBounded | src/Controller.java:142-148 | each redirected unit starts with the prefix, ends with CR LF, and holds at most 1024 bytes between them |
| ControllerProcess.RedirectBoxOutput | src/Controller.java:99-108 | the process's stdout, framed with "<id>: " and CR LF; a failure is logged once and not propagated |
| ControllerProcess.RedirectBoxErrors | src/Controller.java:110-119 | the process's stderr, framed with "Error in <id>: " and CR LF; a failure is logged once and not propagated |
| ControllerProcess.RedirectBoxStreams | src/Controller.java:93-96 | all stdout frames come before any stderr frame, and a failure on stdout does not stop the stderr stage |
| ControllerProcess.BoxCommand | src/Controller.java:124-132 | the command has eight entries. The Box binary is entry 5 and the fresh id entry 6. Both heap flags carry the same memory value. The last entry is exactly ':' followed by the port's decimal text, without sign or leading zeros |
| ControllerProcess.BoxCommandStartsBox | src/Controller.java:123-134 | the command is java, -Xmx/-Xms with the same memory, -XX:+UseSerialGC, -jar and the path, then arguments the Box accepts: the id and the wildcard address on the Controller's port |
| ControllerProcess.Controller.constructor | src/Controller.java:20-24 | a Controller holds its port and Box binary, with nothing launched yet |
| ControllerProcess.Controller.StartBoxProcess | src/Controller.java:123-134 | a spawned process is recorded with its command, which carries the fresh id |
| ControllerProcess.Controller.StartBox | src/Controller.java:90-97 | logs the id given, then launches with the fresh id; only after a successful launch is a redirection task under the given id scheduled; a failed launch propagates |
| ControllerProcess.NewController | src/Controller.java:157 | the Controller listens on port 31337, with the Box binary given, and its memory is the `box.memory` property or "2M" |
| ControllerProcess.Launches | src/Controller.java:176-184 | no more launches succeed than were requested or are possible |
| ControllerProcess.LaunchesStopAtFirstFailure | src/Controller.java:178-183 | the launches made are all successes, and when fewer than `count`, the next launch is the failing one |
| ControllerProcess.LaunchesIsFirstFailure | src/Controller.java:178-183 | any run that stops at the first failure or after `count` launches made exactly `Launches` launches |
| ControllerProcess.StartSomeBoxes | src/Controller.java:176-184 | launches go in index order and stop at the first failure, which is logged; the commands, tasks and "starting box" lines are exactly those of the launches attempted |

## Left out

- Sockets (`ServerSocket` bind and listen loop, `Socket` internals, connect timeouts) are left out.
  A connection is the data its peer sends and whether connecting and writing succeed. This is
  network I/O.
- The Controller's connection handler (`accept`, `useBox`) is modelled only through the
  handshake read (`ReceiveHandshake`) and the payload (`CreatePayload`). Writing the payload to
  the socket, logging "accepted client with id" and closing the client are socket I/O.
- Concurrency is left out: the executor, the cached thread pool, `Thread.sleep`, and how several
  redirection tasks interleave on the shared `System.out`. The interrupt flag is an input.
  `synchronized` is an atomic append of one unit. Each task's units are ordered as proved; the
  interleaving between tasks is not modelled.
- Process spawning (`ProcessBuilder.start`) is left out. A launch is its command line and a
  success flag. The process's streams are given `InputStream`s.
- The marker file (`Files.writeString`), `System.exit`, usage printing and stack traces are
  filesystem and process side effects. They are left out.
- `ThreadLocalRandom` and `UUID.randomUUID` are randomness. The draws and the fresh UUIDs are
  parameters.
- UUID text is opaque. `UUID.toString` and `UUID.fromString` are library formatting, so an id is
  kept as its text. An id argument that `UUID.fromString` would reject is not modelled as an
  error.
- `InetSocketAddress` host resolution is left out. A host is kept as its text.
- Decimal.ParseInt: the sign and digits are ASCII only. `Integer.parseInt` also accepts other
  Unicode decimal digits.
- `System.getProperty("box.memory", "2M")` is read once, into the static field (src/Controller.java:121).
  The model reduces it to the `memoryProperty` parameter of `NewController`, which sets the
  `boxMemory` field of `Controller`; "2M" (`DefaultBoxMemory`) is the default.
- The order of the Controller's `main` is left out. `main` starts the listener before it parses
  the box count, so a bad count throws only after the listener task is handed to the executor.
  `ControllerSettings` states the outcome of the parse, not that ordering.
- BoxProcess.Box.Accept: `connection.isConnected()` is modelled as staying true once the socket
  has connected, which is how `Socket` reports it. The check stays in the loop condition.
- Handshake.ReceiveHandshake: `received` stands for everything the peer sends before its stream
  ends. `readNBytes(128)` blocks until 128 bytes arrive or the stream ends. A peer that sends only
  its 16 id bytes and then waits for a reply leaves the handler blocked. The model instead reads
  its id. Waiting is not modelled. A read that fails is not modelled either: `readNBytes` can throw
  an `IOException`, which the listener catches and logs (src/Controller.java:42-46).
