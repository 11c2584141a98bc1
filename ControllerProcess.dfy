/** The Controller: it launches Box processes, relays their output streams into its own
    standard output with a per-Box prefix, and answers each Box's handshake. */
module ControllerProcess {
  import opened Bytes
  import opened Results
  import opened Decimal
  import opened Streams
  import BoxProcess

  /** The port the Controller listens on. */
  const ControllerPort: nat := 31337

  /** The number of Boxes started when the command line does not say. */
  const DefaultBoxCount: int := 3

  /** The heap size passed to every Box when the `box.memory` property is not set. */
  const DefaultBoxMemory: string := "2M"

  /** The size of the buffer each redirection reads into. */
  const RedirectBufferSize: nat := 1024

  // ---------------------------------------------------------------------------------------
  // Command line

  /** What the Controller's command line yields: the Box binary and how many Boxes to start. */
  datatype Settings = Settings(boxBinaryPath: string, boxCount: int)

  /** Why the Controller does not get to start Boxes: no Box binary was named (a usage error), or
      the count is not a number (`Integer.parseInt` throws). */
  datatype SettingsError = UsageError | BadBoxCount(text: string)

  /** `validateArguments` and the box-count default: the first argument is the Box binary, the
      second, if any, the number of Boxes, and 3 without it; further arguments are ignored. */
  function ControllerSettings(arguments: seq<string>): (r: Result<Settings, SettingsError>)
    ensures r == Err(UsageError) <==> |arguments| < 1
    ensures |arguments| == 1 ==> r == Ok(Settings(arguments[0], DefaultBoxCount))
    ensures |arguments| > 1 ==>
      match ParseInt(arguments[1])
      case None => r == Err(BadBoxCount(arguments[1]))
      case Some(n) => r == Ok(Settings(arguments[0], n))
  {
    if |arguments| < 1 then Err(UsageError)
    else if |arguments| > 1 then
      match ParseInt(arguments[1])
      case None => Err(BadBoxCount(arguments[1]))
      case Some(count) => Ok(Settings(arguments[0], count))
    else Ok(Settings(arguments[0], DefaultBoxCount))
  }

  // ---------------------------------------------------------------------------------------
  // The handshake answer

  const FirstNames: seq<string> := ["Leonard", "Lionel", "Elton", "Nina", "Art", "Tracy", "Freddy"]
  const LastNames: seq<string> := ["Cohen", "Richie", "John", "Simone", "Garfunkel", "Chapman", "Mercury"]

  /** The space byte that separates the two names. */
  const Space: byte := 0x20

  /** `createPayload`: the UTF-8 bytes of a first name, a space and a last name; `first` and
      `last` are the two random draws, each below the length of its list. */
  function CreatePayload(first: nat, last: nat): (payload: seq<byte>)
    requires first < |FirstNames| && last < |LastNames|
    ensures payload == Utf8(FirstNames[first]) + [Space] + Utf8(LastNames[last])
  {
    Utf8Append(FirstNames[first] + " ", LastNames[last]);
    Utf8Append(FirstNames[first], " ");
    Utf8(FirstNames[first] + " " + LastNames[last])
  }

  predicate NoSpace(s: string)
  {
    ' ' !in s
  }

  /** Every listed first name is an ASCII word, and no name is listed twice. */
  lemma FirstNameIsWord(i: nat, j: nat)
    requires i < |FirstNames| && j < |FirstNames|
    ensures IsAscii(FirstNames[i]) && NoSpace(FirstNames[i])
    ensures FirstNames[i] == FirstNames[j] ==> i == j
  {
  }

  /** Every listed last name is an ASCII word, and no name is listed twice. */
  lemma LastNameIsWord(i: nat, j: nat)
    requires i < |LastNames| && j < |LastNames|
    ensures IsAscii(LastNames[i]) && NoSpace(LastNames[i])
    ensures LastNames[i] == LastNames[j] ==> i == j
  {
  }

  /** Two ASCII strings with the same encoding are the same string. */
  lemma AsciiEncodingInjective(a: string, b: string)
    requires IsAscii(a) && IsAscii(b) && Utf8(a) == Utf8(b)
    ensures a == b
  {
    Utf8OfAscii(a);
    Utf8OfAscii(b);
    assert forall i :: 0 <= i < |a| ==> a[i] as int == Utf8(a)[i] as int == b[i] as int;
  }

  /** The encoding of an ASCII word without spaces has no space byte. */
  lemma AsciiWordHasNoSpaceByte(s: string)
    requires IsAscii(s) && NoSpace(s)
    ensures Space !in Utf8(s)
  {
    Utf8OfAscii(s);
    forall i | 0 <= i < |Utf8(s)|
      ensures Utf8(s)[i] != Space
    {
      assert s[i] != ' ';
    }
  }

  /** Around a single separator, the parts before and after it are determined. */
  lemma SplitAtSeparator(x: seq<byte>, y: seq<byte>, x': seq<byte>, y': seq<byte>)
    requires Space !in x && Space !in x'
    requires x + [Space] + y == x' + [Space] + y'
    ensures x == x' && y == y'
  {
    var p, p' := x + [Space] + y, x' + [Space] + y';
    assert forall k :: 0 <= k < |x| ==> p[k] == x[k] != Space;
    assert forall k :: 0 <= k < |x'| ==> p'[k] == x'[k] != Space;
    assert p[|x|] == Space && p'[|x'|] == Space;
    assert |x| == |x'|;
    assert x == p[..|x|] && x' == p'[..|x'|];
    assert y == p[|x| + 1..] && y' == p'[|x'| + 1..];
  }

  /** The payload names the draw: different choices of names send different bytes. */
  lemma PayloadIdentifiesNames(first: nat, last: nat, first': nat, last': nat)
    requires first < |FirstNames| && last < |LastNames|
    requires first' < |FirstNames| && last' < |LastNames|
    requires CreatePayload(first, last) == CreatePayload(first', last')
    ensures first == first' && last == last'
  {
    FirstNameIsWord(first, first');
    FirstNameIsWord(first', first);
    LastNameIsWord(last, last');
    LastNameIsWord(last', last);
    AsciiWordHasNoSpaceByte(FirstNames[first]);
    AsciiWordHasNoSpaceByte(FirstNames[first']);
    SplitAtSeparator(Utf8(FirstNames[first]), Utf8(LastNames[last]),
                     Utf8(FirstNames[first']), Utf8(LastNames[last']));
    AsciiEncodingInjective(FirstNames[first], FirstNames[first']);
    AsciiEncodingInjective(LastNames[last], LastNames[last']);
  }

  // ---------------------------------------------------------------------------------------
  // Output redirection

  /** The bytes of `"%s: ".formatted(id)`: the id's text, a colon, a space. */
  function OutputPrefix(idText: string): (prefix: seq<byte>)
    ensures prefix == Utf8(idText) + [0x3A, 0x20]
  {
    Utf8Append(idText, ": ");
    Utf8(idText + ": ")
  }

  /** The bytes of `"Error in %s: ".formatted(id)`: the stdout prefix behind "Error in ". */
  function ErrorPrefix(idText: string): (prefix: seq<byte>)
    ensures prefix == Utf8("Error in ") + OutputPrefix(idText)
    ensures |Utf8("Error in ")| == 9
  {
    Utf8Append("Error in ", idText + ": ");
    assert "Error in " + idText + ": " == "Error in " + (idText + ": ");
    ErrorLabelLength();
    Utf8("Error in " + idText + ": ")
  }

  /** "Error in " is nine ASCII characters, so nine bytes. */
  lemma ErrorLabelLength()
    ensures |Utf8("Error in ")| == 9
  {
    Utf8OfAscii("Error in ");
  }

  /** The bytes of `"\r\n"`, written after every chunk. */
  function LineEnd(): (suffix: seq<byte>)
    ensures suffix == [0x0D, 0x0A]
  {
    Utf8("\r\n")
  }

  /** One write unit per chunk: the prefix, the chunk, the suffix. */
  function Frames(prefix: seq<byte>, suffix: seq<byte>, chunks: seq<seq<byte>>): seq<seq<byte>>
  {
    seq(|chunks|, k requires 0 <= k < |chunks| => prefix + chunks[k] + suffix)
  }

  lemma FramesStep(prefix: seq<byte>, suffix: seq<byte>, chunks: seq<seq<byte>>, i: nat)
    requires i < |chunks|
    ensures Frames(prefix, suffix, chunks[..i + 1]) == Frames(prefix, suffix, chunks[..i]) + [prefix + chunks[i] + suffix]
  {
  }

  /** `redirect`: read the input into a 1024-byte buffer until a read returns -1, and write each
      chunk read, the empty one included, between `prefix` and `suffix` while holding the
      output's lock, so that the three writes form one unit. A failing read ends it with the
      exception. */
  method Redirect(prefix: seq<byte>, suffix: seq<byte>, input: InputStream, output: OutputSink)
    returns (failed: bool)
    modifies input, output
    ensures output.units ==
      old(output.units) + Frames(prefix, suffix, Chunks(old(input.pending), RedirectBufferSize))
    ensures failed <==> input.fails
    ensures input.pending == []
  {
    var buffer := new byte[RedirectBufferSize];
    ghost var chunks := Chunks(input.pending, RedirectBufferSize);
    ghost var i: nat := 0;
    while true
      invariant i <= |chunks| && Chunks(input.pending, RedirectBufferSize) == chunks[i..]
      invariant output.units == old(output.units) + Frames(prefix, suffix, chunks[..i])
      decreases |chunks| - i
    {
      var read, thrown := input.Read(buffer);
      if thrown || read == -1 {
        assert chunks[..i] == chunks;
        return thrown;
      }
      ChunkStep(chunks, i, buffer[..read], Chunks(input.pending, RedirectBufferSize));
      FramesStep(prefix, suffix, chunks, i);
      output.Write(prefix + buffer[..read] + suffix);
      i := i + 1;
    }
  }

  /** What `redirect` puts on the Controller's output for a stream of a Box: one unit per chunk,
      each at most 1024 bytes between the prefix and CRLF. */
  lemma RedirectedChunksBounded(prefix: seq<byte>, pending: seq<seq<byte>>)
    ensures var frames := Frames(prefix, LineEnd(), Chunks(pending, RedirectBufferSize));
      forall k :: 0 <= k < |frames| ==>
        frames[k][..|prefix|] == prefix && frames[k][|frames[k]| - 2..] == LineEnd() &&
        |frames[k]| <= |prefix| + RedirectBufferSize + 2
  {
    ChunksBounded(pending, RedirectBufferSize);
  }

  /** The diagnostic logged when a redirection fails. */
  function RedirectFailure(idText: string): string
  {
    "encountered error while redirecting " + idText
  }

  /** `redirectBoxOutput`: the process's standard output under the `"<id>: "` prefix; a failure
      is logged, not propagated. */
  method RedirectBoxOutput(idText: string, processOutput: InputStream, output: OutputSink)
    returns (log: seq<string>)
    modifies processOutput, output
    ensures output.units == old(output.units) +
      Frames(OutputPrefix(idText), LineEnd(), Chunks(old(processOutput.pending), RedirectBufferSize))
    ensures log == if processOutput.fails then [RedirectFailure(idText)] else []
  {
    var failed := Redirect(OutputPrefix(idText), LineEnd(), processOutput, output);
    log := if failed then [RedirectFailure(idText)] else [];
  }

  /** `redirectBoxErrors`: the process's standard error, also onto the Controller's standard
      output, under the `"Error in <id>: "` prefix; a failure is logged, not propagated. */
  method RedirectBoxErrors(idText: string, processErrors: InputStream, output: OutputSink)
    returns (log: seq<string>)
    modifies processErrors, output
    ensures output.units == old(output.units) +
      Frames(ErrorPrefix(idText), LineEnd(), Chunks(old(processErrors.pending), RedirectBufferSize))
    ensures log == if processErrors.fails then [RedirectFailure(idText)] else []
  {
    var failed := Redirect(ErrorPrefix(idText), LineEnd(), processErrors, output);
    log := if failed then [RedirectFailure(idText)] else [];
  }

  /** The task `startBox` hands to the executor: the whole of standard output is relayed before
      any of standard error, and a failure on standard output does not stop the second stage. */
  method RedirectBoxStreams(idText: string, processOutput: InputStream, processErrors: InputStream,
                            output: OutputSink)
    returns (log: seq<string>)
    requires processOutput != processErrors
    modifies processOutput, processErrors, output
    ensures output.units == old(output.units) +
      Frames(OutputPrefix(idText), LineEnd(), Chunks(old(processOutput.pending), RedirectBufferSize)) +
      Frames(ErrorPrefix(idText), LineEnd(), Chunks(old(processErrors.pending), RedirectBufferSize))
    ensures log == (if processOutput.fails then [RedirectFailure(idText)] else []) +
                   (if processErrors.fails then [RedirectFailure(idText)] else [])
  {
    var outputLog := RedirectBoxOutput(idText, processOutput, output);
    var errorLog := RedirectBoxErrors(idText, processErrors, output);
    log := outputLog + errorLog;
  }

  // ---------------------------------------------------------------------------------------
  // Launching Boxes

  /** `startBoxProcess`'s command: the JVM with the same heap size as maximum and minimum, the
      serial collector, the Box jar, then the Box's two arguments: an id and `":" + port`. */
  function BoxCommand(boxMemory: string, boxBinaryPath: string, uuidText: string, port: nat): (command: seq<string>)
    ensures |command| == 8 && command[5] == boxBinaryPath && command[6] == uuidText
    ensures |command[1]| == |command[2]| == 4 + |boxMemory|
    ensures command[1][..4] == "-Xmx" && command[2][..4] == "-Xms" && command[1][4..] == command[2][4..] == boxMemory
    ensures command[7] == ":" + NatString(port)
  {
    ["java", "-Xmx" + boxMemory, "-Xms" + boxMemory, "-XX:+UseSerialGC",
     "-jar", boxBinaryPath, uuidText, ":" + NatString(port)]
  }

  /** The command runs the Box jar with both heap bounds equal, and the Box it starts accepts its
      arguments, taking the given id text and the wildcard address on the Controller's port. */
  lemma BoxCommandStartsBox(boxMemory: string, boxBinaryPath: string, uuidText: string, port: nat)
    requires port <= BoxProcess.MaxPort
    ensures var command := BoxCommand(boxMemory, boxBinaryPath, uuidText, port);
      |command| == 8 && command[0] == "java" && command[3] == "-XX:+UseSerialGC" &&
      command[1][..4] == "-Xmx" && command[2][..4] == "-Xms" && command[1][4..] == command[2][4..] == boxMemory &&
      command[4] == "-jar" && command[5] == boxBinaryPath &&
      BoxProcess.BoxSettings(command[6..]) == Ok((uuidText, BoxProcess.Wildcard(port)))
  {
    var command := BoxCommand(boxMemory, boxBinaryPath, uuidText, port);
    BoxProcess.WildcardFormParses(port);
    assert command[6..][BoxProcess.AddressIndex] == ":" + NatString(port);
  }

  /** A redirection task handed to the executor: the id it prefixes with and the process (by
      its position among the launched ones) whose streams it relays. */
  datatype RedirectTask = RedirectTask(idText: string, process: nat)

  class Controller {
    const port: nat
    const boxBinaryPath: string
    const boxMemory: string
    /** The command line of every process started, oldest first. */
    var launched: seq<seq<string>>
    /** The redirection tasks handed to the executor, oldest first. */
    var tasks: seq<RedirectTask>
    /** The diagnostics written to standard error. */
    var log: seq<string>

    constructor (port: nat, boxBinaryPath: string, boxMemory: string)
      ensures this.port == port && this.boxBinaryPath == boxBinaryPath && this.boxMemory == boxMemory
      ensures launched == [] && tasks == [] && log == []
    {
      this.port, this.boxBinaryPath, this.boxMemory := port, boxBinaryPath, boxMemory;
      launched, tasks, log := [], [], [];
    }

    /** `startBoxProcess`: start the Box with a freshly generated id (`uuidText`, not the id
        `startBox` was given); `spawns` is whether the operating system starts it. */
    method StartBoxProcess(uuidText: string, spawns: bool) returns (process: Option<nat>)
      modifies this
      ensures process.Some? <==> spawns
      ensures spawns ==> process.value == |old(launched)|
      ensures launched == old(launched) +
        if spawns then [BoxCommand(boxMemory, boxBinaryPath, uuidText, port)] else []
      ensures tasks == old(tasks) && log == old(log)
    {
      if !spawns {
        return None;
      }
      process := Some(|launched|);
      launched := launched + [BoxCommand(boxMemory, boxBinaryPath, uuidText, port)];
    }

    /** `startBox(id)`: log the id, start a process (which is given `freshIdText`), and hand the
        redirection of its streams, prefixed with `idText`, to the executor. A failed start
        propagates and schedules nothing. */
    method StartBox(idText: string, freshIdText: string, spawns: bool) returns (failed: bool)
      modifies this
      ensures failed <==> !spawns
      ensures log == old(log) + ["starting box " + idText]
      ensures launched == old(launched) +
        if spawns then [BoxCommand(boxMemory, boxBinaryPath, freshIdText, port)] else []
      ensures tasks == old(tasks) + if spawns then [RedirectTask(idText, |old(launched)|)] else []
    {
      log := log + ["starting box " + idText];
      var process := StartBoxProcess(freshIdText, spawns);
      if process.None? {
        return true;
      }
      failed := false;
      tasks := tasks + [RedirectTask(idText, process.value)];
    }
  }

  /** The Controller `main` creates: port 31337, the Box binary from the command line, and the
      heap size from the `box.memory` property (`memoryProperty`), "2M" when it is not set. */
  method NewController(boxBinaryPath: string, memoryProperty: Option<string>) returns (c: Controller)
    ensures fresh(c) && c.port == ControllerPort && c.boxBinaryPath == boxBinaryPath
    ensures c.boxMemory == if memoryProperty.Some? then memoryProperty.value else DefaultBoxMemory
    ensures c.launched == [] && c.tasks == [] && c.log == []
  {
    var boxMemory := if memoryProperty.Some? then memoryProperty.value else DefaultBoxMemory;
    c := new Controller(ControllerPort, boxBinaryPath, boxMemory);
  }

  /** How many launches `startSomeBoxes` completes for `count` requested Boxes, when launch `k`
      succeeds exactly when `spawns[k]` holds: the successes before the first failure. */
  function Launches(spawns: seq<bool>, count: int): (n: nat)
    ensures n <= |spawns| && (0 <= count ==> n <= count)
  {
    if count <= 0 || spawns == [] || !spawns[0] then 0 else 1 + Launches(spawns[1..], count - 1)
  }

  /** `Launches` is the index of the first failing launch, or `count` when none fails. */
  lemma {:induction false} LaunchesStopAtFirstFailure(spawns: seq<bool>, count: int)
    requires count <= |spawns|
    ensures Launches(spawns, count) <= if count < 0 then 0 else count
    ensures forall k :: 0 <= k < Launches(spawns, count) ==> spawns[k]
    ensures Launches(spawns, count) < count ==> !spawns[Launches(spawns, count)]
  {
    if 0 < count && spawns[0] {
      LaunchesStopAtFirstFailure(spawns[1..], count - 1);
      assert forall k :: 1 <= k < Launches(spawns, count) ==> spawns[k] == spawns[1..][k - 1];
    }
  }

  /** ... and that is the only number of launches a loop stopping at the first failure can make. */
  lemma LaunchesIsFirstFailure(spawns: seq<bool>, count: int, n: nat)
    requires count <= |spawns| && (n == 0 || n <= count)
    requires forall k :: 0 <= k < n ==> spawns[k]
    requires count <= n || !spawns[n]
    ensures n == Launches(spawns, count)
  {
    LaunchesStopAtFirstFailure(spawns, count);
  }

  /** The commands of the processes started for the fresh ids, in order. */
  function Commands(c: Controller, freshIds: seq<string>): seq<seq<string>>
  {
    seq(|freshIds|, k requires 0 <= k < |freshIds| => BoxCommand(c.boxMemory, c.boxBinaryPath, freshIds[k], c.port))
  }

  /** The tasks scheduled for the given ids, for processes numbered from `first` on. */
  function Tasks(ids: seq<string>, first: nat): seq<RedirectTask>
  {
    seq(|ids|, k requires 0 <= k < |ids| => RedirectTask(ids[k], first + k))
  }

  /** The "starting box" line of every attempted launch. */
  function StartingLines(ids: seq<string>): seq<string>
  {
    seq(|ids|, k requires 0 <= k < |ids| => "starting box " + ids[k])
  }

  /** One more launch adds its command, its task and its "starting box" line at the end. */
  lemma LaunchStep(c: Controller, ids: seq<string>, freshIds: seq<string>, first: nat, i: nat)
    requires i < |ids| && i < |freshIds|
    ensures Commands(c, freshIds[..i + 1]) ==
      Commands(c, freshIds[..i]) + [BoxCommand(c.boxMemory, c.boxBinaryPath, freshIds[i], c.port)]
    ensures Tasks(ids[..i + 1], first) == Tasks(ids[..i], first) + [RedirectTask(ids[i], first + i)]
    ensures StartingLines(ids[..i + 1]) == StartingLines(ids[..i]) + ["starting box " + ids[i]]
  {
  }

  /** `startSomeBoxes`: launch `count` Boxes in index order, launch `k` with the id `ids[k]`, the
      process's fresh id `freshIds[k]`, and the outcome `spawns[k]`. The first failure ends the
      batch: later launches are never attempted and the failure is logged. */
  method StartSomeBoxes(controller: Controller, count: int, ids: seq<string>, freshIds: seq<string>, spawns: seq<bool>)
    requires count <= |ids| && count <= |freshIds| && count <= |spawns|
    modifies controller
    ensures var n := Launches(spawns, count);
      var attempted := if n < count then n + 1 else n;
      controller.launched == old(controller.launched) + Commands(controller, freshIds[..n]) &&
      controller.tasks == old(controller.tasks) + Tasks(ids[..n], |old(controller.launched)|) &&
      controller.log == old(controller.log) + StartingLines(ids[..attempted]) +
        if n < count then ["failed to start boxes"] else []
  {
    var index := 0;
    while index < count
      invariant 0 <= index && (index <= count || index == 0)
      invariant forall k :: 0 <= k < index ==> spawns[k]
      invariant controller.launched == old(controller.launched) + Commands(controller, freshIds[..index])
      invariant controller.tasks == old(controller.tasks) + Tasks(ids[..index], |old(controller.launched)|)
      invariant controller.log == old(controller.log) + StartingLines(ids[..index])
    {
      var failed := controller.StartBox(ids[index], freshIds[index], spawns[index]);
      if failed {
        LaunchesIsFirstFailure(spawns, count, index);
        LaunchStep(controller, ids, freshIds, |old(controller.launched)|, index);
        controller.log := controller.log + ["failed to start boxes"];
        return;
      }
      LaunchStep(controller, ids, freshIds, |old(controller.launched)|, index);
      index := index + 1;
    }
    LaunchesIsFirstFailure(spawns, count, index);
  }
}
