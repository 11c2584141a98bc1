/** The Box: a worker that dials the Controller, announces its UUID, and copies whatever the
    Controller sends to its own standard output until the connection ends. */
module BoxProcess {
  import opened Bytes
  import opened Results
  import opened Decimal
  import opened Streams
  import opened Handshake

  /** The size of the buffer `accept` reads into. */
  const AcceptBufferSize: nat := 4096

  /** The connect timeout every Box is created with. */
  const ConnectTimeoutMillis: nat := 5000

  /** Positions of the two command-line arguments: `box <id> <controllerAddress>`. */
  const IdIndex: nat := 0
  const AddressIndex: nat := 1

  /** Ports an `InetSocketAddress` accepts. */
  const MaxPort: int := 0xFFFF

  // ---------------------------------------------------------------------------------------
  // Command line

  /** `validateArguments`: the Box runs only when given exactly its two arguments. */
  predicate ValidArguments(arguments: seq<string>)
  {
    |arguments| == AddressIndex + 1
  }

  /** An address as `InetSocketAddress` holds it: the wildcard address (every local interface)
      or a host name left unresolved, each with a port. */
  datatype SocketAddress = Wildcard(port: int) | HostPort(host: string, port: int)

  /** Why `parseAddress` throws: no ':' at all, a port text `Integer.parseInt` rejects, or a
      port outside what `InetSocketAddress` accepts. */
  datatype AddressError =
    | PortMissing(message: string)
    | NotANumber(text: string)
    | PortOutOfRange(port: int)

  /** `String.indexOf(c)`: the position of the first `c`, or -1. */
  function IndexOf(s: string, c: char): (r: int)
    ensures -1 <= r < |s|
    ensures r == -1 <==> c !in s
    ensures 0 <= r ==> s[r] == c && c !in s[..r]
  {
    if s == [] then -1
    else if s[0] == c then 0
    else
      var k := IndexOf(s[1..], c);
      if k == -1 then -1
      else
        assert s[..k + 1] == [s[0]] + s[1..][..k];
        k + 1
  }

  /** The first occurrence is the one with none before it. */
  lemma {:induction false} IndexOfFirst(s: string, c: char, k: nat)
    requires k < |s| && s[k] == c && c !in s[..k]
    ensures IndexOf(s, c) == k
  {
    if 0 < k {
      assert s[0] == s[..k][0];
      assert s[1..][..k - 1] == s[..k][1..];
      IndexOfFirst(s[1..], c, k - 1);
    }
  }

  /** `parseAddress`: split at the first ':', parse everything after it as the port, and take the
      text before it as the host, an empty host meaning the wildcard address. */
  function ParseAddress(input: string): (r: Result<SocketAddress, AddressError>)
    ensures r == Err(PortMissing("port missing: " + input)) <==> ':' !in input
    ensures r.Ok? ==> 0 <= r.value.port <= MaxPort
  {
    var portSeparator := IndexOf(input, ':');
    if portSeparator == -1 then Err(PortMissing("port missing: " + input))
    else
      var portText := input[portSeparator + 1..];
      match ParseInt(portText)
      case None => Err(NotANumber(portText))
      case Some(port) =>
        var host := input[..portSeparator];
        if port < 0 || MaxPort < port then Err(PortOutOfRange(port))
        else if host == [] then Ok(Wildcard(port))
        else Ok(HostPort(host, port))
  }

  /** The split happens at the first ':': the host is all the text before it and the port is
      parsed from all the text after it, further colons included. */
  lemma ParseAddressAtFirstColon(host: string, portText: string)
    requires ':' !in host
    ensures ParseInt(portText).None? ==> ParseAddress(host + ":" + portText) == Err(NotANumber(portText))
    ensures ParseInt(portText).Some? && 0 <= ParseInt(portText).value <= MaxPort ==>
      ParseAddress(host + ":" + portText) ==
        Ok(if host == [] then Wildcard(ParseInt(portText).value) else HostPort(host, ParseInt(portText).value))
    ensures ParseInt(portText).Some? && !(0 <= ParseInt(portText).value <= MaxPort) ==>
      ParseAddress(host + ":" + portText) == Err(PortOutOfRange(ParseInt(portText).value))
  {
    var input := host + ":" + portText;
    assert input[|host|] == ':' && input[..|host|] == host;
    assert input[|host| + 1..] == portText;
    IndexOfFirst(input, ':', |host|);
  }

  /** A second colon lands in the port text, which then fails to parse: "a:b:1" is rejected. */
  lemma SecondColonIsNotANumber(host: string, portText: string)
    requires ':' !in host && ':' in portText
    ensures ParseAddress(host + ":" + portText) == Err(NotANumber(portText))
  {
    ParseAddressAtFirstColon(host, portText);
    var i :| 0 <= i < |portText| && portText[i] == ':';
    if 0 < i {
      assert portText[1..][i - 1] == ':';
    }
  }

  /** The Controller's own `":" + port` form names the wildcard address with that port. */
  lemma WildcardFormParses(port: nat)
    requires port <= MaxPort
    ensures ParseAddress(":" + NatString(port)) == Ok(Wildcard(port))
  {
    ParseNatString(port);
    ParseAddressAtFirstColon("", NatString(port));
    assert "" + ":" + NatString(port) == ":" + NatString(port);
  }

  /** Why a Box refuses to start: a wrong argument count, or an unusable address. */
  datatype BoxStartError = UsageError | BadAddress(error: AddressError)

  /** `validateArguments` followed by `createBoxFromArguments`: the id text (kept opaque) and the
      parsed controller address. */
  function BoxSettings(arguments: seq<string>): (r: Result<(string, SocketAddress), BoxStartError>)
    ensures r == Err(UsageError) <==> !ValidArguments(arguments)
    ensures ValidArguments(arguments) ==>
      r == match ParseAddress(arguments[AddressIndex])
           case Ok(address) => Ok((arguments[IdIndex], address))
           case Err(e) => Err(BadAddress(e))
  {
    if !ValidArguments(arguments) then Err(UsageError)
    else
      match ParseAddress(arguments[AddressIndex])
      case Err(e) => Err(BadAddress(e))
      case Ok(address) => Ok((arguments[IdIndex], address))
  }

  /** `createBoxFromArguments`, after `validateArguments`: a new Box with the id `id` (what
      `UUID.fromString` makes of argument 0), the parsed address and the 5000 ms timeout, or the
      error that stops the Box from starting. */
  method CreateBoxFromArguments(arguments: seq<string>, id: Uuid) returns (r: Result<Box, BoxStartError>)
    ensures r.Err? <==> BoxSettings(arguments).Err?
    ensures r.Err? ==> r.error == BoxSettings(arguments).error
    ensures r.Ok? ==>
      fresh(r.value) && r.value.id == id && r.value.controllerAddress == BoxSettings(arguments).value.1 &&
      r.value.connectTimeoutMillis == ConnectTimeoutMillis && r.value.connection == null
  {
    match BoxSettings(arguments)
    case Err(e) =>
      return Err(e);
    case Ok((_, address)) =>
      var box := new Box(id, address, ConnectTimeoutMillis);
      return Ok(box);
  }

  // ---------------------------------------------------------------------------------------
  // Relaying

  /** Whether the thread's interrupt flag is set at the check before read number `iteration`;
      `Some(k)` means the flag is set from the k-th check on (it stays set once set). */
  predicate Interrupted(interrupt: Option<nat>, iteration: nat)
  {
    interrupt.Some? && interrupt.value <= iteration
  }

  /** How many chunks `accept` reads before the data runs out or the interrupt stops it. */
  function ReadsDone(chunks: seq<seq<byte>>, interrupt: Option<nat>): (n: nat)
    ensures n <= |chunks|
  {
    if interrupt.Some? && interrupt.value < |chunks| then interrupt.value else |chunks|
  }

  /** Whether `accept` gets to the read after the data, which returns -1 or throws. */
  predicate ReachesEnd(chunks: seq<seq<byte>>, interrupt: Option<nat>)
  {
    !Interrupted(interrupt, |chunks|)
  }

  /** The non-empty chunks, in order: a zero-length read writes nothing. */
  function NonEmpty(chunks: seq<seq<byte>>): (r: seq<seq<byte>>)
  {
    if chunks == [] then []
    else
      var last := chunks[|chunks| - 1];
      var r := NonEmpty(chunks[..|chunks| - 1]) + (if last == [] then [] else [last]);
      r
  }

  /** Only non-empty chunks are kept, each one of the chunks given. */
  lemma {:induction false} NonEmptyChunks(chunks: seq<seq<byte>>)
    ensures |NonEmpty(chunks)| <= |chunks|
    ensures forall k :: 0 <= k < |NonEmpty(chunks)| ==> NonEmpty(chunks)[k] != [] && NonEmpty(chunks)[k] in chunks
  {
    if chunks != [] {
      var front := chunks[..|chunks| - 1];
      NonEmptyChunks(front);
      assert forall c :: c in front ==> c in chunks;
    }
  }

  /** Reading one more chunk adds one write, unless the chunk is empty. */
  lemma NonEmptyStep(chunks: seq<seq<byte>>, i: nat)
    requires i < |chunks|
    ensures NonEmpty(chunks[..i + 1]) == NonEmpty(chunks[..i]) + if chunks[i] == [] then [] else [chunks[i]]
  {
    assert chunks[..i + 1][..i] == chunks[..i];
  }

  /** Where `accept` stops: after all the chunks when the interrupt has not been seen by then,
      otherwise at the check where it is first seen. */
  lemma AcceptStops(chunks: seq<seq<byte>>, interrupt: Option<nat>, iteration: nat)
    requires iteration <= |chunks| && (interrupt.Some? ==> iteration <= interrupt.value)
    requires Interrupted(interrupt, iteration) || iteration == |chunks|
    ensures ReadsDone(chunks, interrupt) == iteration
    ensures ReachesEnd(chunks, interrupt) <==> !Interrupted(interrupt, iteration)
  {
  }

  /** Dropping the empty chunks drops no byte. */
  lemma {:induction false} NonEmptyKeepsBytes(chunks: seq<seq<byte>>)
    ensures Concat(NonEmpty(chunks)) == Concat(chunks)
  {
    if chunks != [] {
      var front, last := chunks[..|chunks| - 1], chunks[|chunks| - 1];
      assert chunks == front + [last];
      NonEmptyKeepsBytes(front);
      ConcatAppend(front, [last]);
      ConcatAppend(NonEmpty(front), if last == [] then [] else [last]);
      assert Concat([last]) == last + Concat([]);
    }
  }

  /** The writes `accept` makes to standard output for the data `incoming`: one per non-empty
      chunk it reads before the end of the data or the interrupt. */
  function Relayed(incoming: seq<seq<byte>>, interrupt: Option<nat>): seq<seq<byte>>
  {
    var chunks := Chunks(incoming, AcceptBufferSize);
    NonEmpty(chunks[..ReadsDone(chunks, interrupt)])
  }

  /** Left uninterrupted, the Box writes every byte it receives, in order, in writes of at most
      4096 bytes and never an empty one. */
  lemma RelayedUninterrupted(incoming: seq<seq<byte>>)
    ensures Concat(Relayed(incoming, None)) == Concat(incoming)
    ensures forall k :: 0 <= k < |Relayed(incoming, None)| ==>
      0 < |Relayed(incoming, None)[k]| <= AcceptBufferSize
  {
    var chunks := Chunks(incoming, AcceptBufferSize);
    assert chunks[..ReadsDone(chunks, None)] == chunks;
    NonEmptyKeepsBytes(chunks);
    NonEmptyChunks(chunks);
    ChunksKeepBytes(incoming, AcceptBufferSize);
    ChunksBounded(incoming, AcceptBufferSize);
  }

  // ---------------------------------------------------------------------------------------
  // The connection

  /** How the Controller's end behaves: whether it can be reached, the data it sends (in the
      bursts in which the Box sees it), whether the stream then fails instead of ending, and
      whether writes to it succeed. */
  datatype Peer = Peer(reachable: bool, incoming: seq<seq<byte>>, incomingFails: bool, acceptsWrites: bool)

  /** Advertising succeeds exactly when the Box connects and its write goes through. */
  predicate Advertised(peer: Peer)
  {
    peer.reachable && peer.acceptsWrites
  }

  /** A `java.net.Socket`, with what it has sent and how often it has been closed. */
  class Connection {
    const peer: Peer
    const input: InputStream
    var connected: bool
    var sent: seq<byte>
    var closes: nat

    /** `new Socket()`: not yet connected. */
    constructor (peer: Peer)
      ensures this.peer == peer && fresh(input)
      ensures input.pending == peer.incoming && input.fails == peer.incomingFails
      ensures !connected && sent == [] && closes == 0
    {
      this.peer := peer;
      input := new InputStream(peer.incoming, peer.incomingFails);
      connected, sent, closes := false, [], 0;
    }

    /** `connect(address, timeout)`: succeeds exactly when the peer is reachable in time. */
    method Connect() returns (failed: bool)
      modifies this
      ensures failed <==> !peer.reachable
      ensures connected == peer.reachable && sent == old(sent) && closes == old(closes)
    {
      connected := peer.reachable;
      failed := !peer.reachable;
    }

    /** `getOutputStream().write(data)`: all of `data` goes out, or an `IOException`. */
    method Write(data: seq<byte>) returns (failed: bool)
      modifies this
      ensures failed <==> !peer.acceptsWrites
      ensures sent == old(sent) + (if failed then [] else data)
      ensures connected == old(connected) && closes == old(closes)
    {
      failed := !peer.acceptsWrites;
      if !failed {
        sent := sent + data;
      }
    }

    /** `close()`. */
    method Close()
      modifies this
      ensures closes == old(closes) + 1
      ensures connected == old(connected) && sent == old(sent)
    {
      closes := closes + 1;
    }
  }

  class Box {
    const id: Uuid
    const controllerAddress: SocketAddress
    const connectTimeoutMillis: nat
    var connection: Connection?

    constructor (id: Uuid, controllerAddress: SocketAddress, connectTimeoutMillis: nat)
      ensures this.id == id && this.controllerAddress == controllerAddress
      ensures this.connectTimeoutMillis == connectTimeoutMillis && connection == null
    {
      this.id, this.controllerAddress := id, controllerAddress;
      this.connectTimeoutMillis := connectTimeoutMillis;
      connection := null;
    }

    /** `connect`: a new socket in the `connection` field, then the connection attempt. */
    method Connect(peer: Peer) returns (failed: bool)
      modifies this
      ensures connection != null && fresh(connection) && fresh(connection.input)
      ensures connection.peer == peer && connection.input.pending == peer.incoming
      ensures connection.input.fails == peer.incomingFails
      ensures failed <==> !peer.reachable
      ensures connection.connected == peer.reachable && connection.sent == [] && connection.closes == 0
    {
      connection := new Connection(peer);
      failed := connection.Connect();
    }

    /** `advertise`: fills a `Long.SIZE * 2` byte buffer with the two halves of the id and sends
        the buffer's whole backing array. */
    method Advertise() returns (failed: bool)
      requires connection != null
      modifies connection
      ensures failed <==> !connection.peer.acceptsWrites
      ensures connection.sent == old(connection.sent) + (if failed then [] else HandshakeFrame(id))
      ensures connection.connected == old(connection.connected)
      ensures connection.closes == old(connection.closes)
    {
      var bytes := new ByteBuffer.Allocate(LongSize * 2);
      ghost var blank := bytes.backing[..];
      var overflow := bytes.PutLong(id.mostSignificantBits);
      assert !overflow;
      ghost var first := bytes.backing[..];
      overflow := bytes.PutLong(id.leastSignificantBits);
      assert !overflow;
      bytes.Flip();
      FrameOfPuts(blank, first, bytes.backing[..], id);
      failed := connection.Write(bytes.backing[..]);
    }

    /** `accept`: while the thread is not interrupted and the socket reports itself connected,
        read up to 4096 bytes; stop at end of stream; write every non-empty chunk to standard
        output. A failing read ends it with the exception. */
    method Accept(interrupt: Option<nat>, stdout: OutputSink) returns (failed: bool)
      requires connection != null && connection.connected
      modifies connection.input, stdout
      ensures stdout.units == old(stdout.units) + Relayed(old(connection.input.pending), interrupt)
      ensures failed <==> connection.input.fails && ReachesEnd(Chunks(old(connection.input.pending), AcceptBufferSize), interrupt)
    {
      var input := connection.input;
      var buffer := new byte[AcceptBufferSize];
      ghost var chunks := Chunks(input.pending, AcceptBufferSize);
      var iteration: nat := 0;
      while !Interrupted(interrupt, iteration) && connection.connected
        invariant input == connection.input && connection.connected
        invariant iteration <= |chunks|
        invariant interrupt.Some? ==> iteration <= interrupt.value
        invariant Chunks(input.pending, AcceptBufferSize) == chunks[iteration..]
        invariant stdout.units == old(stdout.units) + NonEmpty(chunks[..iteration])
        decreases |chunks| - iteration
      {
        var read, thrown := input.Read(buffer);
        if thrown || read == -1 {
          assert Chunks(input.pending, AcceptBufferSize) == [];
          AcceptStops(chunks, interrupt, iteration);
          return thrown;
        }
        ChunkStep(chunks, iteration, buffer[..read], Chunks(input.pending, AcceptBufferSize));
        NonEmptyStep(chunks, iteration);
        if read != 0 {
          stdout.Write(buffer[..read]);
        }
        iteration := iteration + 1;
      }
      AcceptStops(chunks, interrupt, iteration);
      failed := false;
    }

    /** `start`: connect; then advertise and accept, closing the connection afterwards however
        they end. A failed connect leaves the socket unclosed. */
    method Start(peer: Peer, interrupt: Option<nat>, stdout: OutputSink) returns (failed: bool)
      modifies this, stdout
      ensures connection != null && fresh(connection) && connection.peer == peer
      ensures connection.closes == if peer.reachable then 1 else 0
      ensures connection.sent == if Advertised(peer) then HandshakeFrame(id) else []
      ensures stdout.units == old(stdout.units) + if Advertised(peer) then Relayed(peer.incoming, interrupt) else []
      ensures failed <==>
        !Advertised(peer) || (peer.incomingFails && ReachesEnd(Chunks(peer.incoming, AcceptBufferSize), interrupt))
    {
      failed := Connect(peer);
      if failed {
        return;
      }
      failed := Advertise();
      if !failed {
        failed := Accept(interrupt, stdout);
      }
      connection.Close();
    }
  }
}
