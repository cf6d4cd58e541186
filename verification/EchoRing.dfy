/** A client session, its server session and the two byte streams between them, as a
    transition system: every completion handler is one step (the strand serialises
    those of the client), and so is every transfer of some bytes, every failure of an
    operation, and closing the socket. */
module EchoRing {
  import opened EchoSessions

  /** The block sizes of the two programs, and how many bytes a stream can hold. */
  datatype Config = Config(blockSize: nat, serverBlockSize: nat, capacity: nat)

  /** `submitted` are all bytes the client has ever handed to a write, `received` all
      bytes its reads have delivered, and `started` counts the operations it began. */
  datatype World = World(client: Client, up: Bytes, server: Server, down: Bytes,
                         submitted: Bytes, received: Bytes, started: nat)

  datatype Step =
    | Connect(ok: bool)
    | Close
    | Send(n: nat)
    | SendEnd(ok: bool)
    | ClientHandlesWrite
    | Receive(n: nat)
    | ReceiveFails
    | ClientHandlesRead
    | Accept(ok: bool)
    | ServerReceive(n: nat)
    | ServerReceiveFails
    | ServerHandlesRead
    | ServerSend(n: nat)
    | ServerSendEnd(ok: bool)
    | ServerHandlesWrite

  /** A read of a stream delivers at least one byte, unless it asks for none. */
  predicate Deliverable(n: nat, stream: Bytes, blockSize: nat) {
    n <= |stream| && n <= blockSize && (n == 0 ==> blockSize == 0)
  }

  predicate Enabled(k: Config, w: World, step: Step) {
    match step
    case Connect(ok) => w.client.phase == Connecting && (ok ==> !w.client.closed)
    case Close => !w.client.closed
    case Send(n) =>
      && w.client.write.Writing? && !w.client.closed
      && 0 < n && w.client.write.sent + n <= w.client.write.len <= |w.client.writeData|
      && |w.up| + n <= k.capacity
    case SendEnd(ok) => w.client.write.Writing? && (ok ==> w.client.write.sent == w.client.write.len)
    case ClientHandlesWrite => w.client.write.WriteReady?
    case Receive(n) =>
      && w.client.read.Reading? && !w.client.closed
      && Deliverable(n, w.down, k.blockSize) && n <= |w.client.readData|
    case ReceiveFails => w.client.read.Reading?
    case ClientHandlesRead => w.client.read.ReadReady?
    case Accept(_) => w.server.op == Accepted
    case ServerReceive(n) =>
      && w.server.op == ServerReading
      && Deliverable(n, w.up, k.serverBlockSize) && n <= |w.server.buf|
    case ServerReceiveFails => w.server.op == ServerReading
    case ServerHandlesRead => w.server.op.ServerReadReady?
    case ServerSend(n) =>
      && w.server.op.ServerWriting?
      && 0 < n && w.server.op.sent + n <= w.server.readDataLength <= |w.server.buf|
      && |w.down| + n <= k.capacity
    case ServerSendEnd(ok) => w.server.op.ServerWriting? && (ok ==> w.server.op.sent == w.server.readDataLength)
    case ServerHandlesWrite => w.server.op.ServerWriteReady?
  }

  /** A buffer whose first bytes have been overwritten. */
  function Overwrite(buf: Bytes, data: Bytes): Bytes
    requires |data| <= |buf|
  {
    data + buf[|data|..]
  }

  /** The client after a handler; if that began a write, its bytes are submitted. */
  function Handled(w: World, c: Client): World {
    if c.write.Writing? && c.read.Reading? && c.write.len <= |c.writeData|
    then w.(client := c, submitted := w.submitted + c.writeData[..c.write.len], started := w.started + 2)
    else w.(client := c)
  }

  function Next(k: Config, w: World, step: Step): World
    requires Enabled(k, w, step)
  {
    var c, s := w.client, w.server;
    match step
    case Connect(ok) => Handled(w, HandleConnect(c, ok))
    case Close => w.(client := c.(closed := true))
    case Send(n) =>
      w.(client := c.(write := Writing(c.write.len, c.write.sent + n)),
         up := w.up + c.writeData[c.write.sent..c.write.sent + n])
    case SendEnd(ok) => w.(client := c.(write := WriteReady(c.write.len, ok, c.write.sent)))
    case ClientHandlesWrite => Handled(w, HandleWrite(c))
    case Receive(n) =>
      w.(client := c.(readData := Overwrite(c.readData, w.down[..n]), read := ReadReady(true, n)),
         down := w.down[n..], received := w.received + w.down[..n])
    case ReceiveFails => w.(client := c.(read := ReadReady(false, 0)))
    case ClientHandlesRead => Handled(w, HandleRead(c))
    case Accept(ok) => w.(server := ServerStart(s, ok))
    case ServerReceive(n) =>
      w.(server := s.(buf := Overwrite(s.buf, w.up[..n]), op := ServerReadReady(true, n)), up := w.up[n..])
    case ServerReceiveFails => w.(server := s.(op := ServerReadReady(false, 0)))
    case ServerHandlesRead => w.(server := ServerHandleRead(s))
    case ServerSend(n) =>
      w.(server := s.(op := ServerWriting(s.op.sent + n)), down := w.down + s.buf[s.op.sent..s.op.sent + n])
    case ServerSendEnd(ok) => w.(server := s.(op := ServerWriteReady(ok)))
    case ServerHandlesWrite => w.(server := ServerHandleWrite(s))
  }

  /** Both buffers of a new session have their size; the contents of those that are
      only read into are arbitrary. */
  ghost predicate Initial(k: Config, w: World) {
    && |w.client.readData| == k.blockSize && w.client == NewClient(k.blockSize, w.client.readData)
    && |w.server.buf| == k.serverBlockSize && w.server == Server(w.server.buf, 0, Accepted)
    && w.up == w.down == w.submitted == w.received == [] && w.started == 0
  }

  // ---------- Runs ----------

  ghost predicate Possible(k: Config, w: World, run: seq<Step>)
    decreases |run|
  {
    run == [] || (Enabled(k, w, run[0]) && Possible(k, Next(k, w, run[0]), run[1..]))
  }

  ghost function After(k: Config, w: World, run: seq<Step>): World
    requires Possible(k, w, run)
    decreases |run|
  {
    if run == [] then w else After(k, Next(k, w, run[0]), run[1..])
  }
}
