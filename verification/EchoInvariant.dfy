/** What every reachable state of the echo ring satisfies, failures and closing
    included. */
module EchoInvariant {
  import opened EchoSessions
  import opened EchoRing

  // ---------- Where the bytes are ----------

  /** Bytes of the pending write that have not left the buffer. */
  function Unsent(c: Client): Bytes {
    if c.write.Writing? && c.write.sent <= c.write.len <= |c.writeData|
    then c.writeData[c.write.sent..c.write.len] else []
  }

  /** Bytes the server has read and not yet sent. */
  function InServer(s: Server): Bytes {
    if s.op.ServerReadReady? && s.op.ok && s.op.n <= |s.buf| then s.buf[..s.op.n]
    else if s.op.ServerWriting? && s.op.sent <= s.readDataLength <= |s.buf| then s.buf[s.op.sent..s.readDataLength]
    else []
  }

  /** Bytes the client has read and not yet submitted again. */
  function Held(c: Client): Bytes {
    if c.read.ReadReady? && c.read.ok && c.read.n <= |c.readData| then c.readData[..c.read.n]
    else if c.phase == Running && c.read == ReadIdle && c.readDataLength <= |c.readData|
    then c.readData[..c.readDataLength]
    else []
  }

  /** The server is still going to send on what it has read. */
  predicate ServerSound(s: Server) {
    s.op != Destroyed && s.op != ServerWriteReady(false)
  }

  /** The pending write has not given up on any of its bytes. */
  predicate WriteSound(c: Client) {
    !c.write.WriteFailed? && !(c.write.WriteReady? && !c.write.ok)
  }

  // ---------- The invariant ----------

  predicate NonEmpty(n: nat, blockSize: nat) {
    n == 0 ==> blockSize == 0
  }

  predicate ClientShape(blockSize: nat, c: Client) {
    && |c.readData| == |c.writeData| == blockSize
    && c.readDataLength <= blockSize
    && (c.phase == Running && c.read == ReadIdle ==> NonEmpty(c.readDataLength, blockSize))
    && (match c.read
        case ReadReady(ok, n) => n <= blockSize && (ok ==> NonEmpty(n, blockSize))
        case _ => true)
    && (match c.write
        case Writing(len, sent) => sent <= len <= blockSize && NonEmpty(len, blockSize)
        case WriteReady(len, ok, n) => n <= len <= blockSize && NonEmpty(len, blockSize) && (ok ==> n == len)
        case WriteFailed(len) => len <= blockSize
        case WriteIdle => c.phase == Running ==> 0 < blockSize)
  }

  predicate ServerShape(blockSize: nat, s: Server) {
    && |s.buf| == blockSize && s.readDataLength <= blockSize
    && (match s.op
        case ServerReadReady(_, n) => n <= blockSize
        case ServerWriting(sent) => sent <= s.readDataLength
        case _ => true)
  }

  /** A write counts while it is pending, or for good once it has failed; a read
      counts once it is over and has succeeded. */
  function Unfinished(c: Client): int {
    (if c.write == WriteIdle then 0 else 1) + (if c.read == ReadIdle then 1 else 0)
  }

  predicate Counted(c: Client) {
    if c.phase == Running
    then c.unwrittenCount == Unfinished(c) && !(c.read == ReadIdle && c.write == WriteIdle)
    else c.unwrittenCount == 0 && c.read == ReadIdle && c.write == WriteIdle
  }

  /** What is under way is, in order, what has been submitted and not yet received;
      after a failure it is at least a part of it without gaps. */
  predicate Flow(w: World) {
    && w.received + w.down <= w.submitted
    && (ServerSound(w.server) ==>
          w.received + w.down + InServer(w.server) + w.up <= w.submitted)
    && (ServerSound(w.server) && WriteSound(w.client) ==>
          w.received + w.down + InServer(w.server) + w.up + Unsent(w.client) == w.submitted)
  }

  /** The bytes submitted are the initial block and then those received, but for the
      last read that has not been submitted again. */
  predicate Echoed(k: Config, w: World) {
    && (k.blockSize == 0 ==> w.received == [])
    && if w.client.phase == Running
    then w.submitted + Held(w.client) == Pattern(k.blockSize) + w.received
    else && w.submitted == [] && w.received == [] && w.started == 0
         && (w.client.phase == Connecting ==> w.client.writeData == Pattern(k.blockSize))
  }

  function PendingLength(op: WriteOp): nat {
    match op
    case WriteIdle => 0
    case Writing(len, _) => len
    case WriteReady(len, _, _) => len
    case WriteFailed(len) => len
  }

  /** The two totals lag behind by the operations whose handlers have not run. */
  predicate Totalled(w: World) {
    && w.client.bytesWritten + PendingLength(w.client.write) == |w.submitted|
    && w.client.bytesRead + (if w.client.read.ReadReady? && w.client.read.ok then w.client.read.n else 0)
       == |w.received|
  }

  predicate Inv(k: Config, w: World) {
    && ClientShape(k.blockSize, w.client)
    && ServerShape(k.serverBlockSize, w.server)
    && Counted(w.client)
    && Flow(w)
    && Echoed(k, w)
    && Totalled(w)
    && |w.up| <= k.capacity && |w.down| <= k.capacity
  }

  lemma InvInitially(k: Config, w: World)
    requires Initial(k, w)
    ensures Inv(k, w)
  {
  }

  // ---------- Each step keeps it ----------

  /** The steps in which only the server and the streams take part. */
  predicate ServerStep(step: Step) {
    step.Accept? || step.ServerReceive? || step.ServerReceiveFails? || step.ServerHandlesRead?
    || step.ServerSend? || step.ServerSendEnd? || step.ServerHandlesWrite?
  }

  lemma InvServerReceive(k: Config, w: World, n: nat)
    requires Inv(k, w) && Enabled(k, w, ServerReceive(n))
    ensures Inv(k, Next(k, w, ServerReceive(n)))
  {
    hide ClientShape, Counted, Unsent, Held;
    var w' := Next(k, w, ServerReceive(n));
    assert InServer(w.server) == [] && InServer(w'.server) == w.up[..n];
    assert w.up == w.up[..n] + w'.up;
    var before := w.received + w.down;
    assert before + w.up[..n] + w'.up == before + [] + w.up;
  }

  lemma InvServerSend(k: Config, w: World, n: nat)
    requires Inv(k, w) && Enabled(k, w, ServerSend(n))
    ensures Inv(k, Next(k, w, ServerSend(n)))
  {
    hide ClientShape, Counted, Unsent, Held;
    var w' := Next(k, w, ServerSend(n));
    var part := w.server.buf[w.server.op.sent..w.server.op.sent + n];
    assert part + InServer(w'.server) == InServer(w.server);
    assert w'.received + w'.down + InServer(w'.server) == w.received + w.down + InServer(w.server);
    assert w'.received + w'.down == w.received + w.down + part;
    assert part <= InServer(w.server);
    assert w.received + w.down + part <= w.received + w.down + InServer(w.server);
  }

  lemma InvServerOther(k: Config, w: World, step: Step)
    requires Inv(k, w) && Enabled(k, w, step)
    requires ServerStep(step) && !step.ServerReceive? && !step.ServerSend?
    ensures Inv(k, Next(k, w, step))
  {
    hide ClientShape, Counted, Unsent, Held;
  }

  lemma InvSend(k: Config, w: World, n: nat)
    requires Inv(k, w) && Enabled(k, w, Send(n))
    ensures Inv(k, Next(k, w, Send(n)))
  {
    hide InServer;
    var w' := Next(k, w, Send(n));
    var part := w.client.writeData[w.client.write.sent..w.client.write.sent + n];
    var before := w.received + w.down + InServer(w.server) + w.up;
    assert part + Unsent(w'.client) == Unsent(w.client);
    assert w'.received + w'.down + InServer(w'.server) + w'.up == before + part;
    assert before + part + Unsent(w'.client) == before + Unsent(w.client);
  }

  lemma InvReceive(k: Config, w: World, n: nat)
    requires Inv(k, w) && Enabled(k, w, Receive(n))
    ensures Inv(k, Next(k, w, Receive(n)))
  {
    hide InServer;
    var w' := Next(k, w, Receive(n));
    var part := w.down[..n];
    assert w'.received + w'.down == w.received + w.down;
    assert Held(w.client) == [] && Held(w'.client) == part;
    assert w.submitted + [] == w.submitted;
    assert w.submitted + part == Pattern(k.blockSize) + (w.received + part);
  }

  lemma InvEnd(k: Config, w: World, step: Step)
    requires Inv(k, w) && Enabled(k, w, step)
    requires step.Close? || step.SendEnd? || step.ReceiveFails?
    ensures Inv(k, Next(k, w, step))
  {
    hide InServer;
  }

  lemma InvConnect(k: Config, w: World, ok: bool)
    requires Inv(k, w) && Enabled(k, w, Connect(ok))
    ensures Inv(k, Next(k, w, Connect(ok)))
  {
    hide InServer;
  }

  /** Both operations are over, and everything else is as the invariant says. */
  predicate Restartable(k: Config, w: World, c: Client) {
    && c.phase == Running && c.read == ReadIdle && c.write == WriteIdle
    && ClientShape(k.blockSize, c) && ServerShape(k.serverBlockSize, w.server)
    && |w.up| <= k.capacity && |w.down| <= k.capacity
    && Flow(w.(client := c)) && Echoed(k, w.(client := c)) && Totalled(w.(client := c))
  }

  /** When both operations are over, the swapped buffers carry on the stream. */
  lemma RestartFlows(k: Config, w: World, c: Client)
    requires Restartable(k, w, c) && c.unwrittenCount == 1
    ensures Inv(k, Handled(w, Restart(c)))
  {
    hide InServer;
    assert Unsent(Restart(c)) == Held(c);
    assert Held(Restart(c)) == [];
  }

  lemma InvClientHandlesRead(k: Config, w: World)
    requires Inv(k, w) && Enabled(k, w, ClientHandlesRead)
    ensures Inv(k, Next(k, w, ClientHandlesRead))
  {
    hide Inv, Restartable, Restart;
    if w.client.read.ok {
      InvReadEntered(k, w);
      if ReadEntered(w.client).unwrittenCount == 1 {
        RestartFlows(k, w, ReadEntered(w.client));
      }
    } else {
      InvReadFailed(k, w);
    }
  }

  lemma InvReadEntered(k: Config, w: World)
    requires Inv(k, w) && w.client.read.ReadReady? && w.client.read.ok
    ensures var c := ReadEntered(w.client);
            if c.unwrittenCount == 1 then Restartable(k, w, c) else Inv(k, w.(client := c))
  {
    hide InServer;
    assert Held(ReadEntered(w.client)) == Held(w.client);
  }

  lemma InvReadFailed(k: Config, w: World)
    requires Inv(k, w) && w.client.read.ReadReady? && !w.client.read.ok
    ensures Inv(k, w.(client := w.client.(read := ReadFailed)))
  {
    hide InServer;
  }

  lemma InvClientHandlesWrite(k: Config, w: World)
    requires Inv(k, w) && Enabled(k, w, ClientHandlesWrite)
    ensures Inv(k, Next(k, w, ClientHandlesWrite))
  {
    hide Inv, Restartable, Restart;
    if w.client.write.ok && w.client.write.n > 0 {
      InvWriteEntered(k, w);
      if WriteEntered(w.client).unwrittenCount == 1 {
        RestartFlows(k, w, WriteEntered(w.client));
      }
    } else {
      InvWriteFailed(k, w);
    }
  }

  lemma InvWriteEntered(k: Config, w: World)
    requires Inv(k, w) && w.client.write.WriteReady? && w.client.write.ok && w.client.write.n > 0
    ensures var c := WriteEntered(w.client);
            if c.unwrittenCount == 1 then Restartable(k, w, c) else Inv(k, w.(client := c))
  {
    hide InServer, Held;
    HeldIgnoresWrite(w.client, WriteEntered(w.client));
  }

  lemma InvWriteFailed(k: Config, w: World)
    requires Inv(k, w) && w.client.write.WriteReady? && !(w.client.write.ok && w.client.write.n > 0)
    ensures Inv(k, w.(client := w.client.(write := WriteFailed(w.client.write.len))))
  {
    hide InServer, Held;
    HeldIgnoresWrite(w.client, w.client.(write := WriteFailed(w.client.write.len)));
  }

  lemma HeldIgnoresWrite(c: Client, c': Client)
    requires c'.readData == c.readData && c'.readDataLength == c.readDataLength
    requires c'.phase == c.phase && c'.read == c.read
    ensures Held(c') == Held(c)
  {
  }
}
