/** The two sessions of the echo benchmark, as what each completion handler does to
    the session's state. A client session keeps at most one read and one write
    outstanding on its socket; a server session alternates between the two. */
module EchoSessions {

  type Bytes = seq<int>

  // ---------- Client ----------

  /** A read is pending, has completed and waits for its handler, or none is: the last
      one has been handled, or it has failed and none will follow. */
  datatype ReadOp =
    | ReadIdle
    | Reading
    | ReadReady(ok: bool, n: nat)
    | ReadFailed

  /** Likewise for a write of `len` bytes, of which `sent` have left the buffer. */
  datatype WriteOp =
    | WriteIdle
    | Writing(len: nat, sent: nat)
    | WriteReady(len: nat, ok: bool, n: nat)
    | WriteFailed(len: nat)

  datatype Phase = Connecting | Running | NotConnected

  datatype Client = Client(readData: Bytes, readDataLength: nat, writeData: Bytes, unwrittenCount: int,
                           bytesWritten: nat, bytesRead: nat,
                           phase: Phase, closed: bool, read: ReadOp, write: WriteOp)

  /** The bytes a client begins with. */
  function Pattern(blockSize: nat): Bytes {
    seq(blockSize, i requires 0 <= i => i % 128)
  }

  function NewClient(blockSize: nat, garbage: Bytes): Client {
    Client(garbage, 0, Pattern(blockSize), 0, 0, 0, Connecting, false, ReadIdle, WriteIdle)
  }

  function HandleConnect(c: Client, ok: bool): Client {
    if ok
    then c.(unwrittenCount := c.unwrittenCount + 1, phase := Running,
            read := Reading, write := Writing(|c.writeData|, 0))
    else c.(phase := NotConnected)
  }

  /** Both operations are over: the buffers change roles, what was read is written,
      and the next read begins. */
  function Restart(c: Client): Client {
    c.(readData := c.writeData, writeData := c.readData, read := Reading, write := Writing(c.readDataLength, 0))
  }

  /** A completed read as its handler enters it, before the operations may restart. */
  function ReadEntered(c: Client): Client
    requires c.read.ReadReady?
  {
    c.(bytesRead := c.bytesRead + c.read.n, readDataLength := c.read.n,
       unwrittenCount := c.unwrittenCount + 1, read := ReadIdle)
  }

  function HandleRead(c: Client): Client
    requires c.read.ReadReady?
  {
    if c.read.ok then
      var c' := ReadEntered(c);
      if c'.unwrittenCount == 1 then Restart(c') else c'
    else c.(read := ReadFailed)
  }

  /** Likewise for a write. */
  function WriteEntered(c: Client): Client
    requires c.write.WriteReady?
  {
    c.(bytesWritten := c.bytesWritten + c.write.n, unwrittenCount := c.unwrittenCount - 1, write := WriteIdle)
  }

  function HandleWrite(c: Client): Client
    requires c.write.WriteReady?
  {
    if c.write.ok && c.write.n > 0 then
      var c' := WriteEntered(c);
      if c'.unwrittenCount == 1 then Restart(c') else c'
    else c.(write := WriteFailed(c.write.len))
  }

  // ---------- Server ----------

  datatype ServerOp =
    | Accepted
    | ServerReading
    | ServerReadReady(ok: bool, n: nat)
    | ServerWriting(sent: nat)
    | ServerWriteReady(ok: bool)
    | Destroyed

  datatype Server = Server(buf: Bytes, readDataLength: nat, op: ServerOp)

  function ServerStart(s: Server, ok: bool): Server {
    s.(op := if ok then ServerReading else Destroyed)
  }

  function ServerHandleRead(s: Server): Server
    requires s.op.ServerReadReady?
  {
    if s.op.ok then s.(readDataLength := s.op.n, op := ServerWriting(0)) else s.(op := Destroyed)
  }

  function ServerHandleWrite(s: Server): Server
    requires s.op.ServerWriteReady?
  {
    s.(op := if s.op.ok then ServerReading else Destroyed)
  }
}
