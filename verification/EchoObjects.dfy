/** The two sessions as objects, with their buffers in memory. The socket is given
    pointers to these buffers for as long as an operation is pending, so the objects
    show that a pending write's buffer is never read into and never exchanged. The server
    has one buffer for both, so its object adds nothing to the values of the transition
    system; it is here to be the other end of whole runs. */
module EchoObjects {
  import opened EchoSessions
  import opened EchoRing
  import opened EchoInvariant

  /** A transfer into the front of a buffer. */
  method Fill(buf: array<int>, data: Bytes)
    requires |data| <= buf.Length
    modifies buf
    ensures buf[..] == Overwrite(old(buf[..]), data)
  {
    for i := 0 to |data|
      invariant forall j :: 0 <= j < i ==> buf[j] == data[j]
      invariant forall j :: i <= j < buf.Length ==> buf[j] == old(buf[j])
    {
      buf[i] := data[i];
    }
  }

  class ClientSession {
    const blockSize: nat
    var readData: array<int>
    var readDataLength: nat
    var writeData: array<int>
    var unwrittenCount: int
    var bytesWritten: nat
    var bytesRead: nat

    // What the socket knows: the operations begun on it, with the buffers they use.
    var phase: Phase
    var closed: bool
    var read: ReadOp
    var write: WriteOp
    var readTarget: array<int>
    var writeSource: array<int>

    ghost function View(): Client
      reads this, readData, writeData
    {
      Client(readData[..], readDataLength, writeData[..], unwrittenCount, bytesWritten, bytesRead,
             phase, closed, read, write)
    }

    /** The buffers are separate, and the socket uses each for its own operation. */
    ghost predicate Valid()
      reads this, readData, writeData
    {
      && readData != writeData
      && ClientShape(blockSize, View()) && Counted(View())
      && (read.Reading? || read.ReadReady? ==> readTarget == readData)
      && (write.Writing? || write.WriteReady? ==> writeSource == writeData)
    }

    constructor (blockSize: nat)
      ensures Valid() && this.blockSize == blockSize && fresh(readData) && fresh(writeData)
      ensures |View().readData| == blockSize && View() == NewClient(blockSize, View().readData)
    {
      this.blockSize := blockSize;
      var r, w := new int[blockSize], new int[blockSize];
      readData, writeData, readTarget, writeSource := r, w, r, w;
      readDataLength, unwrittenCount, bytesWritten, bytesRead := 0, 0, 0, 0;
      phase, closed, read, write := Connecting, false, ReadIdle, WriteIdle;
      new;
      for i := 0 to blockSize
        invariant writeData == w && readData == r
        invariant forall j :: 0 <= j < i ==> w[j] == j % 128
        invariant readDataLength == 0 && unwrittenCount == 0 && bytesWritten == 0 && bytesRead == 0
        invariant phase == Connecting && !closed && read == ReadIdle && write == WriteIdle
      {
        writeData[i] := i % 128;
      }
      assert writeData[..] == Pattern(blockSize);
    }

    method AsyncWrite(len: nat)
      modifies this`write, this`writeSource
      ensures write == Writing(len, 0) && writeSource == writeData
    {
      write := Writing(len, 0);
      writeSource := writeData;
    }

    method AsyncReadSome()
      modifies this`read, this`readTarget
      ensures read == Reading && readTarget == readData
    {
      read := Reading;
      readTarget := readData;
    }

    /** `std::swap` of the buffer pointers and the next pair of operations. */
    method SwapAndRestart()
      requires readData != writeData && ClientShape(blockSize, View())
      requires phase == Running && read == ReadIdle && write == WriteIdle && unwrittenCount == 1
      modifies this`readData, this`writeData, this`read, this`readTarget, this`write, this`writeSource
      ensures Valid() && readData == old(writeData) && writeData == old(readData)
      ensures View() == Restart(old(View()))
    {
      readData, writeData := writeData, readData;
      AsyncWrite(readDataLength);
      AsyncReadSome();
    }

    method OnConnect(err: bool, setOptionErr: bool)
      requires Valid() && phase == Connecting
      modifies this
      ensures Valid() && readData == old(readData) && writeData == old(writeData)
      ensures View() == HandleConnect(old(View()), !err && !setOptionErr)
    {
      phase := NotConnected;
      if !err {
        if !setOptionErr {
          phase := Running;
          unwrittenCount := unwrittenCount + 1;
          AsyncWrite(blockSize);
          AsyncReadSome();
        }
      }
    }

    method OnRead(err: bool, length: nat)
      requires Valid() && read == ReadReady(!err, length)
      modifies this
      ensures Valid() && {readData, writeData} == {old(readData), old(writeData)}
      ensures View() == HandleRead(old(View()))
      ensures writeData != old(writeData) ==> old(write) == WriteIdle
    {
      read := ReadFailed;
      if !err {
        read := ReadIdle;
        bytesRead := bytesRead + length;
        readDataLength := length;
        unwrittenCount := unwrittenCount + 1;
        if unwrittenCount == 1 {
          SwapAndRestart();
        }
      }
    }

    method OnWrite(err: bool, length: nat)
      requires Valid() && write.WriteReady? && write.ok == !err && write.n == length
      modifies this
      ensures Valid() && {readData, writeData} == {old(readData), old(writeData)}
      ensures View() == HandleWrite(old(View()))
      ensures writeData != old(writeData) ==> old(read) == ReadIdle
    {
      if !err && length > 0 {
        write := WriteIdle;
        bytesWritten := bytesWritten + length;
        unwrittenCount := unwrittenCount - 1;
        if unwrittenCount == 1 {
          SwapAndRestart();
        }
      } else {
        write := WriteFailed(write.len);
      }
    }

    method CloseSocket()
      requires Valid()
      modifies this`closed
      ensures Valid() && View() == old(View()).(closed := true)
    {
      closed := true;
    }

    /** The socket delivers some bytes into the buffer of the pending read. The buffer
        of the pending write keeps its contents. */
    method Deliver(data: Bytes)
      requires Valid() && read == Reading && Deliverable(|data|, data, blockSize)
      modifies this`read, readTarget
      ensures Valid() && readData == old(readData) && writeData == old(writeData)
      ensures writeData[..] == old(writeData[..])
      ensures View() == old(View()).(readData := Overwrite(old(readData[..]), data), read := ReadReady(true, |data|))
    {
      Fill(readTarget, data);
      read := ReadReady(true, |data|);
    }

    /** The socket takes the next bytes of the pending write. */
    method Transmit(n: nat) returns (data: Bytes)
      requires Valid() && write.Writing? && write.sent + n <= write.len
      modifies this`write
      ensures Valid() && View() == old(View()).(write := Writing(old(write.len), old(write.sent) + n))
      ensures data == old(View()).writeData[old(write.sent)..old(write.sent) + n]
    {
      data := writeSource[write.sent..write.sent + n];
      write := Writing(write.len, write.sent + n);
    }

    /** The pending write ends: when all of it is sent, or because it fails. */
    method EndWrite(ok: bool)
      requires Valid() && write.Writing? && (ok ==> write.sent == write.len)
      modifies this`write
      ensures Valid() && View() == old(View()).(write := WriteReady(old(write.len), ok, old(write.sent)))
    {
      write := WriteReady(write.len, ok, write.sent);
    }

    /** The pending read fails. */
    method FailRead()
      requires Valid() && read == Reading
      modifies this`read
      ensures Valid() && View() == old(View()).(read := ReadReady(false, 0))
    {
      read := ReadReady(false, 0);
    }
  }

  class ServerSession {
    const blockSize: nat
    const buf: array<int>
    var readDataLength: nat
    var op: ServerOp

    ghost function View(): Server
      reads this, buf
    {
      Server(buf[..], readDataLength, op)
    }

    ghost predicate Valid()
      reads this, buf
    {
      ServerShape(blockSize, View())
    }

    constructor (blockSize: nat)
      ensures Valid() && this.blockSize == blockSize && fresh(buf)
      ensures |View().buf| == blockSize && View() == Server(View().buf, 0, Accepted)
    {
      this.blockSize := blockSize;
      buf := new int[blockSize];
      readDataLength, op := 0, Accepted;
    }

    method StartSession(setOptionErr: bool)
      requires Valid() && op == Accepted
      modifies this
      ensures Valid() && View() == ServerStart(old(View()), !setOptionErr)
    {
      if !setOptionErr {
        op := ServerReading;
        return;
      }
      op := Destroyed;
    }

    method OnRead(err: bool, length: nat)
      requires Valid() && op == ServerReadReady(!err, length)
      modifies this
      ensures Valid() && View() == ServerHandleRead(old(View()))
    {
      if !err {
        readDataLength := length;
        op := ServerWriting(0);
        return;
      }
      op := Destroyed;
    }

    method OnWrite(err: bool)
      requires Valid() && op == ServerWriteReady(!err)
      modifies this
      ensures Valid() && View() == ServerHandleWrite(old(View()))
    {
      if !err {
        op := ServerReading;
        return;
      }
      op := Destroyed;
    }

    /** Some bytes arrive in the buffer. It is not in use by a write then. */
    method Deliver(data: Bytes)
      requires Valid() && op == ServerReading && Deliverable(|data|, data, blockSize)
      modifies this`op, buf
      ensures Valid()
      ensures View() == old(View()).(buf := Overwrite(old(buf[..]), data), op := ServerReadReady(true, |data|))
    {
      Fill(buf, data);
      op := ServerReadReady(true, |data|);
    }

    method FailRead()
      requires Valid() && op == ServerReading
      modifies this`op
      ensures Valid() && View() == old(View()).(op := ServerReadReady(false, 0))
    {
      op := ServerReadReady(false, 0);
    }

    method Transmit(n: nat) returns (data: Bytes)
      requires Valid() && op.ServerWriting? && op.sent + n <= readDataLength
      modifies this`op
      ensures Valid() && View() == old(View()).(op := ServerWriting(old(op.sent) + n))
      ensures data == old(View()).buf[old(op.sent)..old(op.sent) + n]
    {
      data := buf[op.sent..op.sent + n];
      op := ServerWriting(op.sent + n);
    }

    method EndWrite(ok: bool)
      requires Valid() && op.ServerWriting?
      modifies this`op
      ensures Valid() && View() == old(View()).(op := ServerWriteReady(ok))
    {
      op := ServerWriteReady(ok);
    }
  }
}
