/** Whole runs of the echo ring, played on the two session objects. */
module EchoExecution {
  import opened EchoSessions
  import opened EchoRing
  import opened EchoInvariant
  import opened EchoTheorems
  import opened EchoObjects

  /** The two objects and the streams between them are in the state w. */
  ghost predicate Shows(k: Config, c: ClientSession, s: ServerSession, up: Bytes, down: Bytes, w: World)
    reads c, c.readData, c.writeData, s, s.buf
  {
    && c.Valid() && c.blockSize == k.blockSize && c.View() == w.client
    && s.Valid() && s.blockSize == k.serverBlockSize && s.View() == w.server
    && s.buf != c.readData && s.buf != c.writeData
    && up == w.up && down == w.down
  }

  /** New sessions are in an initial state. */
  method Begin(k: Config) returns (c: ClientSession, s: ServerSession, ghost w: World)
    ensures Initial(k, w) && Shows(k, c, s, [], [], w)
    ensures fresh({c, c.readData, c.writeData, s, s.buf})
  {
    c := new ClientSession(k.blockSize);
    s := new ServerSession(k.serverBlockSize);
    w := World(c.View(), [], s.View(), [], [], [], 0);
  }

  /** A step that changes the client. */
  method PerformClient(k: Config, c: ClientSession, s: ServerSession, up: Bytes, down: Bytes, ghost w: World,
                       step: Step) returns (up': Bytes, down': Bytes)
    requires Shows(k, c, s, up, down, w) && Inv(k, w) && Enabled(k, w, step) && !ServerStep(step)
    modifies c, c.readData
    ensures Shows(k, c, s, up', down', Next(k, w, step))
    ensures {c.readData, c.writeData} == {old(c.readData), old(c.writeData)}
    ensures c.writeData != old(c.writeData) ==> !WritePending(w.client) || step == ClientHandlesWrite
  {
    hide Flow, Echoed, Totalled, Counted;
    up', down' := up, down;
    match step {
      case Connect(ok) => c.OnConnect(!ok, false);
      case Close => c.CloseSocket();
      case Send(n) =>
        var data := c.Transmit(n);
        up' := up + data;
      case SendEnd(ok) => c.EndWrite(ok);
      case ClientHandlesWrite => c.OnWrite(!c.write.ok, c.write.n);
      case Receive(n) =>
        c.Deliver(down[..n]);
        down' := down[n..];
      case ReceiveFails => c.FailRead();
      case ClientHandlesRead => c.OnRead(!c.read.ok, c.read.n);
    }
  }

  /** A step that changes the server. */
  method PerformServer(k: Config, c: ClientSession, s: ServerSession, up: Bytes, down: Bytes, ghost w: World,
                       step: Step) returns (up': Bytes, down': Bytes)
    requires Shows(k, c, s, up, down, w) && Inv(k, w) && Enabled(k, w, step) && ServerStep(step)
    modifies s, s.buf
    ensures Shows(k, c, s, up', down', Next(k, w, step))
  {
    hide Flow, Echoed, Totalled, Counted, ClientShape;
    up', down' := up, down;
    match step {
      case Accept(ok) => s.StartSession(!ok);
      case ServerReceive(n) =>
        s.Deliver(up[..n]);
        up' := up[n..];
      case ServerReceiveFails => s.FailRead();
      case ServerHandlesRead => s.OnRead(!s.op.ok, s.op.n);
      case ServerSend(n) =>
        var data := s.Transmit(n);
        down' := down + data;
      case ServerSendEnd(ok) => s.EndWrite(ok);
      case ServerHandlesWrite => s.OnWrite(!s.op.ok);
    }
  }

  /** Every possible run, failures and closing included, takes the objects to the state
      that the transition system gives. The client's two buffers stay separate from
      each other and from the server's, and until a pending write has been handled, its
      buffer is neither exchanged nor changed. */
  method Execute(k: Config, c: ClientSession, s: ServerSession, up: Bytes, down: Bytes, ghost w: World,
                 run: seq<Step>) returns (up': Bytes, down': Bytes)
    requires Shows(k, c, s, up, down, w) && Inv(k, w) && Possible(k, w, run)
    modifies c, c.readData, c.writeData, s, s.buf
    ensures Shows(k, c, s, up', down', After(k, w, run))
    ensures {c.readData, c.writeData} == {old(c.readData), old(c.writeData)} && c.readData != c.writeData
    ensures WritePending(w.client) && WriteNotHandled(run) ==>
              c.writeData == old(c.writeData) && c.writeData[..] == old(c.writeData[..])
  {
    hide Inv, Enabled, Next, ServerStep;
    up', down' := up, down;
    ghost var now := w;
    assert run[0..] == run;
    for i := 0 to |run|
      invariant Shows(k, c, s, up', down', now) && Inv(k, now)
      invariant Possible(k, now, run[i..]) && After(k, now, run[i..]) == After(k, w, run)
      invariant {c.readData, c.writeData} == {old(c.readData), old(c.writeData)}
      invariant WritePending(w.client) && WriteNotHandled(run) ==>
                  && c.writeData == old(c.writeData) && WritePending(now.client)
                  && now.client.writeData == w.client.writeData
    {
      var step := run[i];
      assert run[i..][0] == step && run[i..][1..] == run[i + 1..];
      if ServerStep(step) {
        up', down' := PerformServer(k, c, s, up', down', now, step);
      } else {
        up', down' := PerformClient(k, c, s, up', down', now, step);
      }
      InvStep(k, now, step);
      if WritePending(now.client) && step != ClientHandlesWrite {
        StillPending(k, now, step);
      }
      now := Next(k, now, step);
    }
    assert run[|run|..] == [];
  }
}
