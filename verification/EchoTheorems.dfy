/** What the invariant of the echo ring gives over whole runs. */
module EchoTheorems {
  import opened Arithmetic
  import opened EchoSessions
  import opened EchoRing
  import opened EchoInvariant

  lemma InvStep(k: Config, w: World, step: Step)
    requires Inv(k, w) && Enabled(k, w, step)
    ensures Inv(k, Next(k, w, step))
  {
    hide Inv, Enabled, Next;
    match step {
      case Connect(ok) => InvConnect(k, w, ok);
      case Send(n) => InvSend(k, w, n);
      case ClientHandlesWrite => InvClientHandlesWrite(k, w);
      case Receive(n) => InvReceive(k, w, n);
      case ClientHandlesRead => InvClientHandlesRead(k, w);
      case ServerReceive(n) => InvServerReceive(k, w, n);
      case ServerSend(n) => InvServerSend(k, w, n);
      case Close => InvEnd(k, w, step);
      case SendEnd(_) => InvEnd(k, w, step);
      case ReceiveFails => InvEnd(k, w, step);
      case _ => InvServerOther(k, w, step);
    }
  }

  lemma {:induction false} InvRun(k: Config, w: World, run: seq<Step>)
    requires Inv(k, w) && Possible(k, w, run)
    ensures Inv(k, After(k, w, run))
    decreases |run|
  {
    hide Inv, Enabled, Next;
    if run != [] {
      InvStep(k, w, run[0]);
      InvRun(k, Next(k, w, run[0]), run[1..]);
    }
  }

  /** The invariant holds in every state of every run, failures and closing included. */
  lemma InvAlways(k: Config, w: World, run: seq<Step>)
    requires Initial(k, w) && Possible(k, w, run)
    ensures Inv(k, After(k, w, run))
  {
    InvInitially(k, w);
    InvRun(k, w, run);
  }

  // ---------- Content ----------

  /** A stream that starts with a block and goes on with what comes back of itself
      repeats the block. */
  lemma {:induction false} FedBack(p: Bytes, s: Bytes, back: Bytes, held: Bytes, i: nat)
    requires s + held == p + back && back <= s && i < |s|
    requires p == [] ==> back == []
    ensures p != [] && s[i] == p[Wrapped(i, |p|)]
  {
    assert s[i] == (s + held)[i] == (p + back)[i];
    if |p| <= i {
      assert (p + back)[i] == back[i - |p|] == s[i - |p|];
      FedBack(p, s, back, held, i - |p|);
    }
  }

  function Wrapped(i: nat, b: nat): (r: nat)
    ensures b > 0 ==> r < b
  {
    if b == 0 || i < b then i else Wrapped(i - b, b)
  }

  lemma {:induction false} WrappedIsRemainder(i: nat, b: nat) returns (q: nat)
    requires 0 < b
    ensures i == q * b + Wrapped(i, b) && Wrapped(i, b) == i % b
  {
    if i < b {
      q := 0;
    } else {
      var q' := WrappedIsRemainder(i - b, b);
      q := q' + 1;
      assert q * b == q' * b + b;
    }
    QuotientAndRemainder(i, b, q, Wrapped(i, b));
  }

  lemma PatternRepeats(k: Config, w: World, i: nat)
    requires Inv(k, w) && i < |w.submitted|
    ensures 0 < k.blockSize && w.submitted[i] == i % k.blockSize % 128
  {
    hide ClientShape, ServerShape, Counted, Totalled, InServer, Unsent, Held, Wrapped;
    assert w.received + w.down <= w.submitted;
    FedBack(Pattern(k.blockSize), w.submitted, w.received, Held(w.client), i);
    var _ := WrappedIsRemainder(i, k.blockSize);
  }

  /** For every interleaving of partial transfers, and whatever fails or is closed on
      the way, each byte the client ever submits continues its initial pattern. */
  lemma SubmittedContent(k: Config, w: World, run: seq<Step>, i: nat)
    requires Initial(k, w) && Possible(k, w, run) && i < |After(k, w, run).submitted|
    ensures 0 < k.blockSize && After(k, w, run).submitted[i] == i % k.blockSize % 128
  {
    InvAlways(k, w, run);
    PatternRepeats(k, After(k, w, run), i);
  }

  /** And so does each byte it reads back. */
  lemma ReceivedContent(k: Config, w: World, run: seq<Step>, i: nat)
    requires Initial(k, w) && Possible(k, w, run) && i < |After(k, w, run).received|
    ensures 0 < k.blockSize && After(k, w, run).received[i] == i % k.blockSize % 128
  {
    InvAlways(k, w, run);
    var w' := After(k, w, run);
    assert w'.received + w'.down <= w'.submitted;
    PatternRepeats(k, w', i);
  }

  // ---------- Conservation ----------

  /** No operation has failed, and both sessions are running. */
  predicate ErrorFree(w: World) {
    && w.client.phase == Running
    && !w.client.read.ReadFailed? && (w.client.read.ReadReady? ==> w.client.read.ok)
    && WriteSound(w.client)
    && w.server.op != Destroyed
    && (w.server.op.ServerReadReady? ==> w.server.op.ok)
    && (w.server.op.ServerWriteReady? ==> w.server.op.ok)
  }

  lemma ConservationIn(k: Config, w: World)
    requires Inv(k, w) && ErrorFree(w)
    ensures |w.submitted| - |w.received| == k.blockSize - |Held(w.client)|
    ensures |Held(w.client)| + |Unsent(w.client)| + |w.up| + |InServer(w.server)| + |w.down| == k.blockSize
    ensures w.client.bytesWritten <= w.client.bytesRead + k.blockSize
    ensures w.client.bytesRead <= w.client.bytesWritten + k.blockSize
  {
    assert |w.submitted + Held(w.client)| == |Pattern(k.blockSize) + w.received|;
    assert |w.received + w.down + InServer(w.server) + w.up + Unsent(w.client)| == |w.submitted|;
  }

  /** The block circulates: what is not held by the client is in its pending write, in
      one of the streams or with the server, and the two totals never drift apart by
      more than the block. */
  lemma Conservation(k: Config, w0: World, run: seq<Step>)
    requires Initial(k, w0) && Possible(k, w0, run) && ErrorFree(After(k, w0, run))
    ensures var w := After(k, w0, run);
            && |w.submitted| - |w.received| == k.blockSize - |Held(w.client)|
            && |Held(w.client)| + |Unsent(w.client)| + |w.up| + |InServer(w.server)| + |w.down| == k.blockSize
            && w.client.bytesWritten <= w.client.bytesRead + k.blockSize
            && w.client.bytesRead <= w.client.bytesWritten + k.blockSize
  {
    InvAlways(k, w0, run);
    ConservationIn(k, After(k, w0, run));
  }

  /** The two totals are those of the bytes submitted and received, but for the read
      and the write that have not been handled yet. */
  lemma Totals(k: Config, w0: World, run: seq<Step>)
    requires Initial(k, w0) && Possible(k, w0, run)
    ensures var w := After(k, w0, run);
            && (w.client.write == WriteIdle ==> w.client.bytesWritten == |w.submitted|)
            && (w.client.write.Writing? ==> w.client.bytesWritten + w.client.write.len == |w.submitted|)
            && (w.client.read.ReadReady? && w.client.read.ok ==> w.client.bytesRead + w.client.read.n == |w.received|)
            && (w.client.read == ReadIdle || w.client.read == Reading ==> w.client.bytesRead == |w.received|)
  {
    InvAlways(k, w0, run);
  }

  // ---------- Operations ----------

  predicate ReadPending(c: Client) {
    c.read.Reading? || c.read.ReadReady?
  }

  predicate WritePending(c: Client) {
    c.write.Writing? || c.write.WriteReady?
  }

  predicate CountTellsPending(c: Client) {
    && 0 <= c.unwrittenCount <= 2
    && (c.phase == Running && !c.read.ReadFailed? && !c.write.WriteFailed? ==>
          c.unwrittenCount == (if WritePending(c) then 1 else 0) + (if ReadPending(c) then 0 else 1))
  }

  lemma UnwrittenCountIn(k: Config, w: World)
    requires Inv(k, w)
    ensures CountTellsPending(w.client)
  {
  }

  /** The counter tells what is outstanding; it stays within 0..2 even after failures. */
  lemma UnwrittenCount(k: Config, w0: World, run: seq<Step>)
    requires Initial(k, w0) && Possible(k, w0, run)
    ensures CountTellsPending(After(k, w0, run).client)
  {
    InvAlways(k, w0, run);
    UnwrittenCountIn(k, After(k, w0, run));
  }

  /** The step is a handler that has just ended one operation well and finds the other
      one over. */
  predicate BothOver(c: Client, step: Step) {
    || (step == ClientHandlesRead && c.read.ReadReady? && c.read.ok && c.write == WriteIdle)
    || (step == ClientHandlesWrite && c.write.WriteReady? && c.write.ok && c.write.n > 0 && c.read == ReadIdle)
  }

  /** The buffers of c' are those of c, with their roles exchanged; what has been read
      is about to be written, and the next read begins. */
  predicate Exchanged(c: Client, c': Client) {
    && c'.writeData == c.readData && c'.readData == c.writeData
    && c'.read == Reading && c'.write == Writing(|Held(c)|, 0)
  }

  /** The buffers change roles, and operations begin after the first two, exactly in a
      handler that finds both operations over. In all other steps the write buffer
      keeps its contents, and only a delivery changes those of the read buffer. */
  lemma SwapIffBothOver(k: Config, w0: World, run: seq<Step>, step: Step)
    requires Initial(k, w0) && Possible(k, w0, run) && Enabled(k, After(k, w0, run), step) && !step.Connect?
    ensures var w := After(k, w0, run);
            var w' := Next(k, w, step);
            && (w'.started != w.started <==> BothOver(w.client, step))
            && (BothOver(w.client, step) ==> w'.started == w.started + 2 && Exchanged(w.client, w'.client))
            && (!BothOver(w.client, step) ==> w'.client.writeData == w.client.writeData)
            && (!BothOver(w.client, step) && !step.Receive? ==> w'.client.readData == w.client.readData)
  {
    InvAlways(k, w0, run);
    SwapIn(k, After(k, w0, run), step);
  }

  lemma SwapIn(k: Config, w: World, step: Step)
    requires Inv(k, w) && Enabled(k, w, step) && !step.Connect?
    ensures var w' := Next(k, w, step);
            && (w'.started != w.started <==> BothOver(w.client, step))
            && (BothOver(w.client, step) ==> w'.started == w.started + 2 && Exchanged(w.client, w'.client))
            && (!BothOver(w.client, step) ==> w'.client.writeData == w.client.writeData)
            && (!BothOver(w.client, step) && !step.Receive? ==> w'.client.readData == w.client.readData)
  {
    hide Flow, Echoed, Totalled, InServer, Unsent, ServerShape, Pattern;
  }

  /** A client's write is pending from when it is begun until its handler runs. */
  ghost predicate WriteNotHandled(run: seq<Step>) {
    forall i :: 0 <= i < |run| ==> run[i] != ClientHandlesWrite
  }

  /** Whatever happens meanwhile, the buffer of a pending write keeps its contents. */
  lemma {:induction false} PendingWriteKeepsBuffer(k: Config, w: World, run: seq<Step>)
    requires Inv(k, w) && Possible(k, w, run) && WritePending(w.client) && WriteNotHandled(run)
    ensures var w' := After(k, w, run);
            WritePending(w'.client) && w'.client.writeData == w.client.writeData && w'.started == w.started
    decreases |run|
  {
    hide Inv, Enabled, Next;
    if run != [] {
      assert run[0] != ClientHandlesWrite;
      StillPending(k, w, run[0]);
      InvStep(k, w, run[0]);
      assert forall i :: 0 <= i < |run[1..]| ==> run[1..][i] == run[i + 1];
      PendingWriteKeepsBuffer(k, Next(k, w, run[0]), run[1..]);
    }
  }

  lemma StillPending(k: Config, w: World, step: Step)
    requires Inv(k, w) && Enabled(k, w, step) && WritePending(w.client) && step != ClientHandlesWrite
    ensures var w' := Next(k, w, step);
            WritePending(w'.client) && w'.client.writeData == w.client.writeData && w'.started == w.started
  {
    hide Flow, Echoed, Totalled, InServer, Unsent, Held, ServerShape, Pattern;
    if !step.Connect? {
      SwapIn(k, w, step);
    }
  }
}
