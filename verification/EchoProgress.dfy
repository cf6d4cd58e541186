/** Progress of the echo ring while nothing fails: when it can get stuck, and how many
    steps there can be between two reads. */
module EchoProgress {
  import opened EchoSessions
  import opened EchoRing
  import opened EchoInvariant
  import opened EchoTheorems

  /** The steps in which nothing fails, is refused or closed. */
  predicate Good(step: Step) {
    match step
    case Connect(ok) => ok
    case Close => false
    case SendEnd(ok) => ok
    case ReceiveFails => false
    case Accept(ok) => ok
    case ServerReceiveFails => false
    case ServerSendEnd(ok) => ok
    case _ => true
  }

  ghost predicate Stuck(k: Config, w: World) {
    forall step :: Good(step) ==> !Enabled(k, w, step)
  }

  /** The ring is blocked exactly when both streams are full, the server has to send,
      and the client, which has yet to send, has a read it cannot write back. */
  predicate Blocked(k: Config, w: World) {
    && w.client.read == ReadIdle && w.client.write.Writing? && w.client.write.sent < w.client.write.len
    && w.server.op.ServerWriting? && w.server.op.sent < w.server.readDataLength
    && |w.up| == k.capacity && |w.down| == k.capacity
  }

  lemma NextStep(k: Config, w: World) returns (step: Step)
    requires Inv(k, w) && ErrorFree(w) && !w.client.closed && !Blocked(k, w)
    requires 0 < k.blockSize && 0 < k.serverBlockSize && 0 < k.capacity
    ensures Good(step) && Enabled(k, w, step)
  {
    ConservationIn(k, w);
    var c, s := w.client, w.server;
    if c.write.WriteReady? {
      step := ClientHandlesWrite;
    } else if c.read.ReadReady? {
      step := ClientHandlesRead;
    } else if s.op.ServerReadReady? {
      step := ServerHandlesRead;
    } else if s.op.ServerWriteReady? {
      step := ServerHandlesWrite;
    } else if s.op.Accepted? {
      step := Accept(true);
    } else if c.write.Writing? && c.write.sent == c.write.len {
      step := SendEnd(true);
    } else if s.op.ServerWriting? && s.op.sent == s.readDataLength {
      step := ServerSendEnd(true);
    } else if c.write.Writing? && |w.up| < k.capacity {
      step := Send(1);
    } else if s.op.ServerWriting? && |w.down| < k.capacity {
      step := ServerSend(1);
    } else if s.op.ServerReading? && w.up != [] {
      step := ServerReceive(1);
    } else {
      step := Receive(1);
    }
  }

  lemma BlockedIsStuck(k: Config, w: World)
    requires Inv(k, w) && Blocked(k, w) && ErrorFree(w)
    ensures Stuck(k, w) && 2 * k.capacity + 3 <= k.blockSize
  {
    ConservationIn(k, w);
  }

  /** While nothing fails, the ring is stuck in no state but a blocked one. */
  lemma StuckIffBlocked(k: Config, w: World)
    requires Inv(k, w) && ErrorFree(w) && !w.client.closed
    requires 0 < k.blockSize && 0 < k.serverBlockSize && 0 < k.capacity
    ensures Stuck(k, w) <==> Blocked(k, w)
  {
    if Blocked(k, w) {
      BlockedIsStuck(k, w);
    } else {
      var step := NextStep(k, w);
    }
  }

  // ---------- Runs in which nothing fails ----------

  ghost predicate AllGood(run: seq<Step>) {
    forall i :: 0 <= i < |run| ==> Good(run[i])
  }

  /** Nothing has failed; the client may not be connected yet. */
  predicate Healthy(w: World) {
    && !w.client.closed
    && if w.client.phase == Connecting
       then w.server.op != Destroyed && (w.server.op.ServerReadReady? ==> w.server.op.ok)
            && (w.server.op.ServerWriteReady? ==> w.server.op.ok)
       else ErrorFree(w)
  }

  lemma GoodStepKeepsHealthy(k: Config, w: World, step: Step)
    requires Inv(k, w) && Healthy(w) && Enabled(k, w, step) && Good(step) && 0 < k.blockSize
    ensures Healthy(Next(k, w, step))
  {
    hide Flow, Echoed, Totalled;
  }

  lemma {:induction false} GoodRunKeepsHealthy(k: Config, w: World, run: seq<Step>)
    requires Inv(k, w) && Healthy(w) && Possible(k, w, run) && AllGood(run) && 0 < k.blockSize
    ensures Inv(k, After(k, w, run)) && Healthy(After(k, w, run))
    decreases |run|
  {
    hide Inv, Healthy, Enabled, Next, Good;
    if run != [] {
      assert Good(run[0]);
      GoodStepKeepsHealthy(k, w, run[0]);
      InvStep(k, w, run[0]);
      assert forall i :: 0 <= i < |run[1..]| ==> run[1..][i] == run[i + 1];
      GoodRunKeepsHealthy(k, Next(k, w, run[0]), run[1..]);
    }
  }

  /** The ring never gets stuck as long as the block is small enough for the streams:
      a block of 2 * capacity + 2 bytes is the largest that is. */
  lemma NeverStuck(k: Config, w: World, run: seq<Step>)
    requires Initial(k, w) && Possible(k, w, run) && AllGood(run)
    requires 0 < k.blockSize && 0 < k.serverBlockSize && 0 < k.capacity
    requires k.blockSize <= 2 * k.capacity + 2
    ensures !Stuck(k, After(k, w, run))
  {
    InvInitially(k, w);
    GoodRunKeepsHealthy(k, w, run);
    var w' := After(k, w, run);
    if w'.client.phase == Connecting {
      assert Good(Connect(true)) && Enabled(k, w', Connect(true));
    } else {
      StuckIffBlocked(k, w');
      if Blocked(k, w') {
        BlockedIsStuck(k, w');
      }
    }
  }

  // ---------- A larger block can get the ring stuck ----------

  /** `run` leads from w to w', without failures. */
  ghost predicate Leads(k: Config, w: World, run: seq<Step>, w': World) {
    AllGood(run) && Possible(k, w, run) && After(k, w, run) == w'
  }

  lemma {:induction false} Extend(k: Config, w: World, run: seq<Step>, w': World, step: Step)
    requires Leads(k, w, run, w') && Good(step) && Enabled(k, w', step)
    ensures Leads(k, w, run + [step], Next(k, w', step))
    decreases |run|
  {
    hide Enabled, Next, Good;
    var longer := run + [step];
    assert forall i :: 0 <= i < |run| ==> longer[i] == run[i];
    assert longer[|run|] == step;
    if run == [] {
      assert w' == w && longer[0] == step && longer[1..] == [];
      assert Possible(k, Next(k, w, step), longer[1..]);
      assert After(k, Next(k, w, step), longer[1..]) == Next(k, w, step);
    } else {
      assert forall i :: 0 <= i < |run[1..]| ==> run[1..][i] == run[i + 1];
      Extend(k, Next(k, w, run[0]), run[1..], w', step);
      assert longer[1..] == run[1..] + [step];
    }
  }

  /** Some run without failures leads from w0 to w, which is healthy. */
  ghost predicate Reached(k: Config, w0: World, w: World) {
    Inv(k, w) && Healthy(w) && exists run :: Leads(k, w0, run, w)
  }

  lemma Advance(k: Config, w0: World, w: World, step: Step) returns (w': World)
    requires Reached(k, w0, w) && Good(step) && Enabled(k, w, step) && 0 < k.blockSize
    ensures w' == Next(k, w, step) && Reached(k, w0, w')
  {
    hide Inv, Healthy, Good, Enabled, Next;
    w' := Next(k, w, step);
    var run :| Leads(k, w0, run, w);
    Extend(k, w0, run, w, step);
    InvStep(k, w, step);
    GoodStepKeepsHealthy(k, w, step);
  }

  /** The server waits for input, nothing is on the way to it, and the client has sent
      the first bytes of its block. */
  predicate Flowing(k: Config, w: World, sent: nat) {
    && !w.client.closed && w.client.phase == Running
    && w.server.op == ServerReading && w.up == []
    && w.client.write == Writing(k.blockSize, sent)
    && |w.client.writeData| == k.blockSize && |w.server.buf| == k.serverBlockSize
  }

  /** The next byte arrives at the server, which is about to send it on. */
  lemma OneByteUp(k: Config, w0: World, w: World, sent: nat) returns (w': World)
    requires Reached(k, w0, w) && Flowing(k, w, sent) && sent < k.blockSize
    requires 0 < k.capacity && 0 < k.serverBlockSize
    ensures Reached(k, w0, w') && w'.up == [] && w'.down == w.down
    ensures w'.client == w.client.(write := Writing(k.blockSize, sent + 1))
    ensures w'.server.op == ServerWriting(0) && w'.server.readDataLength == 1 && |w'.server.buf| == k.serverBlockSize
  {
    hide Reached;
    w' := Advance(k, w0, w, Send(1));
    w' := Advance(k, w0, w', ServerReceive(1));
    w' := Advance(k, w0, w', ServerHandlesRead);
  }

  /** It goes on into the other stream, and the server waits again. */
  lemma OneByteAcross(k: Config, w0: World, w: World, sent: nat) returns (w': World)
    requires Reached(k, w0, w) && Flowing(k, w, sent) && sent < k.blockSize
    requires 0 < k.serverBlockSize && |w.down| < k.capacity
    ensures Reached(k, w0, w') && Flowing(k, w', sent + 1)
    ensures |w'.down| == |w.down| + 1 && w'.client == w.client.(write := Writing(k.blockSize, sent + 1))
  {
    hide Reached;
    w' := OneByteUp(k, w0, w, sent);
    w' := Advance(k, w0, w', ServerSend(1));
    w' := Advance(k, w0, w', ServerSendEnd(true));
    w' := Advance(k, w0, w', ServerHandlesWrite);
  }

  /** The client reads the first byte back while it is still writing its block. */
  lemma FirstByteBack(k: Config, w0: World) returns (w: World)
    requires Initial(k, w0)
    requires 1 < k.blockSize && 0 < k.serverBlockSize && 0 < k.capacity
    ensures Reached(k, w0, w) && Flowing(k, w, 1) && w.down == [] && w.client.read == ReadIdle
  {
    InvInitially(k, w0);
    assert Leads(k, w0, [], w0);
    assert |Pattern(k.blockSize)| == k.blockSize;
    hide Reached, Pattern;
    w := Advance(k, w0, w0, Connect(true));
    w := Advance(k, w0, w, Accept(true));
    w := OneByteAcross(k, w0, w, 0);
    w := ByteRead(k, w0, w);
  }

  lemma ByteRead(k: Config, w0: World, w: World) returns (w': World)
    requires Reached(k, w0, w) && Flowing(k, w, 1) && |w.down| == 1 && 0 < k.blockSize
    requires w.client.read == Reading && w.client.unwrittenCount == 1 && |w.client.readData| == k.blockSize
    ensures Reached(k, w0, w') && Flowing(k, w', 1) && w'.down == [] && w'.client.read == ReadIdle
  {
    hide Reached;
    w' := Advance(k, w0, w, Receive(1));
    w' := Advance(k, w0, w', ClientHandlesRead);
  }

  lemma {:induction false} FillDown(k: Config, w0: World, w: World, sent: nat) returns (w': World)
    requires Reached(k, w0, w) && Flowing(k, w, sent) && |w.down| <= k.capacity && w.client.read == ReadIdle
    requires sent + k.capacity - |w.down| <= k.blockSize && 0 < k.serverBlockSize
    ensures Reached(k, w0, w') && Flowing(k, w', sent + k.capacity - |w.down|)
    ensures |w'.down| == k.capacity && w'.client.read == ReadIdle
    decreases k.capacity - |w.down|
  {
    hide Reached;
    if |w.down| == k.capacity {
      w' := w;
    } else {
      w' := OneByteAcross(k, w0, w, sent);
      w' := FillDown(k, w0, w', sent + 1);
    }
  }

  /** From every initial state, a block of 2 * capacity + 3 bytes or more can get
      stuck: the client has read a byte it cannot yet write back, and both streams
      fill up behind it. */
  lemma LargerBlockGetsStuck(k: Config, w0: World) returns (run: seq<Step>)
    requires Initial(k, w0) && 0 < k.serverBlockSize && 0 < k.capacity
    requires 2 * k.capacity + 3 <= k.blockSize
    ensures AllGood(run) && Possible(k, w0, run) && Stuck(k, After(k, w0, run))
  {
    var w := FirstByteBack(k, w0);
    w := FillDown(k, w0, w, 1);
    w := OneByteUp(k, w0, w, k.capacity + 1);
    w := Advance(k, w0, w, Send(k.capacity));
    BlockedIsStuck(k, w);
    run :| Leads(k, w0, run, w);
  }

  /** The exact condition: the ring can get stuck if and only if the block exceeds
      what the two streams hold by more than two bytes. */
  lemma StuckIffTooLarge(k: Config, w0: World)
    requires Initial(k, w0) && 0 < k.blockSize && 0 < k.serverBlockSize && 0 < k.capacity
    ensures (exists run :: AllGood(run) && Possible(k, w0, run) && Stuck(k, After(k, w0, run)))
            <==> 2 * k.capacity + 2 < k.blockSize
  {
    hide Initial, Possible, After, Stuck, AllGood;
    if 2 * k.capacity + 2 < k.blockSize {
      var run := LargerBlockGetsStuck(k, w0);
    } else {
      forall run | AllGood(run) && Possible(k, w0, run) ensures !Stuck(k, After(k, w0, run)) {
        NeverStuck(k, w0, run);
      }
    }
  }

  // ---------- How long a read can take ----------

  /** What is left to do before the client has to read: each byte has further to go
      the earlier it is on its way, and each operation has its completions ahead. */
  function Distance(w: World): nat {
    10 * |Held(w.client)| + 6 * |Unsent(w.client)| + 5 * |w.up| + |InServer(w.server)|
    + (if w.client.write.Writing? then 2 else if w.client.write.WriteReady? then 1 else 0)
    + (if w.client.read.ReadReady? then 1 else 0)
    + (match w.server.op
       case ServerReadReady(_, _) => 3
       case ServerWriting(_) => 2
       case ServerWriteReady(_) => 1
       case Accepted => 1
       case _ => 0)
  }

  lemma ClientComesCloser(k: Config, w: World, step: Step)
    requires Inv(k, w) && ErrorFree(w) && Enabled(k, w, step) && Good(step) && 0 < k.blockSize
    requires step.Send? || step.SendEnd? || step.ClientHandlesRead? || step.ClientHandlesWrite?
    ensures Distance(Next(k, w, step)) < Distance(w)
  {
    hide Flow, Echoed, Totalled, InServer;
  }

  lemma ServerComesCloser(k: Config, w: World, step: Step)
    requires Inv(k, w) && ErrorFree(w) && Enabled(k, w, step) && Good(step) && 0 < k.serverBlockSize
    requires ServerStep(step)
    ensures Distance(Next(k, w, step)) < Distance(w)
  {
    hide Flow, Echoed, Totalled, Held, Unsent, ClientShape, Counted;
  }

  ghost predicate WithoutReads(run: seq<Step>) {
    forall i :: 0 <= i < |run| ==> !run[i].Receive?
  }

  lemma {:induction false} ReadsDoNotWait(k: Config, w: World, run: seq<Step>)
    requires Inv(k, w) && ErrorFree(w) && !w.client.closed && 0 < k.blockSize && 0 < k.serverBlockSize
    requires Possible(k, w, run) && AllGood(run) && WithoutReads(run)
    ensures |run| <= Distance(w)
    decreases |run|
  {
    hide Inv, Enabled, Next, Distance, ErrorFree;
    if run != [] {
      var step := run[0];
      assert Good(step) && !step.Receive?;
      NotConnecting(k, w, step);
      if ServerStep(step) {
        ServerComesCloser(k, w, step);
      } else {
        ClientComesCloser(k, w, step);
      }
      InvStep(k, w, step);
      assert forall i :: 0 <= i < |run[1..]| ==> run[1..][i] == run[i + 1];
      ReadsDoNotWait(k, Next(k, w, step), run[1..]);
    }
  }

  lemma NotConnecting(k: Config, w: World, step: Step)
    requires Inv(k, w) && ErrorFree(w) && !w.client.closed && Enabled(k, w, step) && Good(step) && 0 < k.blockSize
    ensures !step.Connect? && ErrorFree(Next(k, w, step)) && !Next(k, w, step).client.closed
  {
    hide Flow, Echoed, Totalled;
  }

  /** Between two consecutive reads of the client, or before the first, there are at
      most 10 * blockSize + 6 other steps. */
  lemma ReadsAreFrequent(k: Config, w0: World, before: seq<Step>, between: seq<Step>)
    requires Initial(k, w0) && Possible(k, w0, before) && 0 < k.blockSize && 0 < k.serverBlockSize
    requires ErrorFree(After(k, w0, before)) && !After(k, w0, before).client.closed
    requires Possible(k, After(k, w0, before), between) && AllGood(between) && WithoutReads(between)
    ensures |between| <= 10 * k.blockSize + 6
  {
    hide Inv, Initial, Possible, After, AllGood, WithoutReads;
    InvAlways(k, w0, before);
    DistanceBound(k, After(k, w0, before));
    ReadsDoNotWait(k, After(k, w0, before), between);
  }

  lemma DistanceBound(k: Config, w: World)
    requires Inv(k, w) && ErrorFree(w)
    ensures Distance(w) <= 10 * k.blockSize + 6
  {
    ConservationIn(k, w);
  }
}
