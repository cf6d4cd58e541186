/** What being connected, refused, accepted or closed means for a whole run. */
module EchoConnection {
  import opened EchoSessions
  import opened EchoRing
  import opened EchoInvariant
  import opened EchoTheorems

  // ---------- The client connects, or not ----------

  lemma ConnectStep(k: Config, w: World, step: Step)
    requires Enabled(k, w, step)
    ensures var w' := Next(k, w, step);
            && w.started <= w'.started && |w.submitted| <= |w'.submitted|
            && (step.Connect? ==> w.client.phase == Connecting)
            && w'.client.phase == (if step == Connect(true) then Running
                                   else if step == Connect(false) then NotConnected
                                   else w.client.phase)
            && (step == Connect(true) ==>
                  w'.started == w.started + 2 && |w'.submitted| == |w.submitted| + |w.client.writeData|)
  {
  }

  /** Once a client is connected, or has been refused, it stays so. */
  lemma {:induction false} PhaseStays(k: Config, w: World, run: seq<Step>)
    requires Possible(k, w, run) && w.client.phase != Connecting
    ensures var w' := After(k, w, run);
            w'.client.phase == w.client.phase && w.started <= w'.started && |w.submitted| <= |w'.submitted|
    ensures Connect(true) !in run && Connect(false) !in run
    decreases |run|
  {
    hide Enabled, Next;
    if run != [] {
      ConnectStep(k, w, run[0]);
      PhaseStays(k, Next(k, w, run[0]), run[1..]);
      assert run == [run[0]] + run[1..];
    }
  }

  /** The phase tells which of the two has occurred. */
  lemma {:induction false} PhaseTells(k: Config, w: World, run: seq<Step>)
    requires Inv(k, w) && Possible(k, w, run) && w.client.phase == Connecting
    ensures var w' := After(k, w, run);
            && (Connect(true) in run <==> w'.client.phase == Running)
            && (Connect(false) in run <==> w'.client.phase == NotConnected)
            && (Connect(true) in run ==> w.started + 2 <= w'.started && k.blockSize <= |w'.submitted|)
    decreases |run|
  {
    hide Inv, Enabled, Next;
    if run != [] {
      ConnectStep(k, w, run[0]);
      InvStep(k, w, run[0]);
      assert |w.client.writeData| == k.blockSize by { WholeBlock(k, w); }
      assert run == [run[0]] + run[1..];
      if run[0].Connect? {
        PhaseStays(k, Next(k, w, run[0]), run[1..]);
      } else {
        PhaseTells(k, Next(k, w, run[0]), run[1..]);
      }
    }
  }

  lemma WholeBlock(k: Config, w: World)
    requires Inv(k, w)
    ensures |w.client.writeData| == k.blockSize
  {
  }

  /** Nothing has been begun, moved or counted. */
  predicate Untouched(k: Config, w: World) {
    && w.started == 0 && w.submitted == [] && w.received == []
    && w.client.unwrittenCount == 0 && w.client.bytesWritten == 0 && w.client.bytesRead == 0
    && w.client.read == ReadIdle && w.client.write == WriteIdle
  }

  /** Operations have begun if and only if the client was connected. If it was, its
      whole first block has been submitted; if it was refused, nothing ever happens. */
  lemma StartedIffConnected(k: Config, w0: World, run: seq<Step>)
    requires Initial(k, w0) && Possible(k, w0, run)
    ensures var w := After(k, w0, run);
            && (w.started > 0 <==> Connect(true) in run)
            && (Connect(true) in run ==> k.blockSize <= |w.submitted|)
            && (Connect(true) !in run ==> Untouched(k, w))
            && (Connect(false) in run ==> Untouched(k, w) && Connect(true) !in run)
  {
    InvInitially(k, w0);
    InvAlways(k, w0, run);
    PhaseTells(k, w0, run);
    hide Flow, ServerShape, Held;
  }

  // ---------- The server accepts, or not ----------

  /** The server has sent nothing, nor taken anything in. */
  predicate Silent(w: World, buf: Bytes) {
    w.down == [] && w.received == [] && w.server.buf == buf
  }

  lemma AcceptStep(k: Config, w: World, step: Step, buf: Bytes)
    requires Enabled(k, w, step)
    ensures var w' := Next(k, w, step);
            && (step.Accept? ==> w.server.op == Accepted)
            && (w.server.op == Destroyed ==> w'.server.op == Destroyed)
            && (w.server.op == Accepted && !step.Accept? ==> w'.server.op == Accepted)
            && (step == Accept(true) ==> w'.server.op == ServerReading)
            && (step == Accept(false) ==> w'.server.op == Destroyed)
            && (w.server.op == Accepted || w.server.op == Destroyed ==> Silent(w, buf) ==> Silent(w', buf))
  {
  }

  lemma {:induction false} DestroyedStays(k: Config, w: World, run: seq<Step>, buf: Bytes)
    requires Possible(k, w, run) && w.server.op == Destroyed
    ensures After(k, w, run).server.op == Destroyed && (Silent(w, buf) ==> Silent(After(k, w, run), buf))
    ensures Accept(true) !in run && Accept(false) !in run
    decreases |run|
  {
    hide Enabled, Next, Silent;
    if run != [] {
      AcceptStep(k, w, run[0], buf);
      DestroyedStays(k, Next(k, w, run[0]), run[1..], buf);
      assert run == [run[0]] + run[1..];
    }
  }

  lemma {:induction false} AcceptTells(k: Config, w: World, run: seq<Step>, buf: Bytes)
    requires Possible(k, w, run) && w.server.op == Accepted && Silent(w, buf)
    ensures var w' := After(k, w, run);
            && (Accept(true) !in run ==> Silent(w', buf))
            && (Accept(false) in run ==> Accept(true) !in run && w'.server.op == Destroyed)
    decreases |run|
  {
    hide Enabled, Next, Silent;
    if run != [] {
      AcceptStep(k, w, run[0], buf);
      assert run == [run[0]] + run[1..];
      if run[0] == Accept(true) {
        NoMoreAccepts(k, Next(k, w, run[0]), run[1..]);
      } else if run[0] == Accept(false) {
        DestroyedStays(k, Next(k, w, run[0]), run[1..], buf);
      } else {
        AcceptTells(k, Next(k, w, run[0]), run[1..], buf);
      }
    }
  }

  lemma {:induction false} NoMoreAccepts(k: Config, w: World, run: seq<Step>)
    requires Possible(k, w, run) && w.server.op != Accepted
    ensures Accept(true) !in run && Accept(false) !in run
    decreases |run|
  {
    if run != [] {
      assert Next(k, w, run[0]).server.op != Accepted;
      hide Enabled, Next;
      AcceptStep(k, w, run[0], []);
      NoMoreAccepts(k, Next(k, w, run[0]), run[1..]);
      assert run == [run[0]] + run[1..];
    }
  }

  /** A server session that does not get to its first read is destroyed and never sends
      a byte, nor does one that has not got there yet. */
  lemma RefusedServerIsSilent(k: Config, w0: World, run: seq<Step>)
    requires Initial(k, w0) && Possible(k, w0, run)
    ensures var w := After(k, w0, run);
            && (Accept(false) in run ==> w.server.op == Destroyed && Silent(w, w0.server.buf))
            && (Accept(true) !in run ==> Silent(w, w0.server.buf))
  {
    AcceptTells(k, w0, run, w0.server.buf);
  }

  // ---------- The client's socket is closed ----------

  /** A closed socket stays closed, and moves no byte. */
  predicate NothingMoved(w: World, w': World) {
    && w'.client.closed && w'.received == w.received
    && |w'.up| <= |w.up| && w'.up == w.up[|w.up| - |w'.up|..]
  }

  lemma ClosedStep(k: Config, w: World, step: Step)
    requires Enabled(k, w, step)
    ensures step == Close || w.client.closed ==> NothingMoved(w, Next(k, w, step))
  {
  }

  lemma {:induction false} ClosedStays(k: Config, w: World, run: seq<Step>)
    requires Possible(k, w, run) && w.client.closed
    ensures NothingMoved(w, After(k, w, run))
    decreases |run|
  {
    hide Enabled, Next;
    if run != [] {
      ClosedStep(k, w, run[0]);
      ClosedStays(k, Next(k, w, run[0]), run[1..]);
    }
  }

  lemma {:induction false} CloseCloses(k: Config, w: World, run: seq<Step>)
    requires Possible(k, w, run) && Close in run
    ensures After(k, w, run).client.closed
    decreases |run|
  {
    hide Enabled, Next;
    assert run == [run[0]] + run[1..];
    ClosedStep(k, w, run[0]);
    if run[0] == Close {
      ClosedStays(k, Next(k, w, run[0]), run[1..]);
    } else {
      CloseCloses(k, Next(k, w, run[0]), run[1..]);
    }
  }

  /** After `close_socket` the client neither receives nor sends: the stream to the
      server only loses bytes at its front, to the server. */
  lemma NothingMovesAfterClose(k: Config, w0: World, before: seq<Step>, rest: seq<Step>)
    requires Initial(k, w0) && Possible(k, w0, before) && Close in before
    requires Possible(k, After(k, w0, before), rest)
    ensures NothingMoved(After(k, w0, before), After(k, After(k, w0, before), rest))
  {
    CloseCloses(k, w0, before);
    ClosedStays(k, After(k, w0, before), rest);
  }
}
