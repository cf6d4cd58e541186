/** What still happens once the client's socket has been closed, or an operation of the
    client or of the server has failed. */
module EchoShutdown {
  import opened Arithmetic
  import opened EchoSessions
  import opened EchoRing
  import opened EchoInvariant
  import opened EchoTheorems

  /** The connection was not made, or an operation has ended without success. */
  predicate Broken(c: Client) {
    || c.phase == NotConnected
    || c.read.ReadFailed? || (c.read.ReadReady? && !c.read.ok)
    || !WriteSound(c)
  }

  predicate Ending(c: Client) {
    c.closed || Broken(c)
  }

  /** Whether both operations have succeeded, or still can on a closed socket. */
  predicate CanRestart(c: Client) {
    && c.phase == Running && !Broken(c)
    && !c.read.Reading?
    && (c.write.Writing? ==> c.write.sent == c.write.len)
  }

  lemma EndingStep(k: Config, w: World, step: Step)
    requires Inv(k, w) && Enabled(k, w, step) && Ending(w.client)
    ensures var w' := Next(k, w, step);
            && Ending(w'.client)
            && w.started <= w'.started
            && (Broken(w.client) ==> Broken(w'.client) && w'.started == w.started)
            && (w'.started != w.started ==> w'.started == w.started + 2 && CanRestart(w.client))
            && (CanRestart(w'.client) ==> CanRestart(w.client) && w'.started == w.started)
  {
    hide Flow, Echoed, Totalled, InServer, Held, Unsent, ServerShape;
  }

  /** After the socket has been closed at most one more pair of operations begins, and
      none at all once an operation has failed; the counter of unwritten blocks stays
      within its bounds. */
  lemma {:induction false} FewOperationsRemain(k: Config, w: World, run: seq<Step>)
    requires Inv(k, w) && Possible(k, w, run) && Ending(w.client)
    ensures var w' := After(k, w, run);
            && Ending(w'.client)
            && w.started <= w'.started <= w.started + (if CanRestart(w.client) then 2 else 0)
            && (Broken(w.client) ==> w'.started == w.started)
            && 0 <= w'.client.unwrittenCount <= 2
    decreases |run|
  {
    hide Inv, Enabled, Next, Broken, CanRestart;
    if run != [] {
      EndingStep(k, w, run[0]);
      InvStep(k, w, run[0]);
      FewOperationsRemain(k, Next(k, w, run[0]), run[1..]);
    } else {
      UnwrittenCountIn(k, w);
    }
  }

  /** What a client that is ending still has to do: its transfers and completions. */
  function ClientSteps(c: Client): nat {
    (if c.phase == Connecting then 1 else 0) + (if c.closed then 0 else 1)
    + (match c.read case Reading => 2 case ReadReady(_, _) => 1 case _ => 0)
    + (match c.write
       case Writing(len, sent) => 2 + (if sent <= len then len - sent else 0)
       case WriteReady(_, _, _) => 1
       case _ => 0)
    + (if CanRestart(c) then 6 + |c.readData| else 0)
  }

  lemma HandlerRunsDown(k: Config, w: World, step: Step)
    requires Inv(k, w) && Enabled(k, w, step) && Ending(w.client)
    requires step.ClientHandlesRead? || step.ClientHandlesWrite?
    ensures ClientSteps(Next(k, w, step).client) < ClientSteps(w.client)
  {
    hide Flow, Echoed, Totalled, InServer, Held, Unsent, ServerShape, Pattern;
  }

  /** The client's own steps, as opposed to those of the server. */
  lemma ClientRunsDown(k: Config, w: World, step: Step)
    requires Inv(k, w) && Enabled(k, w, step) && Ending(w.client)
    ensures if ServerStep(step) then ClientSteps(Next(k, w, step).client) == ClientSteps(w.client)
            else ClientSteps(Next(k, w, step).client) < ClientSteps(w.client)
  {
    if step.ClientHandlesRead? || step.ClientHandlesWrite? {
      HandlerRunsDown(k, w, step);
    } else if ServerStep(step) {
      ServerLeavesClient(k, w, step);
    } else {
      hide Flow, Echoed, Totalled, InServer, Held, Unsent, ServerShape, HandleRead, HandleWrite, ServerStep, Pattern;
    }
  }

  lemma ServerLeavesClient(k: Config, w: World, step: Step)
    requires Enabled(k, w, step) && ServerStep(step)
    ensures Next(k, w, step).client == w.client
  {
  }

  function ClientStepsIn(run: seq<Step>): nat {
    if run == [] then 0 else (if ServerStep(run[0]) then 0 else 1) + ClientStepsIn(run[1..])
  }

  /** So the session comes to rest: only a bounded number of its steps remain. */
  lemma {:induction false} ClientComesToRest(k: Config, w: World, run: seq<Step>)
    requires Inv(k, w) && Possible(k, w, run) && Ending(w.client)
    ensures ClientStepsIn(run) <= ClientSteps(w.client)
    decreases |run|
  {
    hide Inv, Enabled, Next, ClientSteps, Ending, ServerStep;
    if run != [] {
      EndingStep(k, w, run[0]);
      ClientRunsDown(k, w, run[0]);
      InvStep(k, w, run[0]);
      ClientComesToRest(k, Next(k, w, run[0]), run[1..]);
    }
  }

  // ---------- The server has failed ----------

  /** An operation of the server has failed: its session is destroyed, or will be by the
      handler. */
  predicate ServerEnding(s: Server) {
    || s.op == Destroyed
    || s.op == ServerWriteReady(false)
    || (s.op.ServerReadReady? && !s.op.ok)
  }

  /** How many pairs of operations the client can still begin: one for each byte on its
      way back, one for a read that has not been written back, and the first. */
  function PairsLeft(k: Config, w: World): nat {
    if k.blockSize == 0 then (if w.client.phase == Connecting then 1 else 0)
    else |w.down| + (if w.client.read == ReadIdle || (w.client.read.ReadReady? && w.client.read.ok) then 1 else 0)
  }

  /** What is left to do until the next pair begins. */
  function Chores(w: World): nat {
    (if w.client.phase == Connecting then 1 else 0) + (if w.client.closed then 0 else 1)
    + (match w.client.read case Reading => 2 case ReadReady(_, _) => 1 case _ => 0)
    + (match w.client.write
       case Writing(len, sent) => 2 + (if sent <= len then len - sent else 0)
       case WriteReady(_, _, _) => 1
       case _ => 0)
    + (if w.server.op == Destroyed then 0 else 1)
  }

  /** Each pair of operations takes the client at most blockSize + 6 steps. */
  function StepsLeft(k: Config, w: World): nat {
    PairsLeft(k, w) * (k.blockSize + 6) + Chores(w)
  }

  /** What has begun and what is left to do after a step, in terms of those before. */
  predicate RunsDown(k: Config, w: World, w': World) {
    && PairsLeft(k, w') <= PairsLeft(k, w)
    && w'.started + 2 * PairsLeft(k, w') <= w.started + 2 * PairsLeft(k, w)
    && Chores(w') < Chores(w) + (if PairsLeft(k, w') < PairsLeft(k, w) then k.blockSize + 6 else 0)
  }

  lemma ConnectRunsDown(k: Config, w: World, ok: bool)
    requires Inv(k, w) && Enabled(k, w, Connect(ok))
    ensures RunsDown(k, w, Next(k, w, Connect(ok)))
  {
    hide Flow, Echoed, Totalled, InServer, Held, Unsent, ServerShape, Pattern;
  }

  lemma ServerEndingHandler(k: Config, w: World, step: Step)
    requires Inv(k, w) && Enabled(k, w, step) && (step.ClientHandlesRead? || step.ClientHandlesWrite?)
    ensures RunsDown(k, w, Next(k, w, step))
  {
    hide Flow, Echoed, Totalled, InServer, Held, Unsent, ServerShape, Pattern;
  }

  lemma EndingTransfer(k: Config, w: World, step: Step)
    requires Inv(k, w) && Enabled(k, w, step) && ServerEnding(w.server)
    requires !step.Connect? && !step.ClientHandlesRead? && !step.ClientHandlesWrite?
    ensures RunsDown(k, w, Next(k, w, step))
  {
    hide Counted, Flow, Echoed, Totalled, InServer, Held, Unsent, Pattern;
    hide HandleRead, HandleWrite, HandleConnect, Handled, Restart;
  }

  lemma ServerEndingStep(k: Config, w: World, step: Step)
    requires Inv(k, w) && Enabled(k, w, step) && ServerEnding(w.server)
    ensures ServerEnding(Next(k, w, step).server) && RunsDown(k, w, Next(k, w, step))
  {
    if step.ClientHandlesRead? || step.ClientHandlesWrite? {
      hide Inv, RunsDown;
      ServerEndingHandler(k, w, step);
    } else if step.Connect? {
      hide Inv, RunsDown;
      ConnectRunsDown(k, w, step.ok);
    } else {
      hide Inv, HandleRead, HandleWrite, HandleConnect, Handled, Restart, Deliverable;
      EndingTransfer(k, w, step);
    }
  }

  lemma ServerEndingRunsDown(k: Config, w: World, step: Step)
    requires Inv(k, w) && Enabled(k, w, step) && ServerEnding(w.server)
    ensures StepsLeft(k, Next(k, w, step)) < StepsLeft(k, w)
  {
    hide Inv, Enabled, Next, ServerEnding, PairsLeft, Chores;
    ServerEndingStep(k, w, step);
    var left, left' := PairsLeft(k, w), PairsLeft(k, Next(k, w, step));
    if left' < left {
      MultiplesApart(left', left, k.blockSize + 6);
    }
  }

  /** The client of a server that has failed still writes back what it gets, and then
      it waits: the whole ring comes to rest. */
  lemma {:induction false} RingComesToRest(k: Config, w: World, run: seq<Step>)
    requires Inv(k, w) && Possible(k, w, run) && ServerEnding(w.server)
    ensures var w' := After(k, w, run);
            && ServerEnding(w'.server)
            && w'.started <= w.started + 2 * PairsLeft(k, w)
            && |run| <= StepsLeft(k, w)
    decreases |run|
  {
    hide Inv, Enabled, Next, ServerEnding, PairsLeft, StepsLeft;
    if run != [] {
      ServerEndingStep(k, w, run[0]);
      ServerEndingRunsDown(k, w, run[0]);
      InvStep(k, w, run[0]);
      RingComesToRest(k, Next(k, w, run[0]), run[1..]);
    }
  }

  // ---------- What has to happen for that ----------

  predicate ClientFailure(step: Step) {
    step == Close || step == Connect(false) || step == ReceiveFails || step == SendEnd(false)
  }

  predicate ServerFailure(step: Step) {
    step == Accept(false) || step == ServerReceiveFails || step == ServerSendEnd(false)
  }

  lemma ClientFailureStep(k: Config, w: World, step: Step)
    requires Inv(k, w) && Enabled(k, w, step) && ClientFailure(step)
    ensures Ending(Next(k, w, step).client)
  {
    hide Flow, Echoed, Totalled, InServer, Held, Unsent, ServerShape, Pattern;
  }

  lemma EndsOnlyByFailure(k: Config, w: World, step: Step)
    requires Inv(k, w) && Enabled(k, w, step) && !ClientFailure(step) && 0 < k.blockSize && !Ending(w.client)
    ensures !Ending(Next(k, w, step).client)
  {
    hide Flow, Echoed, Totalled, InServer, Held, Unsent, ServerShape, Pattern;
  }

  lemma ServerFailureStep(k: Config, w: World, step: Step)
    requires Enabled(k, w, step)
    ensures ServerEnding(Next(k, w, step).server) <==> ServerEnding(w.server) || ServerFailure(step)
  {
  }

  lemma FailureStep(k: Config, w: World, step: Step)
    requires Inv(k, w) && Enabled(k, w, step)
    ensures var w' := Next(k, w, step);
            && (ClientFailure(step) || Ending(w.client) ==> Ending(w'.client))
            && (0 < k.blockSize && Ending(w'.client) ==> Ending(w.client) || ClientFailure(step))
            && (ServerEnding(w'.server) <==> ServerEnding(w.server) || ServerFailure(step))
  {
    ServerFailureStep(k, w, step);
    hide Inv, Enabled, Next, Ending, ServerEnding, ClientFailure, ServerFailure;
    if ClientFailure(step) {
      ClientFailureStep(k, w, step);
    } else if Ending(w.client) {
      EndingStep(k, w, step);
    } else if 0 < k.blockSize {
      EndsOnlyByFailure(k, w, step);
    }
  }

  lemma {:induction false} FailuresTell(k: Config, w: World, run: seq<Step>)
    requires Inv(k, w) && Possible(k, w, run)
    ensures var w' := After(k, w, run);
            && (Ending(w.client) || (exists step :: step in run && ClientFailure(step)) ==> Ending(w'.client))
            && (0 < k.blockSize && Ending(w'.client) ==>
                  Ending(w.client) || exists step :: step in run && ClientFailure(step))
            && (ServerEnding(w'.server) <==>
                  ServerEnding(w.server) || exists step :: step in run && ServerFailure(step))
    decreases |run|
  {
    hide Inv, Enabled, Next, Ending, ServerEnding, ClientFailure, ServerFailure;
    if run != [] {
      FailureStep(k, w, run[0]);
      InvStep(k, w, run[0]);
      FailuresTell(k, Next(k, w, run[0]), run[1..]);
      assert run == [run[0]] + run[1..];
      assert forall step :: step in run <==> step == run[0] || step in run[1..];
    }
  }

  /** The client is ending exactly if its socket was closed, the connection refused or
      one of its operations failed; for a block of no bytes the end of its first write
      has the same effect. The server is ending exactly if something of its own failed. */
  lemma EndingIffFailed(k: Config, w0: World, run: seq<Step>)
    requires Initial(k, w0) && Possible(k, w0, run)
    ensures var w := After(k, w0, run);
            && ((exists step :: step in run && ClientFailure(step)) ==> Ending(w.client))
            && (0 < k.blockSize && Ending(w.client) ==> exists step :: step in run && ClientFailure(step))
            && (ServerEnding(w.server) <==> exists step :: step in run && ServerFailure(step))
  {
    InvInitially(k, w0);
    FailuresTell(k, w0, run);
  }

  // ---------- Whole runs ----------

  /** From the moment a run closes the socket, or an operation of the client or of the
      server fails, only so many operations begin and only so many steps remain. */
  lemma RunsEndSoon(k: Config, w0: World, before: seq<Step>, rest: seq<Step>)
    requires Initial(k, w0) && Possible(k, w0, before) && Possible(k, After(k, w0, before), rest)
    ensures var w := After(k, w0, before);
            && (Ending(w.client) ==>
                  && After(k, w, rest).started <= w.started + (if Broken(w.client) then 0 else 2)
                  && ClientStepsIn(rest) <= 2 * k.blockSize + 12)
            && (ServerEnding(w.server) ==>
                  && After(k, w, rest).started <= w.started + 2 * (|w.down| + 1)
                  && |rest| <= (|w.down| + 2) * (k.blockSize + 6))
  {
    hide Inv, Initial, Possible, After, Ending, ClientSteps, ServerEnding, PairsLeft, StepsLeft;
    var w := After(k, w0, before);
    InvAlways(k, w0, before);
    if Ending(w.client) {
      FewOperationsRemain(k, w, rest);
      ClientComesToRest(k, w, rest);
      ClientStepsBound(k, w);
    }
    if ServerEnding(w.server) {
      RingComesToRest(k, w, rest);
      StepsLeftBound(k, w);
    }
  }

  lemma ClientStepsBound(k: Config, w: World)
    requires Inv(k, w)
    ensures ClientSteps(w.client) <= 2 * k.blockSize + 12
  {
    hide Flow, Echoed, Totalled, Counted, ServerShape;
  }

  lemma StepsLeftBound(k: Config, w: World)
    requires Inv(k, w)
    ensures PairsLeft(k, w) <= |w.down| + 1
    ensures StepsLeft(k, w) <= (|w.down| + 2) * (k.blockSize + 6)
  {
    ChoresBound(k, w);
    hide Inv, PairsLeft, Chores;
    var pairs, most, m := PairsLeft(k, w), |w.down| + 1, k.blockSize + 6;
    if pairs < most {
      MultiplesApart(pairs, most, m);
    }
    MultiplesApart(most, most + 1, m);
  }

  lemma ChoresBound(k: Config, w: World)
    requires Inv(k, w)
    ensures PairsLeft(k, w) <= |w.down| + 1 && Chores(w) <= k.blockSize + 6
  {
    hide Flow, Echoed, Totalled, ServerShape;
  }
}
