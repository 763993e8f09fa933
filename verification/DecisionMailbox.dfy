/** The one-producer, one-worker decision mailbox as an interleaved protocol: every step is one
    atomic load, store or compare-exchange of the phase, or one access to a shared buffer, and the
    two sides interleave in any way. Time is whatever the environment says it is. */
module DecisionMailbox {

  type Packet = seq<nat>

  datatype Phase = Idle | Request | Processing | Reply | Abandoned

  /** Where the compositor thread is inside `decide`. `Waiting` and `Giving` remember the phase last
      loaded; `Giving` is about to try to abandon the slot. */
  datatype Producer =
    | Away
    | WritingRequest
    | WritingDeadline
    | Publishing
    | Loading
    | Waiting(seen: Phase)
    | Giving(seen: Phase)
    | Judging
    | Copying
    | Clearing(timely: bool, decision: Packet)

  /** Where the socket worker is between `take` and `complete`. `call` is the number of the decide
      call whose request it read. */
  datatype Worker =
    | Free
    | Acknowledging
    | ReadingRequest
    | ReadingDeadline(event: Packet, call: int)
    | Serving(event: Packet, deadline: nat, call: int)
    | WritingReply(event: Packet, deadline: nat, call: int, decision: Packet)
    | Completing
    | Discarding

  datatype Call = Call(event: Packet, deadline: nat)

  /** A reply the worker made, and the request it made it for. */
  datatype Job = Job(event: Packet, deadline: nat, call: int, decision: Packet)

  /** What one call of `decide` returned. */
  datatype Result = Result(call: int, returned: bool, decision: Packet)

  datatype Mailbox = Mailbox(
    phase: Phase, request: Packet, deadline: nat, reply: Packet,
    producer: Producer, worker: Worker,
    calls: seq<Call>, written: int, jobs: seq<Job>, results: seq<Result>)
  {
    /** The call in progress, or the last one. */
    function Current(): int { |calls| - 1 }
  }

  function Empty(): Mailbox {
    Mailbox(Idle, [], 0, [], Away, Free, [], -1, [], [])
  }

  datatype Move =
    | Decide(event: Packet, deadlineNs: nat)       // a decide call whose clock check passed
    | ProducerStep(expired: bool, timely: bool)    // what the clock, or a failing sleep, says at this step
    | Take
    | WorkerStep(decision: Packet)

  function Step(m: Mailbox, move: Move): Mailbox {
    match move
    case Decide(event, deadline) =>
      if m.producer == Away && m.phase == Idle
      then m.(producer := WritingRequest, calls := m.calls + [Call(event, deadline)])
      else m
    case ProducerStep(expired, timely) => ProducerMoves(m, expired, timely)
    case Take =>
      if m.worker != Free then m
      else if m.phase == Request then m.(phase := Processing, worker := ReadingRequest)
      else if m.phase == Abandoned then m.(worker := Acknowledging)
      else m
    case WorkerStep(decision) => WorkerMoves(m, decision)
  }

  function ProducerMoves(m: Mailbox, expired: bool, timely: bool): Mailbox {
    match m.producer
    case Away => m
    case WritingRequest =>
      if m.calls == [] then m
      else m.(request := m.calls[m.Current()].event, written := m.Current(), producer := WritingDeadline)
    case WritingDeadline =>
      if m.calls == [] then m
      else m.(deadline := m.calls[m.Current()].deadline, producer := Publishing)
    case Publishing => m.(phase := Request, producer := Loading)
    case Loading => m.(producer := if m.phase == Reply then Judging else Waiting(m.phase))
    case Waiting(seen) => m.(producer := if expired then Giving(seen) else Loading)
    case Giving(seen) =>
      if m.phase == seen
      then m.(phase := Abandoned, producer := Away, results := m.results + [Result(m.Current(), false, [])])
      else m.(producer := Loading)
    case Judging => m.(producer := if timely then Copying else Clearing(false, []))
    case Copying => m.(producer := Clearing(true, m.reply))
    case Clearing(returned, decision) =>
      m.(phase := Idle, producer := Away, results := m.results + [Result(m.Current(), returned, decision)])
  }

  function WorkerMoves(m: Mailbox, decision: Packet): Mailbox {
    match m.worker
    case Free => m
    case Acknowledging => m.(phase := Idle, worker := Free)
    case ReadingRequest => m.(worker := ReadingDeadline(m.request, m.written))
    case ReadingDeadline(event, call) => m.(worker := Serving(event, m.deadline, call))
    case Serving(event, deadline, call) => m.(worker := WritingReply(event, deadline, call, decision))
    case WritingReply(event, deadline, call, made) =>
      m.(reply := made, worker := Completing, jobs := m.jobs + [Job(event, deadline, call, made)])
    case Completing =>
      if m.phase == Processing then m.(phase := Reply, worker := Free) else m.(worker := Discarding)
    case Discarding => m.(phase := Idle, worker := Free)
  }

  function Run(moves: seq<Move>): Mailbox {
    if moves == [] then Empty() else Step(Run(moves[..|moves| - 1]), moves[|moves| - 1])
  }

  // ---- control: which sides may be where in each phase ------------------------------

  predicate InCall(p: Producer) {
    p.Loading? || (p.Waiting? && (p.seen == Request || p.seen == Processing))
    || (p.Giving? && (p.seen == Request || p.seen == Processing))
  }

  predicate InJob(w: Worker) {
    w.ReadingRequest? || w.ReadingDeadline? || w.Serving? || w.WritingReply? || w.Completing?
  }

  /** One line per phase. */
  predicate Control(m: Mailbox) {
    match m.phase
    case Idle =>
      m.worker.Free?
      && (m.producer.Away? || m.producer.WritingRequest? || m.producer.WritingDeadline? || m.producer.Publishing?)
    case Request => m.worker.Free? && InCall(m.producer)
    case Processing => InJob(m.worker) && InCall(m.producer)
    case Reply =>
      m.worker.Free?
      && (InCall(m.producer) || m.producer.Judging? || m.producer.Copying? || m.producer.Clearing?)
    case Abandoned =>
      m.producer.Away?
      && (m.worker.Free? || m.worker.Acknowledging? || InJob(m.worker) || m.worker.Discarding?)
  }

  lemma ControlStep(m: Mailbox, move: Move)
    requires Control(m)
    ensures Control(Step(m, move))
  {
  }

  // ---- data: what the buffers hold ---------------------------------------------------

  predicate RequestIs(m: Mailbox, call: int) {
    0 <= call < |m.calls| && m.written == call && m.request == m.calls[call].event
  }

  predicate DeadlineIs(m: Mailbox, call: int) {
    0 <= call < |m.calls| && m.deadline == m.calls[call].deadline
  }

  /** The job answers the call it is numbered with: same event, same deadline. */
  predicate Answers(calls: seq<Call>, j: Job) {
    0 <= j.call < |calls| && j.event == calls[j.call].event && j.deadline == calls[j.call].deadline
  }

  predicate LastJobIs(m: Mailbox, call: int) {
    m.jobs != [] && m.jobs[|m.jobs| - 1].call == call && m.reply == m.jobs[|m.jobs| - 1].decision
  }

  /** Before a reply is written, no job has answered the call in progress. */
  predicate Unserved(m: Mailbox) {
    m.producer.WritingRequest? || m.producer.WritingDeadline? || m.producer.Publishing? || m.phase == Request
    || m.worker.ReadingRequest? || m.worker.ReadingDeadline? || m.worker.Serving? || m.worker.WritingReply?
  }

  predicate Buffers(m: Mailbox) {
    && (!m.producer.Away? ==> m.calls != [])
    && (m.producer.WritingDeadline? ==> RequestIs(m, m.Current()))
    && (m.producer.Publishing? || m.phase != Idle ==> RequestIs(m, m.Current()) && DeadlineIs(m, m.Current()))
    && (m.worker.ReadingDeadline? ==> m.worker.call == m.Current() && m.worker.event == m.request)
    && (m.worker.Serving? || m.worker.WritingReply? ==>
          m.worker.call == m.Current() && m.worker.event == m.request && m.worker.deadline == m.deadline)
    && (m.worker.Completing? || m.phase == Reply ==> LastJobIs(m, m.Current()))
    && (m.producer.Clearing? && m.producer.timely ==>
          m.jobs != [] && m.producer.decision == m.jobs[|m.jobs| - 1].decision)
  }

  ghost predicate Jobs(m: Mailbox) {
    && (forall i :: 0 <= i < |m.jobs| ==> Answers(m.calls, m.jobs[i]))
    && (forall i, j :: 0 <= i < j < |m.jobs| ==> m.jobs[i].call < m.jobs[j].call)
    && (Unserved(m) ==> forall i :: 0 <= i < |m.jobs| ==> m.jobs[i].call < m.Current())
  }

  /** A call returned true only with a decision some job made for that same call. */
  ghost predicate Justified(jobs: seq<Job>, r: Result) {
    r.returned ==> exists i :: 0 <= i < |jobs| && jobs[i].call == r.call && jobs[i].decision == r.decision
  }

  ghost predicate Results(m: Mailbox) {
    && (forall i :: 0 <= i < |m.results| ==> Justified(m.jobs, m.results[i]) && m.results[i].call <= m.Current())
    && (forall i, j :: 0 <= i < j < |m.results| ==> m.results[i].call < m.results[j].call)
    && (!m.producer.Away? ==> forall i :: 0 <= i < |m.results| ==> m.results[i].call < m.Current())
  }

  ghost predicate Safe(m: Mailbox) {
    Control(m) && Buffers(m) && Jobs(m) && Results(m)
  }

  lemma BuffersStep(m: Mailbox, move: Move)
    requires Control(m) && Buffers(m)
    ensures Buffers(Step(m, move))
  {
    match move {
      case Decide(_, _) => DecideBuffers(m, move);
      case ProducerStep(_, _) => ProducerBuffers(m, move);
      case Take => TakeBuffers(m, move);
      case WorkerStep(_) => WorkerBuffers(m, move);
    }
  }

  lemma DecideBuffers(m: Mailbox, move: Move)
    requires Control(m) && Buffers(m) && move.Decide?
    ensures Buffers(Step(m, move))
  {
  }

  lemma ProducerBuffers(m: Mailbox, move: Move)
    requires Control(m) && Buffers(m) && move.ProducerStep?
    ensures Buffers(Step(m, move))
  {
  }

  lemma TakeBuffers(m: Mailbox, move: Move)
    requires Control(m) && Buffers(m) && move.Take?
    ensures Buffers(Step(m, move))
  {
  }

  lemma WorkerBuffers(m: Mailbox, move: Move)
    requires Control(m) && Buffers(m) && move.WorkerStep?
    ensures Buffers(Step(m, move))
  {
  }

  lemma JobsStep(m: Mailbox, move: Move)
    requires Control(m) && Buffers(m) && Jobs(m)
    ensures Jobs(Step(m, move))
  {
    hide Step, Jobs, Buffers, Control;
    if move.WorkerStep? && m.worker.WritingReply? {
      JobWritten(m, move);
    } else if move.Decide? {
      JobsCalled(m, move);
    } else {
      QuietStep(m, move);
      JobsKept(m, Step(m, move));
    }
  }

  lemma QuietStep(m: Mailbox, move: Move)
    requires Control(m) && !move.Decide? && !(move.WorkerStep? && m.worker.WritingReply?)
    ensures var n := Step(m, move); n.jobs == m.jobs && n.calls == m.calls && (Unserved(n) ==> Unserved(m))
  {
  }

  lemma JobsKept(m: Mailbox, n: Mailbox)
    requires Jobs(m) && n.jobs == m.jobs && n.calls == m.calls && (Unserved(n) ==> Unserved(m))
    ensures Jobs(n)
  {
    hide Unserved, Answers;
  }

  lemma JobsCalled(m: Mailbox, move: Move)
    requires Jobs(m) && move.Decide?
    ensures Jobs(Step(m, move))
  {
    forall i | 0 <= i < |m.jobs| ensures Answers(Step(m, move).calls, m.jobs[i]) {
      assert Answers(m.calls, m.jobs[i]);
    }
    hide Unserved;
  }

  lemma JobWritten(m: Mailbox, move: Move)
    requires Control(m) && Buffers(m) && Jobs(m) && move.WorkerStep? && m.worker.WritingReply?
    ensures Jobs(Step(m, move))
  {
    var n := Step(m, move);
    assert Answers(n.calls, n.jobs[|m.jobs|]);
    assert !Unserved(n);
  }

  lemma JustifiedLater(jobs: seq<Job>, j: Job, r: Result)
    requires Justified(jobs, r)
    ensures Justified(jobs + [j], r)
  {
    if r.returned {
      var i :| 0 <= i < |jobs| && jobs[i].call == r.call && jobs[i].decision == r.decision;
      assert (jobs + [j])[i] == jobs[i];
    }
  }

  lemma ResultsStep(m: Mailbox, move: Move)
    requires Safe(m)
    ensures Results(Step(m, move))
  {
    hide Justified;
    var n := Step(m, move);
    if move.WorkerStep? && m.worker.WritingReply? {
      forall i | 0 <= i < |n.results| ensures Justified(n.jobs, n.results[i]) {
        JustifiedLater(m.jobs, n.jobs[|m.jobs|], m.results[i]);
      }
    } else if n.results != m.results {
      ResultAppended(m, move);
    } else {
      assert n.jobs == m.jobs;
      assert !n.producer.Away? ==> !m.producer.Away? || n.Current() > m.Current();
    }
  }

  lemma ResultAppended(m: Mailbox, move: Move)
    requires Safe(m) && Step(m, move).results != m.results
    ensures Results(Step(m, move))
  {
    hide Step, Control, Buffers;
    AppendedShape(m, move);
    hide Justified;
  }

  lemma AppendedShape(m: Mailbox, move: Move)
    requires Control(m) && Buffers(m) && Step(m, move).results != m.results
    ensures var n := Step(m, move);
            && |n.results| == |m.results| + 1 && n.results[..|m.results|] == m.results
            && n.jobs == m.jobs && n.calls == m.calls && n.producer.Away? && !m.producer.Away?
            && n.results[|m.results|].call == m.Current() && Justified(n.jobs, n.results[|m.results|])
  {
    var r := Step(m, move).results[|m.results|];
    if r.returned { assert m.jobs[|m.jobs| - 1].call == r.call; }
  }

  lemma {:induction false} AlwaysSafe(moves: seq<Move>)
    ensures Safe(Run(moves))
  {
    if moves != [] {
      var m := Run(moves[..|moves| - 1]);
      var move := moves[|moves| - 1];
      AlwaysSafe(moves[..|moves| - 1]);
      ControlStep(m, move);
      BuffersStep(m, move);
      JobsStep(m, move);
      ResultsStep(m, move);
    }
  }

  // ---- what it means -----------------------------------------------------------------

  /** Whatever the interleaving, a call of `decide` that returned true returned the reply the worker
      made after reading that very call's event and deadline, and each call is answered by at most
      one job. */
  lemma DecisionsMatchTheirCalls(moves: seq<Move>, i: nat)
    requires i < |Run(moves).results| && Run(moves).results[i].returned
    ensures var m := Run(moves);
            var r := m.results[i];
            && 0 <= r.call < |m.calls|
            && (exists j :: 0 <= j < |m.jobs| && m.jobs[j].call == r.call && m.jobs[j].event == m.calls[r.call].event
                            && m.jobs[j].deadline == m.calls[r.call].deadline && m.jobs[j].decision == r.decision)
            && (forall j, l :: 0 <= j < l < |m.jobs| ==> m.jobs[j].call != m.jobs[l].call)
  {
    AlwaysSafe(moves);
    var m := Run(moves);
    assert Justified(m.jobs, m.results[i]);
    var j :| 0 <= j < |m.jobs| && m.jobs[j].call == m.results[i].call && m.jobs[j].decision == m.results[i].decision;
    assert Answers(m.calls, m.jobs[j]);
  }

  /** Neither side ever touches a buffer the other may be using, so no copy is ever torn. */
  lemma BuffersAreExclusive(moves: seq<Move>)
    ensures var m := Run(moves);
            && !((m.producer.WritingRequest? || m.producer.WritingDeadline?)
               && (m.worker.ReadingRequest? || m.worker.ReadingDeadline?))
            && !(m.producer.Copying? && m.worker.WritingReply?)
  {
    AlwaysSafe(moves);
  }

  /** An idle phase means the worker is not between `take` and `complete`. */
  lemma IdleMeansNoJob(moves: seq<Move>)
    ensures Run(moves).phase == Idle ==> Run(moves).worker.Free?
  {
    AlwaysSafe(moves);
  }

  /** The worker stores the acknowledgement of an abandoned slot. */
  predicate Acknowledges(m: Mailbox, move: Move) {
    move.WorkerStep? && (m.worker.Acknowledging? || m.worker.Discarding?)
  }

  lemma AbandonedStep(m: Mailbox, move: Move)
    requires Control(m) && m.phase == Abandoned && !Acknowledges(m, move)
    ensures Step(m, move).phase == Abandoned && Step(m, move).calls == m.calls
  {
  }

  /** An abandoned slot is not reused, whatever the producer attempts, until the worker has
      acknowledged it. */
  lemma {:induction false} AbandonedUntilAcknowledged(before: seq<Move>, after: seq<Move>)
    requires Run(before).phase == Abandoned
    requires forall i :: 0 <= i < |after| ==> !Acknowledges(Run(before + after[..i]), after[i])
    ensures Run(before + after).phase == Abandoned
    ensures |Run(before + after).calls| == |Run(before).calls|
    decreases |after|
  {
    hide Step, Acknowledges, Control;
    if after == [] {
      assert before + after == before;
    } else {
      var front := after[..|after| - 1];
      var last := after[|after| - 1];
      forall i | 0 <= i < |front| ensures !Acknowledges(Run(before + front[..i]), front[i]) {
        assert front[..i] == after[..i];
      }
      AbandonedUntilAcknowledged(before, front);
      AlwaysSafe(before + front);
      assert (before + after)[..|before + after| - 1] == before + front;
      AbandonedStep(Run(before + front), last);
    }
  }

  // ---- a reply in time is returned -----------------------------------------------------

  lemma RunExtend(moves: seq<Move>, move: Move)
    ensures Run(moves + [move]) == Step(Run(moves), move)
  {
    assert (moves + [move])[..|moves|] == moves;
  }

  /** The moves are none of the calling thread's. */
  predicate Aside(moves: seq<Move>) {
    forall i :: 0 <= i < |moves| ==> !moves[i].ProducerStep?
  }

  /** A published reply stays as it is until its caller moves. */
  lemma {:induction false} ReplyWaits(before: seq<Move>, aside: seq<Move>)
    requires Run(before).phase == Reply && Aside(aside)
    ensures Run(before + aside) == Run(before)
    decreases |aside|
  {
    if aside == [] {
      assert before + aside == before;
    } else {
      var front, last := aside[..|aside| - 1], aside[|aside| - 1];
      ReplyWaits(before, front);
      AlwaysSafe(before);
      RunExtend(before + front, last);
      assert before + front + [last] == before + aside;
    }
  }

  /** The caller finds the reply and is judged, with anything from the other side in between. */
  lemma ReplyIsJudged(before: seq<Move>, load: Move, aside: seq<Move>, judge: Move)
    requires Run(before).producer.Loading? && Run(before).phase == Reply
    requires load.ProducerStep? && judge.ProducerStep? && Aside(aside)
    ensures Run(before + [load] + aside + [judge]) ==
           Run(before).(producer := if judge.timely then Copying else Clearing(false, []))
  {
    hide Run;
    RunExtend(before, load);
    ReplyWaits(before + [load], aside);
    RunExtend(before + [load] + aside, judge);
  }

  lemma CallCleared(before: seq<Move>, aside: seq<Move>, clear: Move)
    requires Run(before).producer.Clearing? && Run(before).phase == Reply && Aside(aside) && clear.ProducerStep?
    ensures var m := Run(before);
            Run(before + aside + [clear]) ==
            m.(phase := Idle, producer := Away,
                results := m.results + [Result(m.Current(), m.producer.timely, m.producer.decision)])
  {
    hide Run;
    ReplyWaits(before, aside);
    RunExtend(before + aside, clear);
  }

  /** A call that loads a reply and is in time returns true with the decision made for it, whatever the worker
      does meanwhile; one that is late returns false. Either way the slot is free again. */
  lemma TimelyReplyIsReturned(before: seq<Move>, load: Move, a: seq<Move>, judge: Move, b: seq<Move>, copy: Move,
                              c: seq<Move>, clear: Move)
    requires Run(before).producer.Loading? && Run(before).phase == Reply
    requires load.ProducerStep? && judge.ProducerStep? && copy.ProducerStep? && clear.ProducerStep?
    requires Aside(a) && Aside(b) && Aside(c)
    ensures var m := Run(before);
            && m.jobs != [] && Answers(m.calls, m.jobs[|m.jobs| - 1]) && m.jobs[|m.jobs| - 1].call == m.Current()
            && (judge.timely ==>
                  Run(before + [load] + a + [judge] + b + [copy] + c + [clear]) ==
                  m.(phase := Idle, producer := Away,
                      results := m.results + [Result(m.Current(), true, m.jobs[|m.jobs| - 1].decision)]))
            && (!judge.timely ==>
                  Run(before + [load] + a + [judge] + b + [clear]) ==
                  m.(phase := Idle, producer := Away, results := m.results + [Result(m.Current(), false, [])]))
  {
    hide Run;
    AlwaysSafe(before);
    ReplyIsJudged(before, load, a, judge);
    var judged := before + [load] + a + [judge];
    if judge.timely {
      ReplyWaits(judged, b);
      RunExtend(judged + b, copy);
      CallCleared(judged + b + [copy], c, clear);
    } else {
      CallCleared(judged, b, clear);
    }
  }

  // ---- why a call returned what it did -------------------------------------------------

  /** At move `n` the call in progress abandoned its slot or was judged late. */
  ghost predicate GaveUp(moves: seq<Move>, n: int, call: int) {
    && 0 <= n < |moves| && moves[n].ProducerStep? && Run(moves[..n]).Current() == call
    && var m := Run(moves[..n]);
       (m.producer.Giving? && m.phase == m.producer.seen) || (m.producer.Judging? && !moves[n].timely)
  }

  /** At move `n` the call in progress had a reply and was judged in time. */
  ghost predicate WasTimely(moves: seq<Move>, n: int, call: int) {
    && 0 <= n < |moves| && moves[n].ProducerStep? && moves[n].timely && Run(moves[..n]).Current() == call
    && Run(moves[..n]).producer.Judging? && Run(moves[..n]).phase == Reply
  }

  ghost predicate Explained(moves: seq<Move>, call: int, returned: bool) {
    if returned then exists n :: WasTimely(moves, n, call) else exists n :: GaveUp(moves, n, call)
  }

  lemma ExplainedLater(moves: seq<Move>, move: Move, call: int, returned: bool)
    requires Explained(moves, call, returned)
    ensures Explained(moves + [move], call, returned)
  {
    hide Run;
    var more := moves + [move];
    if returned {
      var n :| WasTimely(moves, n, call);
      assert more[..n] == moves[..n];
      assert WasTimely(more, n, call);
    } else {
      var n :| GaveUp(moves, n, call);
      assert more[..n] == moves[..n];
      assert GaveUp(more, n, call);
    }
  }

  /** What the calling thread is about to return is explained as well. */
  ghost predicate AllExplained(moves: seq<Move>) {
    var m := Run(moves);
    && (forall i :: 0 <= i < |m.results| ==> Explained(moves, m.results[i].call, m.results[i].returned))
    && (m.producer.Copying? ==> Explained(moves, m.Current(), true))
    && (m.producer.Clearing? ==> Explained(moves, m.Current(), m.producer.timely))
  }

  lemma ExplainedStep(moves: seq<Move>, move: Move)
    requires AllExplained(moves)
    ensures AllExplained(moves + [move])
  {
    hide Run, Explained, Control, Buffers, Jobs, Results;
    var m, more := Run(moves), moves + [move];
    AlwaysSafe(moves);
    RunExtend(moves, move);
    forall i | 0 <= i < |m.results| ensures Explained(more, m.results[i].call, m.results[i].returned) {
      ExplainedLater(moves, move, m.results[i].call, m.results[i].returned);
    }
    if m.producer.Copying? { ExplainedLater(moves, move, m.Current(), true); }
    if m.producer.Clearing? { ExplainedLater(moves, move, m.Current(), m.producer.timely); }
    if move.ProducerStep? { ExplainedNow(moves, move); }
  }

  lemma ExplainedNow(moves: seq<Move>, move: Move)
    requires move.ProducerStep? && Control(Run(moves))
    ensures var m := Run(moves);
            && (m.producer.Giving? && m.phase == m.producer.seen ==> Explained(moves + [move], m.Current(), false))
            && (m.producer.Judging? ==> Explained(moves + [move], m.Current(), move.timely))
  {
    hide Run;
    var m, more := Run(moves), moves + [move];
    assert more[..|moves|] == moves;
    if m.producer.Giving? && m.phase == m.producer.seen { assert GaveUp(more, |moves|, m.Current()); }
    if m.producer.Judging? {
      if move.timely { assert WasTimely(more, |moves|, m.Current()); }
      else { assert GaveUp(more, |moves|, m.Current()); }
    }
  }

  /** Over every interleaving a call returned false only because it abandoned its slot or its clock said late when
      it had the reply, and true only because it had a reply in time. */
  lemma {:induction false} EveryResultExplained(moves: seq<Move>)
    ensures AllExplained(moves)
    decreases |moves|
  {
    if moves != [] {
      var front, last := moves[..|moves| - 1], moves[|moves| - 1];
      EveryResultExplained(front);
      ExplainedStep(front, last);
      assert front + [last] == moves;
    }
  }

  // ---- a whole exchange ---------------------------------------------------------------

  /** From a free slot: the call is published, taken and served with `decision`. */
  lemma RequestIsServed(before: seq<Move>, event: Packet, deadline: nat, p: Move, w: Move, decision: Packet)
    requires Run(before).phase == Idle && Run(before).producer.Away? && p.ProducerStep? && w.WorkerStep?
    ensures var m := Run(before);
            var call := |m.calls|;
            Run(before + [Decide(event, deadline), p, p, p, Take, w, w, WorkerStep(decision), w, w]) ==
            m.(phase := Reply, request := event, deadline := deadline, reply := decision, producer := Loading,
                calls := m.calls + [Call(event, deadline)], written := call,
                jobs := m.jobs + [Job(event, deadline, call, decision)])
  {
    hide Run;
    AlwaysSafe(before);
    var served := WorkerStep(decision);
    RequestIsPublished(before, event, deadline, p);
    var b4 := before + [Decide(event, deadline), p, p, p];
    RunExtend(b4, Take);
    RunExtend(b4 + [Take], w);
    RunExtend(b4 + [Take] + [w], w);
    RunExtend(b4 + [Take] + [w] + [w], served);
    RunExtend(b4 + [Take] + [w] + [w] + [served], w);
    RunExtend(b4 + [Take] + [w] + [w] + [served] + [w], w);
    assert b4 + [Take] + [w] + [w] + [served] + [w] + [w]
        == before + [Decide(event, deadline), p, p, p, Take, w, w, served, w, w];
  }

  lemma RequestIsPublished(before: seq<Move>, event: Packet, deadline: nat, p: Move)
    requires Run(before).phase == Idle && Run(before).producer.Away? && p.ProducerStep?
    ensures var m := Run(before);
            Run(before + [Decide(event, deadline), p, p, p]) ==
            m.(phase := Request, request := event, deadline := deadline, producer := Loading,
                calls := m.calls + [Call(event, deadline)], written := |m.calls|)
  {
    hide Run;
    var decide := Decide(event, deadline);
    RunExtend(before, decide);
    RunExtend(before + [decide], p);
    RunExtend(before + [decide] + [p], p);
    RunExtend(before + [decide] + [p] + [p], p);
    assert before + [decide] + [p] + [p] + [p] == before + [decide, p, p, p];
  }

  /** Published, taken, served and found in time: the call returns true with what the worker decided. */
  lemma ExchangeReturnsDecision(before: seq<Move>, event: Packet, deadline: nat, p: Move, w: Move, decision: Packet)
    requires Run(before).phase == Idle && Run(before).producer.Away? && w.WorkerStep?
    requires p.ProducerStep? && p.timely
    ensures var served := before + [Decide(event, deadline), p, p, p, Take, w, w, WorkerStep(decision), w, w];
            var m := Run(served + [p] + [] + [p] + [] + [p] + [] + [p]);
            && m.phase == Idle && m.producer.Away? && m.calls == Run(before).calls + [Call(event, deadline)]
            && m.results == Run(before).results + [Result(|Run(before).calls|, true, decision)]
  {
    hide Run;
    RequestIsServed(before, event, deadline, p, w, decision);
    TimelyReplyIsReturned(before + [Decide(event, deadline), p, p, p, Take, w, w, WorkerStep(decision), w, w],
        p, [], p, [], p, [], p);
  }

  /** An abandoned slot is freed by the worker's acknowledgement, whether it had taken the request or not. */
  lemma AbandonedSlotIsFreed(before: seq<Move>, w: Move)
    requires Run(before).phase == Abandoned && w.WorkerStep?
    ensures Run(before).worker.Free? ==> Run(before + [Take] + [w]) == Run(before).(phase := Idle)
    ensures Run(before).worker.Completing? ==> Run(before + [w] + [w]) == Run(before).(phase := Idle, worker := Free)
  {
    hide Run;
    AlwaysSafe(before);
    RunExtend(before, Take);
    RunExtend(before + [Take], w);
    RunExtend(before, w);
    RunExtend(before + [w], w);
  }

  /** A caller out of time gives up the slot it still finds as it saw it, and returns false; if the worker moved
      first it looks again. */
  lemma ExpiredCallGivesUp(before: seq<Move>, expire: Move, give: Move)
    requires Run(before).producer.Waiting? && expire.ProducerStep? && expire.expired && give.ProducerStep?
    ensures var m := Run(before);
            Run(before + [expire] + [give]) ==
            if m.phase == m.producer.seen
            then m.(phase := Abandoned, producer := Away, results := m.results + [Result(m.Current(), false, [])])
            else m.(producer := Loading)
  {
    hide Run;
    RunExtend(before, expire);
    RunExtend(before + [expire], give);
  }
}
