/**
 The driver from submission to report: an engine's fences, the batches and single commands they stand
 for, and the request queue that carries the commands.  A fence is submitted, its commands are
 requests, their responses drop references, and whoever drops the last one makes the completion call
 that the engine expects exactly once.
 */
module Pipeline {
  import opened Collections
  import opened RingIndices
  import B = Batches
  import E = EngineFences
  import Q = VirtqueueSpec
  import R = RequestRuns
  import S = RequestSlots

  /** What a request was submitted for: a command of the batch with that fence. */
  datatype Job = Job(fence: nat, command: nat)

  datatype State = State(
    engine: E.Engine,
    requests: R.State,
    batches: seq<B.State>,  // batches[f - 1] is what fence f stands for
    jobs: seq<Job>)         // what each callback is for

  datatype Step =
    | Batch(commands: nat, allocations: nat)                 // submit a fence for a batch
    | Single(allocations: nat, input: Q.Slice, output: Q.Slice)  // submit a fence for one command, and send it
    | Send(fence: nat, input: Q.Slice, output: Q.Slice)          // send the next command of a batch
    | Inside(fence: nat, inner: B.Step)                      // drop a reference, mark an allocation free
    | Report(fence: nat, p: nat, t: nat)                     // the completion call, on thread t
    | Queue(step: R.Step)                                    // start a request, or a step of the device
    | Respond(j: nat)                                        // handle the response to chain j
    | Engine(t: nat, act: E.Action)                          // any other step of thread t

  function Init(threads: nat, size: nat, indirect: bool, eventIdx: bool): State {
    State(E.Init(threads), R.Init(size, indirect, eventIdx), [], [])
  }

  predicate HasFence(s: State, f: nat) {
    1 <= f <= |s.batches|
  }

  /** The request that sends a command; its callback leads to the job. */
  function RequestFor(s: State, input: Q.Slice, output: Q.Slice): S.Request {
    S.Request(input, output, |s.jobs|)
  }

  /** The request found in the slot the returned token of chain `j` leads to. */
  function Found(r: R.State, j: nat): Option<S.Request> {
    var chains := r.core.q.chains;
    if j < |chains| && |chains[j].ids| > 0 then R.Lookup(r.slots.d, chains[j].ids[0]) else None
  }

  predicate HasJob(s: State, j: nat) {
    Found(s.requests, j).Some? && Found(s.requests, j).value.callback < |s.jobs|
  }

  /** What the callback in that slot is for. */
  function JobOf(s: State, j: nat): Job
    requires HasJob(s, j)
  {
    s.jobs[Found(s.requests, j).value.callback]
  }

  predicate Enabled(s: State, step: Step) {
    match step
    case Batch(_, _) => E.Enabled(s.engine, E.Submit)
    case Single(_, input, output) =>
      E.Enabled(s.engine, E.Submit) && R.Enabled(s.requests, R.Submit(RequestFor(s, input, output)))
    case Send(f, input, output) =>
      && HasFence(s, f) && B.Enabled(s.batches[f - 1], B.Send)
      && R.Enabled(s.requests, R.Submit(RequestFor(s, input, output)))
    case Inside(f, b) => HasFence(s, f) && (b.Sent? || b.Drop? || b.Free?) && B.Enabled(s.batches[f - 1], b)
    case Report(f, p, t) =>
      HasFence(s, f) && B.Enabled(s.batches[f - 1], B.Report(p)) && E.Enabled(s.engine, E.By(t, E.Complete(f)))
    case Queue(r) => (r.Start? || r.Device?) && R.Enabled(s.requests, r)
    case Respond(j) =>
      && R.Enabled(s.requests, R.Respond(j)) && HasJob(s, j) && HasFence(s, JobOf(s, j).fence)
      && B.Enabled(s.batches[JobOf(s, j).fence - 1], B.Answer(JobOf(s, j).command))
    case Engine(t, act) => !act.Complete? && E.Enabled(s.engine, E.By(t, act))
  }

  function WithBatch(s: State, f: nat, b: B.State): State
    requires HasFence(s, f)
  {
    s.(batches := s.batches[f - 1 := b])
  }

  function Apply(s: State, step: Step): State
    requires Enabled(s, step)
  {
    match step
    case Batch(commands, allocations) =>
      s.(engine := E.Apply(s.engine, E.Submit), batches := s.batches + [B.Init(commands, allocations)])
    case Single(allocations, input, output) =>
      s.(engine := E.Apply(s.engine, E.Submit), batches := s.batches + [B.Single(allocations)],
      requests := R.Apply(s.requests, R.Submit(RequestFor(s, input, output))),
      jobs := s.jobs + [Job(|s.batches| + 1, 0)])
    case Send(f, input, output) =>
      WithBatch(s, f, B.Apply(s.batches[f - 1], B.Send)).(
      requests := R.Apply(s.requests, R.Submit(RequestFor(s, input, output))),
      jobs := s.jobs + [Job(f, s.batches[f - 1].sent)])
    case Inside(f, b) => WithBatch(s, f, B.Apply(s.batches[f - 1], b))
    case Report(f, p, t) =>
      WithBatch(s, f, B.Apply(s.batches[f - 1], B.Report(p))).(engine := E.Apply(s.engine, E.By(t, E.Complete(f))))
    case Queue(r) => s.(requests := R.Apply(s.requests, r))
    case Respond(j) =>
      var job := JobOf(s, j);
      WithBatch(s, job.fence, B.Apply(s.batches[job.fence - 1], B.Answer(job.command))).(
      requests := R.Apply(s.requests, R.Respond(j)))
    case Engine(t, act) => s.(engine := E.Apply(s.engine, E.By(t, act)))
  }

  predicate Run(s: State, steps: seq<Step>, s': State)
    decreases |steps|
  {
    if steps == [] then s == s'
    else Enabled(s, steps[0]) && Run(Apply(s, steps[0]), steps[1..], s')
  }

  ghost predicate Reachable(threads: nat, s: State) {
    exists size: nat, indirect, eventIdx, steps ::
      IsQueueSize(size) && Run(Init(threads, size, indirect, eventIdx), steps, s)
  }

  // ----- The invariant ------------------------------------------------------------------------

  /** A fence is outstanding for the engine exactly as long as its batch has not reported. */
  ghost predicate FenceOk(engine: E.Engine, batches: seq<B.State>, f: nat) {
    1 <= f <= |batches| ==> B.Inv(batches[f - 1]) && (batches[f - 1].reported == 0 <==> E.IsOutstanding(engine, f))
  }

  /** The command a request was submitted for waits until the request is answered. */
  predicate JobOk(batches: seq<B.State>, job: Job, answered: bool) {
    && 1 <= job.fence <= |batches|
    && var b := batches[job.fence - 1];
    && job.command < b.sent <= b.commands && |b.pcs| == b.commands + 1
    && (answered || b.pcs[job.command + 1] == B.Holding)
  }

  ghost predicate FencesOk(engine: E.Engine, batches: seq<B.State>) {
    |batches| == engine.shared.submitted && forall f: nat :: FenceOk(engine, batches, f)
  }

  /** The callback of a submission is its ticket. */
  predicate CallbacksOk(submitted: seq<S.Request>) {
    forall n: nat | n < |submitted| :: submitted[n].callback == n
  }

  ghost predicate JobsOk(batches: seq<B.State>, jobs: seq<Job>, tickets: nat, answered: seq<nat>) {
    && |jobs| == tickets
    && (forall n: nat | n < |jobs| :: JobOk(batches, jobs[n], n in answered))
    && (forall m: nat, n: nat | m < n < |jobs| :: jobs[m] != jobs[n])
  }

  ghost predicate Inv(threads: nat, s: State) {
    match s
    case State(engine, requests, batches, jobs) =>
      && E.Reachable(threads, engine) && R.Inv(requests)
      && FencesOk(engine, batches) && JobsOk(batches, jobs, |requests.submitted|, requests.answered)
      && CallbacksOk(requests.submitted)
  }

  /** Following the token to the slot and its callback finds the job the request was submitted for. */
  lemma CallbackFindsJob(s: State, j: nat)
    requires R.Inv(s.requests) && CallbacksOk(s.requests.submitted) && |s.jobs| == |s.requests.submitted|
    requires R.Enabled(s.requests, R.Respond(j))
    ensures HasJob(s, j) && s.requests.flying[j] < |s.jobs| && JobOf(s, j) == s.jobs[s.requests.flying[j]]
  {
    R.LookupFinds(s.requests, j);
  }

  lemma InitInv(threads: nat, size: nat, indirect: bool, eventIdx: bool)
    requires IsQueueSize(size)
    ensures Inv(threads, Init(threads, size, indirect, eventIdx))
  {
    assert E.Run(E.Init(threads), [], E.Init(threads));
    R.InitInv(size, indirect, eventIdx);
  }

  // ----- Each step keeps the invariant --------------------------------------------------------

  /** One batch takes a step that neither reports nor changes which fences are outstanding. */
  lemma BatchFences(s: State, f: nat, b: B.Step)
    requires FencesOk(s.engine, s.batches) && HasFence(s, f) && B.Enabled(s.batches[f - 1], b) && !b.Report?
    ensures FencesOk(s.engine, WithBatch(s, f, B.Apply(s.batches[f - 1], b)).batches)
  {
    var s' := WithBatch(s, f, B.Apply(s.batches[f - 1], b));
    assert FenceOk(s.engine, s.batches, f);
    B.StepInv(s.batches[f - 1], b);
    forall g: nat ensures FenceOk(s'.engine, s'.batches, g) {
      assert FenceOk(s.engine, s.batches, g);
    }
  }

  /** And it keeps every command waiting except the one it answers. */
  lemma BatchJob(batches: seq<B.State>, f: nat, b: B.Step, job: Job, answered: bool)
    requires 1 <= f <= |batches| && B.Enabled(batches[f - 1], b) && JobOk(batches, job, answered)
    requires b.Answer? ==> job != Job(f, b.k)
    ensures JobOk(batches[f - 1 := B.Apply(batches[f - 1], b)], job, answered)
  {
    if job.fence == f && batches[f - 1].pcs[job.command + 1] == B.Holding {
      B.HoldingKept(batches[f - 1], b, job.command);
    }
  }

  lemma InsideInv(threads: nat, s: State, f: nat, b: B.Step)
    requires Inv(threads, s) && Enabled(s, Inside(f, b))
    ensures Inv(threads, Apply(s, Inside(f, b)))
  {
    BatchFences(s, f, b);
    forall n: nat | n < |s.jobs| ensures JobOk(Apply(s, Inside(f, b)).batches, s.jobs[n], n in s.requests.answered) {
      BatchJob(s.batches, f, b, s.jobs[n], n in s.requests.answered);
    }
  }

  lemma ReportFence(s: State, f: nat, p: nat, t: nat, g: nat)
    requires E.Inv(s.engine) && Enabled(s, Report(f, p, t))
    requires FenceOk(s.engine, s.batches, f) && FenceOk(s.engine, s.batches, g)
    ensures FenceOk(Apply(s, Report(f, p, t)).engine, Apply(s, Report(f, p, t)).batches, g)
  {
    B.StepInv(s.batches[f - 1], B.Report(p));
    E.OutstandingKept(s.engine, t, E.Complete(f), g);
  }

  lemma ReportFences(threads: nat, s: State, f: nat, p: nat, t: nat)
    requires E.Reachable(threads, s.engine) && FencesOk(s.engine, s.batches) && Enabled(s, Report(f, p, t))
    ensures FencesOk(Apply(s, Report(f, p, t)).engine, Apply(s, Report(f, p, t)).batches)
  {
    var s' := Apply(s, Report(f, p, t));
    E.ReachableInv(threads, s.engine);
    assert FenceOk(s.engine, s.batches, f);
    forall g: nat ensures FenceOk(s'.engine, s'.batches, g) {
      assert FenceOk(s.engine, s.batches, g);
      ReportFence(s, f, p, t, g);
    }
    E.OutstandingKept(s.engine, t, E.Complete(f), f);
  }

  lemma ReportInv(threads: nat, s: State, f: nat, p: nat, t: nat)
    requires Inv(threads, s) && Enabled(s, Report(f, p, t))
    ensures Inv(threads, Apply(s, Report(f, p, t)))
  {
    ReportFences(threads, s, f, p, t);
    E.ReachableStep(threads, s.engine, E.By(t, E.Complete(f)), E.Apply(s.engine, E.By(t, E.Complete(f))));
    forall n: nat | n < |s.jobs| ensures JobOk(Apply(s, Report(f, p, t)).batches, s.jobs[n], n in s.requests.answered) {
      BatchJob(s.batches, f, B.Report(p), s.jobs[n], n in s.requests.answered);
    }
  }

  lemma EngineInv(threads: nat, s: State, t: nat, act: E.Action)
    requires Inv(threads, s) && Enabled(s, Engine(t, act))
    ensures Inv(threads, Apply(s, Engine(t, act)))
  {
    var s' := Apply(s, Engine(t, act));
    E.ReachableInv(threads, s.engine);
    E.ReachableStep(threads, s.engine, E.By(t, act), s'.engine);
    forall g: nat ensures FenceOk(s'.engine, s'.batches, g) {
      assert FenceOk(s.engine, s.batches, g);
      E.OutstandingKept(s.engine, t, act, g);
    }
    E.OutstandingKept(s.engine, t, act, 0);
  }

  /** A fence is submitted for `b`, which has not reported. */
  lemma SubmitFences(threads: nat, s: State, b: B.State)
    requires E.Reachable(threads, s.engine) && FencesOk(s.engine, s.batches) && E.Enabled(s.engine, E.Submit)
    requires B.Inv(b) && b.reported == 0
    ensures FencesOk(E.Apply(s.engine, E.Submit), s.batches + [b])
    ensures E.Reachable(threads, E.Apply(s.engine, E.Submit))
  {
    var s' := s.(engine := E.Apply(s.engine, E.Submit), batches := s.batches + [b]);
    E.ReachableInv(threads, s.engine);
    E.ReachableStep(threads, s.engine, E.Submit, s'.engine);
    forall g: nat ensures FenceOk(s'.engine, s'.batches, g) {
      E.SubmitOutstanding(s.engine, g);
      assert FenceOk(s.engine, s.batches, g);
    }
  }

  lemma BatchInv(threads: nat, s: State, commands: nat, allocations: nat)
    requires Inv(threads, s) && Enabled(s, Batch(commands, allocations))
    ensures Inv(threads, Apply(s, Batch(commands, allocations)))
  {
    var s' := Apply(s, Batch(commands, allocations));
    B.InitInv(commands, allocations);
    SubmitFences(threads, s, B.Init(commands, allocations));
    forall n: nat | n < |s'.jobs| ensures JobOk(s'.batches, s'.jobs[n], n in s'.requests.answered) {
      assert JobOk(s.batches, s.jobs[n], n in s.requests.answered);
    }
  }

  /** Tickets already answered are below the one handed out next. */
  lemma NewTicket(r: R.State)
    requires R.Inv(r)
    ensures |r.submitted| !in r.answered
  {
    RangeCount(|r.submitted|, |r.submitted|);
    assert |r.submitted| in r.answered ==> |r.submitted| in multiset(r.answered);
  }

  lemma SingleJobs(s: State, allocations: nat, input: Q.Slice, output: Q.Slice)
    requires R.Inv(s.requests) && JobsOk(s.batches, s.jobs, |s.requests.submitted|, s.requests.answered)
    requires Enabled(s, Single(allocations, input, output))
    ensures var s' := Apply(s, Single(allocations, input, output));
            JobsOk(s'.batches, s'.jobs, |s'.requests.submitted|, s'.requests.answered)
  {
    var s' := Apply(s, Single(allocations, input, output));
    NewTicket(s.requests);
    forall n: nat | n < |s'.jobs| ensures JobOk(s'.batches, s'.jobs[n], n in s'.requests.answered) {
      assert n < |s.jobs| ==> JobOk(s.batches, s.jobs[n], n in s.requests.answered);
    }
    forall m: nat, n: nat | m < n < |s'.jobs| ensures s'.jobs[m] != s'.jobs[n] {
      assert JobOk(s.batches, s.jobs[m], m in s.requests.answered);
    }
  }

  lemma SingleInv(threads: nat, s: State, allocations: nat, input: Q.Slice, output: Q.Slice)
    requires Inv(threads, s) && Enabled(s, Single(allocations, input, output))
    ensures Inv(threads, Apply(s, Single(allocations, input, output)))
  {
    B.SingleInv(allocations);
    SubmitFences(threads, s, B.Single(allocations));
    R.StepInv(s.requests, R.Submit(RequestFor(s, input, output)));
    SingleJobs(s, allocations, input, output);
  }

  lemma SendJobs(s: State, f: nat, input: Q.Slice, output: Q.Slice)
    requires R.Inv(s.requests) && JobsOk(s.batches, s.jobs, |s.requests.submitted|, s.requests.answered)
    requires Enabled(s, Send(f, input, output))
    ensures var s' := Apply(s, Send(f, input, output));
            JobsOk(s'.batches, s'.jobs, |s'.requests.submitted|, s'.requests.answered)
  {
    var s' := Apply(s, Send(f, input, output));
    NewTicket(s.requests);
    forall n: nat | n < |s'.jobs| ensures JobOk(s'.batches, s'.jobs[n], n in s'.requests.answered) {
      if n < |s.jobs| {
        BatchJob(s.batches, f, B.Send, s.jobs[n], n in s.requests.answered);
      }
    }
    forall m: nat, n: nat | m < n < |s'.jobs| ensures s'.jobs[m] != s'.jobs[n] {
      assert JobOk(s.batches, s.jobs[m], m in s.requests.answered);
    }
  }

  lemma SendInv(threads: nat, s: State, f: nat, input: Q.Slice, output: Q.Slice)
    requires Inv(threads, s) && Enabled(s, Send(f, input, output))
    ensures Inv(threads, Apply(s, Send(f, input, output)))
  {
    BatchFences(s, f, B.Send);
    R.StepInv(s.requests, R.Submit(RequestFor(s, input, output)));
    SendJobs(s, f, input, output);
  }

  lemma QueueInv(threads: nat, s: State, step: R.Step)
    requires Inv(threads, s) && Enabled(s, Queue(step))
    ensures Inv(threads, Apply(s, Queue(step)))
  {
    R.StepInv(s.requests, step);
    R.AnswersKept(s.requests, step);
  }

  /** Answering the command of ticket `n` keeps the other tickets' commands waiting. */
  lemma AnswerJobs(batches: seq<B.State>, jobs: seq<Job>, tickets: nat, answered: seq<nat>, n: nat)
    requires JobsOk(batches, jobs, tickets, answered) && n < |jobs| && JobOk(batches, jobs[n], n in answered)
    requires B.Enabled(batches[jobs[n].fence - 1], B.Answer(jobs[n].command))
    ensures var f := jobs[n].fence;
            JobsOk(batches[f - 1 := B.Apply(batches[f - 1], B.Answer(jobs[n].command))], jobs, tickets, answered + [n])
  {
    var f, step := jobs[n].fence, B.Answer(jobs[n].command);
    var batches', answered' := batches[f - 1 := B.Apply(batches[f - 1], step)], answered + [n];
    forall m: nat | m < |jobs| ensures JobOk(batches', jobs[m], m in answered') {
      assert JobOk(batches, jobs[m], m in answered);
      if m != n {
        assert jobs[if m < n then m else n] != jobs[if m < n then n else m];
        BatchJob(batches, f, step, jobs[m], m in answered);
      }
    }
  }

  lemma RespondJobs(s: State, j: nat)
    requires R.Inv(s.requests) && JobsOk(s.batches, s.jobs, |s.requests.submitted|, s.requests.answered)
    requires CallbacksOk(s.requests.submitted) && Enabled(s, Respond(j))
    ensures var s' := Apply(s, Respond(j));
            JobsOk(s'.batches, s'.jobs, |s'.requests.submitted|, s'.requests.answered)
  {
    CallbackFindsJob(s, j);
    var n := s.requests.flying[j];
    assert JobOk(s.batches, s.jobs[n], n in s.requests.answered);
    AnswerJobs(s.batches, s.jobs, |s.requests.submitted|, s.requests.answered, n);
  }

  lemma RespondFences(s: State, j: nat)
    requires FencesOk(s.engine, s.batches) && Enabled(s, Respond(j))
    ensures Apply(s, Respond(j)).engine == s.engine && FencesOk(s.engine, Apply(s, Respond(j)).batches)
  {
    BatchFences(s, JobOf(s, j).fence, B.Answer(JobOf(s, j).command));
  }

  lemma RespondRequests(s: State, j: nat)
    requires R.Inv(s.requests) && Enabled(s, Respond(j))
    ensures R.Inv(Apply(s, Respond(j)).requests)
    ensures Apply(s, Respond(j)).requests.submitted == s.requests.submitted && Apply(s, Respond(j)).jobs == s.jobs
  {
    R.StepInv(s.requests, R.Respond(j));
  }

  lemma RespondInv(threads: nat, s: State, j: nat)
    requires Inv(threads, s) && Enabled(s, Respond(j))
    ensures Inv(threads, Apply(s, Respond(j)))
  {
    RespondFences(s, j);
    RespondRequests(s, j);
    RespondJobs(s, j);
  }

  lemma StepInv(threads: nat, s: State, step: Step)
    requires Inv(threads, s) && Enabled(s, step)
    ensures Inv(threads, Apply(s, step))
  {
    match step
    case Batch(commands, allocations) => BatchInv(threads, s, commands, allocations);
    case Single(allocations, input, output) => SingleInv(threads, s, allocations, input, output);
    case Send(f, input, output) => SendInv(threads, s, f, input, output);
    case Inside(f, b) => InsideInv(threads, s, f, b);
    case Report(f, p, t) => ReportInv(threads, s, f, p, t);
    case Queue(r) => QueueInv(threads, s, r);
    case Respond(j) => RespondInv(threads, s, j);
    case Engine(t, act) => EngineInv(threads, s, t, act);
  }

  lemma {:induction false} RunInv(threads: nat, s: State, steps: seq<Step>, s': State)
    requires Inv(threads, s) && Run(s, steps, s')
    ensures Inv(threads, s')
    decreases |steps|
  {
    if steps != [] {
      StepInv(threads, s, steps[0]);
      RunInv(threads, Apply(s, steps[0]), steps[1..], s');
    }
  }

  lemma ReachableInv(threads: nat, s: State)
    requires Reachable(threads, s)
    ensures Inv(threads, s)
  {
    var size: nat, indirect, eventIdx, steps :|
      IsQueueSize(size) && Run(Init(threads, size, indirect, eventIdx), steps, s);
    InitInv(threads, size, indirect, eventIdx);
    RunInv(threads, Init(threads, size, indirect, eventIdx), steps, s);
  }

  // ----- What every run keeps -----------------------------------------------------------------

  /** A response, following its token to the slot and the callback there, finds its command still waiting. */
  lemma ResponseFindsCommand(threads: nat, s: State, j: nat)
    requires Reachable(threads, s) && R.Enabled(s.requests, R.Respond(j))
    ensures Enabled(s, Respond(j))
  {
    ReachableInv(threads, s);
    R.FlyingNotAnswered(s.requests, j);
    CallbackFindsJob(s, j);
    var ticket := s.requests.flying[j];
    assert JobOk(s.batches, s.jobs[ticket], ticket in s.requests.answered);
  }

  /** A completion call is always the first for its fence, so an idle thread may make it. */
  lemma CompletionCallExpected(threads: nat, s: State, f: nat, p: nat, t: nat)
    requires Reachable(threads, s) && HasFence(s, f) && B.Enabled(s.batches[f - 1], B.Report(p))
    requires t < |s.engine.pcs| && s.engine.pcs[t] == E.Idle
    ensures Enabled(s, Report(f, p, t))
  {
    ReachableInv(threads, s);
    assert FenceOk(s.engine, s.batches, f);
    B.ReportIsFirst(s.batches[f - 1], p);
  }

  /**
   From submission to report: the scheduler hears of fences 1, 2, 3, ... in order, and once every
   party of every batch is through and no thread is mid-call it has heard of all of them, each after
   its allocations were marked free exactly once.
   */
  lemma EverySubmissionReported(threads: nat, s: State)
    requires Reachable(threads, s)
    ensures forall i | 0 <= i < |s.engine.shared.log| :: s.engine.shared.log[i] == i + 1
    ensures (forall f: nat | f < |s.batches| :: B.AllGone(s.batches[f])) && E.AllIdle(s.engine) ==>
              && |s.engine.shared.log| == s.engine.shared.submitted == |s.batches|
              && forall f: nat | f < |s.batches| :: s.batches[f].freed == Range(s.batches[f].allocations)
  {
    ReachableInv(threads, s);
    E.FencesReportedInOrder(threads, s.engine);
    if (forall f: nat | f < |s.batches| :: B.AllGone(s.batches[f])) && E.AllIdle(s.engine) {
      AllReported(threads, s);
    }
  }

  lemma AllReported(threads: nat, s: State)
    requires Inv(threads, s) && E.AllIdle(s.engine)
    requires forall f: nat | f < |s.batches| :: B.AllGone(s.batches[f])
    ensures |s.engine.shared.log| == s.engine.shared.submitted == |s.batches|
    ensures forall f: nat | f < |s.batches| :: s.batches[f].freed == Range(s.batches[f].allocations)
  {
    E.ReachableInv(threads, s.engine);
    forall f: nat ensures !E.IsOutstanding(s.engine, f) {
      assert E.FenceOk(s.engine.shared, f) && FenceOk(s.engine, s.batches, f);
      if 1 <= f <= |s.batches| {
        B.GoneMeansReported(s.batches[f - 1]);
      }
    }
    E.AllCompletedAllReported(threads, s.engine);
    forall f: nat | f < |s.batches| ensures s.batches[f].freed == Range(s.batches[f].allocations) {
      assert FenceOk(s.engine, s.batches, f + 1);
      B.GoneMeansReported(s.batches[f]);
    }
  }
}
