/** The worker pool behind the request handler: a channel of channels. Each worker puts its private job channel
    into the pool and waits on it; each job has a goroutine that borrows a channel from the pool and sends the
    job down it. Every channel operation is one step. */
module WorkerPool {
  import opened Runs
  import opened Tallies

  datatype Job = Job(name: string, used: nat)

  /** What a worker's goroutine is about to do: send its channel to the pool, receive a job, or run one. */
  datatype WorkerPhase = Registering | Selecting | Running(job: Job)

  /** A worker with its private channel; channels are numbered. */
  datatype Worker = Worker(jobChan: nat, phase: WorkerPhase)

  /** The goroutine that `dispatch` starts for a job. */
  datatype Carrier = Fetching(job: Job) | Holding(job: Job, chan: nat) | Finished(job: Job)

  /** `pending` are the jobs of request handlers that have not sent yet. The last five are history: all jobs that
      handlers ever send, those completed, those sent, in order, and the channels that workers have put into the pool
      and that goroutines have taken from it, in order. */
  datatype State = State(
    maxWorkers: nat, maxQueueSize: nat,
    pending: multiset<Job>, jobQueue: seq<Job>, carriers: seq<Carrier>,
    workerPool: seq<nat>, workers: seq<Worker>,
    submitted: multiset<Job>, completed: multiset<Job>,
    sent: seq<Job>, registered: seq<nat>, fetched: seq<nat>)

  datatype Action =
    | Submit(job: Job)   // a handler's send finds room in the job queue
    | HandOver(job: Job) // a handler's send meets the dispatcher's receive on an empty queue
    | Take               // the dispatcher receives a queued job and starts its goroutine
    | Fetch(c: nat)      // a job's goroutine receives a channel from the pool
    | Deliver(c: nat)    // a job's goroutine and a worker meet on the worker's channel
    | Register(w: nat)   // a worker sends its channel to the pool
    | Complete(w: nat)   // a worker finishes its job

  ghost function Init(maxWorkers: nat, maxQueueSize: nat, jobs: multiset<Job>): State {
    State(maxWorkers, maxQueueSize, jobs, [], [], [],
          seq(maxWorkers, i requires 0 <= i => Worker(i, Registering)), jobs, multiset{}, [], [], [])
  }

  predicate Enabled(s: State, a: Action) {
    match a
    case Submit(job) => job in s.pending && |s.jobQueue| < s.maxQueueSize
    case HandOver(job) => job in s.pending && s.jobQueue == []
    case Take => s.jobQueue != []
    case Fetch(c) => c < |s.carriers| && s.carriers[c].Fetching? && s.workerPool != []
    case Deliver(c) =>
      && c < |s.carriers| && s.carriers[c].Holding?
      && s.carriers[c].chan < |s.workers| && s.workers[s.carriers[c].chan].phase == Selecting
    case Register(w) => w < |s.workers| && s.workers[w].phase == Registering && |s.workerPool| < s.maxWorkers
    case Complete(w) => w < |s.workers| && s.workers[w].phase.Running?
  }

  function Moved(worker: Worker, phase: WorkerPhase): Worker {
    worker.(phase := phase)
  }

  function Apply(s: State, a: Action): State
    requires Enabled(s, a)
  {
    match a
    case Submit(job) =>
      s.(pending := s.pending - multiset{job}, jobQueue := s.jobQueue + [job], sent := s.sent + [job])
    case HandOver(job) =>
      s.(pending := s.pending - multiset{job}, carriers := s.carriers + [Fetching(job)], sent := s.sent + [job])
    case Take =>
      s.(jobQueue := s.jobQueue[1..], carriers := s.carriers + [Fetching(s.jobQueue[0])])
    case Fetch(c) =>
      s.(workerPool := s.workerPool[1..], fetched := s.fetched + [s.workerPool[0]],
         carriers := s.carriers[c := Holding(s.carriers[c].job, s.workerPool[0])])
    case Deliver(c) =>
      var w := s.carriers[c].chan;
      s.(carriers := s.carriers[c := Finished(s.carriers[c].job)],
         workers := s.workers[w := Moved(s.workers[w], Running(s.carriers[c].job))])
    case Register(w) =>
      s.(workerPool := s.workerPool + [s.workers[w].jobChan], registered := s.registered + [s.workers[w].jobChan],
         workers := s.workers[w := Moved(s.workers[w], Selecting)])
    case Complete(w) =>
      s.(completed := s.completed + multiset{s.workers[w].phase.job},
         workers := s.workers[w := Moved(s.workers[w], Registering)])
  }

  ghost predicate Next(s: State, t: State) {
    exists a :: Enabled(s, a) && t == Apply(s, a)
  }

  // ---- ownership of the channels, and of the jobs

  function CarriedJob(c: Carrier): multiset<Job> {
    match c
    case Fetching(job) => multiset{job}
    case Holding(job, _) => multiset{job}
    case Finished(_) => multiset{}
  }

  function HeldChan(c: Carrier): multiset<nat> {
    if c.Holding? then multiset{c.chan} else multiset{}
  }

  function RunningJob(w: Worker): multiset<Job> {
    if w.phase.Running? then multiset{w.phase.job} else multiset{}
  }

  function FreeChan(w: Worker): multiset<nat> {
    if w.phase == Selecting then multiset{w.jobChan} else multiset{}
  }

  /** The pool and the job goroutines own, together and each once, exactly the channels on which a worker is
      waiting. */
  ghost predicate ChannelsOwned(s: State) {
    && |s.workers| == s.maxWorkers
    && (forall w | 0 <= w < |s.workers| :: s.workers[w].jobChan == w)
    && forall w: nat :: Owners(s, w) == Tally(FreeChan, s.workers)[w]
  }

  /** In how many places the channel of worker `w` is. */
  ghost function Owners(s: State, w: nat): nat {
    multiset(s.workerPool)[w] + Tally(HeldChan, s.carriers)[w]
  }

  /** Every submitted job is at exactly one stage. */
  ghost predicate JobsConserved(s: State) {
    && |s.jobQueue| <= s.maxQueueSize
    && forall job :: s.submitted[job] == Stages(s, job)
  }

  /** In how many places `job` is: as many as it was submitted times, if none is lost and none duplicated. */
  ghost function Stages(s: State, job: Job): nat {
    s.pending[job] + multiset(s.jobQueue)[job] + Tally(CarriedJob, s.carriers)[job]
    + Tally(RunningJob, s.workers)[job] + s.completed[job]
  }

  ghost predicate Owned(s: State) {
    ChannelsOwned(s) && JobsConserved(s)
  }

  lemma {:induction false} NothingFreeInitially(n: nat, workers: seq<Worker>)
    requires |workers| == n && forall w | 0 <= w < n :: workers[w].phase == Registering
    ensures Tally(FreeChan, workers) == multiset{} && Tally(RunningJob, workers) == multiset{}
    ensures Total(WorkerCost, workers) == n
  {
    if n > 0 {
      NothingFreeInitially(n - 1, workers[..n - 1]);
    }
  }

  lemma OwnedInitially(maxWorkers: nat, maxQueueSize: nat, jobs: multiset<Job>)
    ensures Owned(Init(maxWorkers, maxQueueSize, jobs))
  {
    NothingFreeInitially(maxWorkers, Init(maxWorkers, maxQueueSize, jobs).workers);
  }

  lemma ChannelsKept(s: State, a: Action)
    requires ChannelsOwned(s) && Enabled(s, a)
    ensures ChannelsOwned(Apply(s, a))
  {
    var t := Apply(s, a);
    forall w: nat ensures Owners(t, w) == Tally(FreeChan, t.workers)[w] {
      OwnersKept(s, a, w);
    }
  }

  /** Each step moves a channel from one owner to the next, or none at all. */
  lemma OwnersKept(s: State, a: Action, k: nat)
    requires ChannelsOwned(s) && Enabled(s, a)
    ensures Owners(Apply(s, a), k) == Tally(FreeChan, Apply(s, a).workers)[k]
  {
    assert Owners(s, k) == Tally(FreeChan, s.workers)[k];
    match a
    case Submit(_) =>
    case HandOver(job) => NoChannelHandedOver(s, job, k);
    case Take => NoChannelTaken(s, k);
    case Fetch(c) => ChannelFetched(s, c, k);
    case Deliver(c) => ChannelUsed(s, c, k);
    case Register(w) => ChannelRegistered(s, w, k);
    case Complete(w) => NoChannelFreed(s, w, k);
  }

  lemma NoChannelHandedOver(s: State, job: Job, k: nat)
    requires Enabled(s, HandOver(job))
    ensures var t := Apply(s, HandOver(job)); Owners(t, k) == Owners(s, k) && t.workers == s.workers
  {
    TallyAppend(HeldChan, s.carriers, Fetching(job), k);
  }

  lemma NoChannelTaken(s: State, k: nat)
    requires Enabled(s, Take)
    ensures Owners(Apply(s, Take), k) == Owners(s, k) && Apply(s, Take).workers == s.workers
  {
    TallyAppend(HeldChan, s.carriers, Fetching(s.jobQueue[0]), k);
  }

  lemma NoChannelFreed(s: State, w: nat, k: nat)
    requires Enabled(s, Complete(w))
    ensures var t := Apply(s, Complete(w));
            Owners(t, k) == Owners(s, k) && Tally(FreeChan, t.workers)[k] == Tally(FreeChan, s.workers)[k]
  {
    TallyUpdate(FreeChan, s.workers, w, Moved(s.workers[w], Registering), k);
  }

  lemma ChannelFetched(s: State, c: nat, k: nat)
    requires Enabled(s, Fetch(c))
    ensures Owners(Apply(s, Fetch(c)), k) == Owners(s, k)
  {
    TallyUpdate(HeldChan, s.carriers, c, Holding(s.carriers[c].job, s.workerPool[0]), k);
    CountAfterPop(s.workerPool, k);
  }

  lemma ChannelUsed(s: State, c: nat, k: nat)
    requires ChannelsOwned(s) && Enabled(s, Deliver(c))
    ensures var t, w := Apply(s, Deliver(c)), s.carriers[c].chan;
            && Owners(t, k) + (if k == w then 1 else 0) == Owners(s, k)
            && Tally(FreeChan, t.workers)[k] + (if k == w then 1 else 0) == Tally(FreeChan, s.workers)[k]
  {
    var w := s.carriers[c].chan;
    TallyUpdate(HeldChan, s.carriers, c, Finished(s.carriers[c].job), k);
    TallyUpdate(FreeChan, s.workers, w, Moved(s.workers[w], Running(s.carriers[c].job)), k);
  }

  lemma ChannelRegistered(s: State, w: nat, k: nat)
    requires ChannelsOwned(s) && Enabled(s, Register(w))
    ensures var t := Apply(s, Register(w));
            && Owners(t, k) == Owners(s, k) + (if k == w then 1 else 0)
            && Tally(FreeChan, t.workers)[k] == Tally(FreeChan, s.workers)[k] + (if k == w then 1 else 0)
  {
    TallyUpdate(FreeChan, s.workers, w, Moved(s.workers[w], Selecting), k);
  }

  lemma JobsKept(s: State, a: Action)
    requires JobsConserved(s) && Enabled(s, a)
    ensures JobsConserved(Apply(s, a))
  {
    forall job ensures Stages(Apply(s, a), job) == Stages(s, job) {
      StagesKept(s, a, job);
    }
  }

  /** Each step moves a job from one stage to the next, or none at all. */
  lemma StagesKept(s: State, a: Action, j: Job)
    requires Enabled(s, a)
    ensures Stages(Apply(s, a), j) == Stages(s, j)
  {
    match a
    case Submit(job) => JobQueued(s, job, j);
    case HandOver(job) => JobHandedOver(s, job, j);
    case Take => JobTaken(s, j);
    case Fetch(c) => NoJobFetched(s, c, j);
    case Deliver(c) => JobDelivered(s, c, j);
    case Register(w) => NoJobRegistered(s, w, j);
    case Complete(w) => JobCompleted(s, w, j);
  }

  lemma JobQueued(s: State, job: Job, j: Job)
    requires Enabled(s, Submit(job))
    ensures Stages(Apply(s, Submit(job)), j) == Stages(s, j)
  {
  }

  lemma JobHandedOver(s: State, job: Job, j: Job)
    requires Enabled(s, HandOver(job))
    ensures Stages(Apply(s, HandOver(job)), j) == Stages(s, j)
  {
    TallyAppend(CarriedJob, s.carriers, Fetching(job), j);
  }

  lemma JobTaken(s: State, j: Job)
    requires Enabled(s, Take)
    ensures Stages(Apply(s, Take), j) == Stages(s, j)
  {
    TallyAppend(CarriedJob, s.carriers, Fetching(s.jobQueue[0]), j);
    CountAfterPop(s.jobQueue, j);
  }

  lemma NoJobFetched(s: State, c: nat, j: Job)
    requires Enabled(s, Fetch(c))
    ensures Stages(Apply(s, Fetch(c)), j) == Stages(s, j)
  {
    TallyUpdate(CarriedJob, s.carriers, c, Holding(s.carriers[c].job, s.workerPool[0]), j);
  }

  lemma JobDelivered(s: State, c: nat, j: Job)
    requires Enabled(s, Deliver(c))
    ensures Stages(Apply(s, Deliver(c)), j) == Stages(s, j)
  {
    var w := s.carriers[c].chan;
    TallyUpdate(CarriedJob, s.carriers, c, Finished(s.carriers[c].job), j);
    TallyUpdate(RunningJob, s.workers, w, Moved(s.workers[w], Running(s.carriers[c].job)), j);
  }

  lemma NoJobRegistered(s: State, w: nat, j: Job)
    requires Enabled(s, Register(w))
    ensures Stages(Apply(s, Register(w)), j) == Stages(s, j)
  {
    TallyUpdate(RunningJob, s.workers, w, Moved(s.workers[w], Selecting), j);
  }

  lemma JobCompleted(s: State, w: nat, j: Job)
    requires Enabled(s, Complete(w))
    ensures Stages(Apply(s, Complete(w)), j) == Stages(s, j)
  {
    TallyUpdate(RunningJob, s.workers, w, Moved(s.workers[w], Registering), j);
  }

  // ---- first in, first out

  /** The jobs whose goroutines have been started, in that order. */
  function Started(carriers: seq<Carrier>): seq<Job> {
    seq(|carriers|, c requires 0 <= c < |carriers| => carriers[c].job)
  }

  lemma StartedMore(carriers: seq<Carrier>, job: Job)
    ensures Started(carriers + [Fetching(job)]) == Started(carriers) + [job]
  {
  }

  lemma StartedSame(carriers: seq<Carrier>, c: nat, after: Carrier)
    requires c < |carriers| && after.job == carriers[c].job
    ensures Started(carriers[c := after]) == Started(carriers)
  {
  }

  /** Jobs are started in the order in which they were sent. */
  ghost predicate JobsInOrder(s: State) {
    Started(s.carriers) + s.jobQueue == s.sent
  }

  /** Channels leave the pool in the order in which they were put in. */
  ghost predicate ChannelsInOrder(s: State) {
    s.fetched + s.workerPool == s.registered
  }

  /** Every job was either sent or is still pending. */
  ghost predicate SentOrPending(s: State) {
    forall job :: multiset(s.sent)[job] + s.pending[job] == s.submitted[job]
  }

  ghost predicate InOrder(s: State) {
    JobsInOrder(s) && ChannelsInOrder(s) && SentOrPending(s)
  }

  lemma Rejoined<T>(done: seq<T>, queue: seq<T>)
    requires queue != []
    ensures (done + [queue[0]]) + queue[1..] == done + queue
  {
  }

  lemma JobsInOrderKept(s: State, a: Action)
    requires JobsInOrder(s) && Enabled(s, a)
    ensures JobsInOrder(Apply(s, a))
  {
    match a
    case Submit(job) => assert Started(s.carriers) + (s.jobQueue + [job]) == (Started(s.carriers) + s.jobQueue) + [job];
    case HandOver(job) => StartedMore(s.carriers, job);
    case Take =>
      StartedMore(s.carriers, s.jobQueue[0]);
      Rejoined(Started(s.carriers), s.jobQueue);
    case Fetch(c) => StartedSame(s.carriers, c, Holding(s.carriers[c].job, s.workerPool[0]));
    case Deliver(c) => StartedSame(s.carriers, c, Finished(s.carriers[c].job));
    case Register(_) =>
    case Complete(_) =>
  }

  lemma ChannelsInOrderKept(s: State, a: Action)
    requires ChannelsInOrder(s) && Enabled(s, a)
    ensures ChannelsInOrder(Apply(s, a))
  {
    if a.Fetch? {
      Rejoined(s.fetched, s.workerPool);
    } else if a.Register? {
      var chan := s.workers[a.w].jobChan;
      assert s.fetched + (s.workerPool + [chan]) == (s.fetched + s.workerPool) + [chan];
    }
  }

  lemma SentOrPendingKept(s: State, a: Action)
    requires SentOrPending(s) && Enabled(s, a)
    ensures SentOrPending(Apply(s, a))
  {
  }

  lemma InOrderKept(s: State, a: Action)
    requires InOrder(s) && Enabled(s, a)
    ensures InOrder(Apply(s, a))
  {
    JobsInOrderKept(s, a);
    ChannelsInOrderKept(s, a);
    SentOrPendingKept(s, a);
  }

  // ---- what ownership gives

  lemma {:induction false} FreeOnce(workers: seq<Worker>, k: nat)
    requires forall w | 0 <= w < |workers| :: workers[w].jobChan == w
    ensures Tally(FreeChan, workers)[k] == if k < |workers| && workers[k].phase == Selecting then 1 else 0
  {
    if workers != [] {
      FreeOnce(workers[..|workers| - 1], k);
    }
  }

  lemma {:induction false} AtMostOneEach(workers: seq<Worker>)
    ensures |Tally(FreeChan, workers)| <= |workers|
    ensures |Tally(FreeChan, workers)| + |Tally(RunningJob, workers)| <= |workers|
  {
    if workers != [] {
      AtMostOneEach(workers[..|workers| - 1]);
    }
  }

  /** Each worker's channel is in exactly one place: in nobody's hands while the worker is registering or
      running, and otherwise once in the pool or with exactly one job's goroutine. */
  lemma ChannelInOnePlace(s: State, w: nat)
    requires Owned(s) && w < s.maxWorkers
    ensures Owners(s, w) == if s.workers[w].phase == Selecting then 1 else 0
  {
    FreeOnce(s.workers, w);
  }

  lemma RegisterNeverBlocks(s: State, w: nat)
    requires Owned(s) && w < s.maxWorkers && s.workers[w].phase == Registering
    ensures Enabled(s, Register(w))
  {
    var registered := s.workers[w := Moved(s.workers[w], Selecting)];
    forall k ensures Tally(FreeChan, registered)[k] == (Tally(FreeChan, s.workers) + multiset{w})[k] {
      TallyUpdate(FreeChan, s.workers, w, registered[w], k);
    }
    AtMostOneEach(registered);
    assert Tally(FreeChan, registered) == Tally(FreeChan, s.workers) + multiset{w};
    assert Tally(FreeChan, s.workers) == multiset(s.workerPool) + Tally(HeldChan, s.carriers);
  }

  lemma DeliverNeverBlocks(s: State, c: nat)
    requires Owned(s) && c < |s.carriers| && s.carriers[c].Holding?
    ensures Enabled(s, Deliver(c))
  {
    TallyIncludes(HeldChan, s.carriers, c);
    FreeOnce(s.workers, s.carriers[c].chan);
    assert Owners(s, s.carriers[c].chan) >= 1;
  }

  lemma PoolAndJobsBounded(s: State)
    requires Owned(s)
    ensures |s.workerPool| + |Tally(RunningJob, s.workers)| <= s.maxWorkers
  {
    AtMostOneEach(s.workers);
    assert Tally(FreeChan, s.workers) == multiset(s.workerPool) + Tally(HeldChan, s.carriers);
  }

  /** Handlers with a job to send are all blocked exactly while the queue is full; the dispatcher can then go on. */
  lemma BlockedExactlyWhenFull(s: State)
    requires Owned(s) && s.pending != multiset{}
    ensures (forall job :: !Enabled(s, Submit(job)) && !Enabled(s, HandOver(job)))
       <==> |s.jobQueue| == s.maxQueueSize && s.jobQueue != []
    ensures s.jobQueue != [] ==> Enabled(s, Take)
  {
    var job :| job in s.pending;
    assert Enabled(s, Submit(job)) <==> |s.jobQueue| < s.maxQueueSize;
    assert Enabled(s, HandOver(job)) <==> s.jobQueue == [];
  }

  // ---- termination and completion

  function CarrierCost(c: Carrier): nat {
    match c
    case Fetching(_) => 4
    case Holding(_, _) => 3
    case Finished(_) => 0
  }

  function WorkerCost(w: Worker): nat {
    match w.phase
    case Registering => 1
    case Selecting => 0
    case Running(_) => 2
  }

  /** The channel operations still to come: six for each job that has not been sent, and one for each
      worker that has to register. */
  ghost function Measure(s: State): nat {
    6 * |s.pending| + 5 * |s.jobQueue| + Total(CarrierCost, s.carriers) + Total(WorkerCost, s.workers)
  }

  lemma MeasureDrops(s: State, a: Action)
    requires Enabled(s, a)
    ensures Measure(Apply(s, a)) + (if a.HandOver? then 2 else 1) == Measure(s)
  {
    match a
    case Submit(job) =>
    case HandOver(job) =>
      TotalAppend(CarrierCost, s.carriers, Fetching(job));
    case Take =>
      TotalAppend(CarrierCost, s.carriers, Fetching(s.jobQueue[0]));
    case Fetch(c) =>
      TotalUpdate(CarrierCost, s.carriers, c, Holding(s.carriers[c].job, s.workerPool[0]));
    case Deliver(c) =>
      var w := s.carriers[c].chan;
      TotalUpdate(CarrierCost, s.carriers, c, Finished(s.carriers[c].job));
      TotalUpdate(WorkerCost, s.workers, w, Moved(s.workers[w], Running(s.carriers[c].job)));
    case Register(w) =>
      TotalUpdate(WorkerCost, s.workers, w, Moved(s.workers[w], Selecting));
    case Complete(w) =>
      TotalUpdate(WorkerCost, s.workers, w, Moved(s.workers[w], Registering));
  }

  /** Nothing left to do: all jobs completed, every worker waiting on its channel, every channel in the pool. */
  ghost predicate AllCompleted(s: State) {
    && s.completed == s.submitted
    && s.pending == multiset{} && s.jobQueue == []
    && (forall c | c in s.carriers :: c.Finished?)
    && (forall w | w in s.workers :: w.phase == Selecting)
  }

  ghost predicate Stuck(s: State) {
    forall a :: !Enabled(s, a)
  }

  lemma StuckWorkersWait(s: State)
    requires Owned(s) && Stuck(s)
    ensures forall w | 0 <= w < |s.workers| :: s.workers[w].phase == Selecting
  {
    forall w | 0 <= w < |s.workers| ensures s.workers[w].phase == Selecting {
      match s.workers[w].phase
      case Registering => RegisterNeverBlocks(s, w);
      case Running(_) => assert Enabled(s, Complete(w));
      case Selecting =>
    }
  }

  lemma StuckCarriersFinished(s: State)
    requires Owned(s) && s.maxWorkers >= 1 && Stuck(s)
    ensures forall c | 0 <= c < |s.carriers| :: s.carriers[c].Finished?
  {
    forall c | 0 <= c < |s.carriers| ensures !s.carriers[c].Holding? {
      if s.carriers[c].Holding? {
        DeliverNeverBlocks(s, c);
      }
    }
    StuckWorkersWait(s);
    WorkerZeroIsInPool(s);
    forall c | 0 <= c < |s.carriers| ensures s.carriers[c].Finished? {
      assert !Enabled(s, Fetch(c));
    }
  }

  lemma StuckNothingPending(s: State)
    requires Stuck(s)
    ensures s.jobQueue == [] && s.pending == multiset{}
  {
    assert !Enabled(s, Take);
    forall job ensures s.pending[job] == 0 {
      assert !Enabled(s, HandOver(job));
    }
  }

  lemma NothingLeft(s: State)
    requires JobsConserved(s) && s.jobQueue == [] && s.pending == multiset{}
    requires forall w | 0 <= w < |s.workers| :: s.workers[w].phase == Selecting
    requires forall c | 0 <= c < |s.carriers| :: s.carriers[c].Finished?
    ensures s.completed == s.submitted
  {
    NoJobAnywhere(s);
    forall job ensures s.completed[job] == s.submitted[job] {
      assert Stages(s, job) == s.completed[job];
    }
  }

  lemma CompletedExactlyWhenStuck(s: State)
    requires Owned(s) && s.maxWorkers >= 1
    ensures (forall a :: !Enabled(s, a)) <==> AllCompleted(s)
  {
    if Stuck(s) {
      StuckWorkersWait(s);
      StuckCarriersFinished(s);
      StuckNothingPending(s);
      NothingLeft(s);
    }
    if AllCompleted(s) {
      assert forall c | 0 <= c < |s.carriers| :: s.carriers[c] in s.carriers;
      assert forall w | 0 <= w < |s.workers| :: s.workers[w] in s.workers;
    }
  }

  lemma WorkerZeroIsInPool(s: State)
    requires Owned(s) && s.maxWorkers >= 1 && s.workers[0].phase == Selecting
    requires forall c | 0 <= c < |s.carriers| :: !s.carriers[c].Holding?
    ensures s.workerPool != []
  {
    FreeOnce(s.workers, 0);
    if 0 in Tally(HeldChan, s.carriers) {
      TallyWitness(HeldChan, s.carriers, 0);
    }
  }

  lemma NoJobAnywhere(s: State)
    requires forall w | 0 <= w < |s.workers| :: s.workers[w].phase == Selecting
    requires forall c | 0 <= c < |s.carriers| :: s.carriers[c].Finished?
    ensures Tally(CarriedJob, s.carriers) == Tally(RunningJob, s.workers) == multiset{}
  {
    if job :| job in Tally(CarriedJob, s.carriers) {
      TallyWitness(CarriedJob, s.carriers, job);
    }
    if job :| job in Tally(RunningJob, s.workers) {
      TallyWitness(RunningJob, s.workers, job);
    }
  }

  // ---- whole runs

  ghost predicate SameSetup(s: State, maxWorkers: nat, maxQueueSize: nat, jobs: multiset<Job>) {
    s.submitted == jobs && s.maxWorkers == maxWorkers && s.maxQueueSize == maxQueueSize
  }

  ghost predicate Sound(s: State, maxWorkers: nat, maxQueueSize: nat, jobs: multiset<Job>) {
    Owned(s) && InOrder(s) && SameSetup(s, maxWorkers, maxQueueSize, jobs)
  }

  lemma SoundKept(s: State, t: State, maxWorkers: nat, maxQueueSize: nat, jobs: multiset<Job>)
    requires Sound(s, maxWorkers, maxQueueSize, jobs) && Next(s, t)
    ensures Sound(t, maxWorkers, maxQueueSize, jobs)
  {
    var a :| Enabled(s, a) && t == Apply(s, a);
    ChannelsKept(s, a);
    JobsKept(s, a);
    InOrderKept(s, a);
  }

  /** In every reachable state the channels are owned once, no job is lost or run twice, and both channels are first in,
      first out. */
  lemma AlwaysOwned(maxWorkers: nat, maxQueueSize: nat, jobs: multiset<Job>, s: State)
    requires Reaches(Next, Init(maxWorkers, maxQueueSize, jobs), s)
    ensures Owned(s) && InOrder(s) && SameSetup(s, maxWorkers, maxQueueSize, jobs)
  {
    forall s, t | Sound(s, maxWorkers, maxQueueSize, jobs) && Next(s, t)
      ensures Sound(t, maxWorkers, maxQueueSize, jobs)
    {
      SoundKept(s, t, maxWorkers, maxQueueSize, jobs);
    }
    OwnedInitially(maxWorkers, maxQueueSize, jobs);
    InvariantReachable(Next, (u: State) => Sound(u, maxWorkers, maxQueueSize, jobs),
                       Init(maxWorkers, maxQueueSize, jobs), s);
  }

  lemma EveryRunEnds(maxWorkers: nat, maxQueueSize: nat, jobs: multiset<Job>, run: seq<State>, k: nat)
    requires IsRun(Next, run) && run[0] == Init(maxWorkers, maxQueueSize, jobs) && k < |run|
    ensures k <= 6 * |jobs| + maxWorkers
  {
    forall s, t | Owned(s) && Next(s, t) ensures Owned(t) && Measure(t) < Measure(s) {
      var a :| Enabled(s, a) && t == Apply(s, a);
      ChannelsKept(s, a);
      JobsKept(s, a);
      MeasureDrops(s, a);
    }
    OwnedInitially(maxWorkers, maxQueueSize, jobs);
    NothingFreeInitially(maxWorkers, run[0].workers);
    LengthBounded(Next, Owned, Measure, run, k);
  }

  /** A run of at least one worker that cannot go on has completed every submitted job, each once. */
  lemma FinishedAtTheEnd(maxWorkers: nat, maxQueueSize: nat, jobs: multiset<Job>, s: State)
    requires maxWorkers >= 1 && Reaches(Next, Init(maxWorkers, maxQueueSize, jobs), s)
    requires !exists t :: Next(s, t)
    ensures s.completed == jobs == multiset(s.sent) && Started(s.carriers) == s.sent && AllCompleted(s)
  {
    AlwaysOwned(maxWorkers, maxQueueSize, jobs, s);
    forall a ensures !Enabled(s, a) {
      if Enabled(s, a) {
        assert Next(s, Apply(s, a));
      }
    }
    CompletedExactlyWhenStuck(s);
    assert Started(s.carriers) + [] == Started(s.carriers);
    assert forall job :: multiset(s.sent)[job] == jobs[job];
    assert multiset(s.sent) == jobs;
  }

  ghost predicate NothingRuns(s: State) {
    s.workers == [] && s.completed == multiset{}
  }

  lemma NothingRunsKept(s: State, a: Action)
    requires NothingRuns(s) && Enabled(s, a)
    ensures NothingRuns(Apply(s, a))
  {
    assert !a.Deliver? && !a.Register? && !a.Complete?;
  }

  /** At least one worker is needed: with none, no job is ever completed. */
  lemma NoWorkerNoCompletion(maxQueueSize: nat, jobs: multiset<Job>, s: State)
    requires Reaches(Next, Init(0, maxQueueSize, jobs), s)
    ensures s.completed == multiset{}
  {
    forall s, t | NothingRuns(s) && Next(s, t) ensures NothingRuns(t) {
      var a :| Enabled(s, a) && t == Apply(s, a);
      NothingRunsKept(s, a);
    }
    InvariantReachable(Next, NothingRuns, Init(0, maxQueueSize, jobs), s);
  }

  // ---- the program

  /** The channels and goroutines of the program. */
  class Dispatcher {
    const maxWorkers: nat
    const maxQueueSize: nat
    var pending: multiset<Job>
    var jobQueue: seq<Job>
    var carriers: seq<Carrier>
    var workerPool: seq<nat>
    var workers: seq<Worker>
    var completed: multiset<Job>
    ghost const submitted: multiset<Job>
    ghost var sent: seq<Job>
    ghost var registered: seq<nat>
    ghost var fetched: seq<nat>

    ghost function View(): State
      reads this
    {
      State(maxWorkers, maxQueueSize, pending, jobQueue, carriers, workerPool, workers, submitted, completed,
            sent, registered, fetched)
    }

    /** `NewDispatcher` and `run`, with the handlers of `jobs` about to send. */
    constructor (maxWorkers: nat, maxQueueSize: nat, jobs: multiset<Job>)
      ensures View() == Init(maxWorkers, maxQueueSize, jobs)
    {
      this.maxWorkers, this.maxQueueSize := maxWorkers, maxQueueSize;
      pending, jobQueue, carriers, workerPool := jobs, [], [], [];
      workers := seq(maxWorkers, i requires 0 <= i => Worker(i, Registering));
      submitted, completed := jobs, multiset{};
      sent, registered, fetched := [], [], [];
    }

    method SendJob(job: Job)
      requires Enabled(View(), Submit(job))
      modifies `pending, `jobQueue, `sent
      ensures View() == Apply(old(View()), Submit(job))
      ensures pending == old(pending) - multiset{job} && jobQueue == old(jobQueue) + [job] && sent == old(sent) + [job]
    {
      pending := pending - multiset{job};
      jobQueue, sent := jobQueue + [job], sent + [job];
    }

    method HandJobOver(job: Job)
      requires Enabled(View(), HandOver(job))
      modifies `pending, `carriers, `sent
      ensures View() == Apply(old(View()), HandOver(job))
      ensures pending == old(pending) - multiset{job} && carriers == old(carriers) + [Fetching(job)]
      ensures sent == old(sent) + [job]
    {
      pending := pending - multiset{job};
      carriers, sent := carriers + [Fetching(job)], sent + [job];
    }

    method Dispatch()
      requires Enabled(View(), Take)
      modifies `jobQueue, `carriers
      ensures View() == Apply(old(View()), Take)
      ensures old(jobQueue) == [old(jobQueue)[0]] + jobQueue && carriers == old(carriers + [Fetching(jobQueue[0])])
    {
      var job := jobQueue[0];
      jobQueue := jobQueue[1..];
      carriers := carriers + [Fetching(job)];
    }

    method FetchChan(c: nat)
      requires Enabled(View(), Fetch(c))
      modifies `workerPool, `carriers, `fetched
      ensures View() == Apply(old(View()), Fetch(c))
      ensures old(workerPool) == [old(workerPool)[0]] + workerPool && fetched == old(fetched + [workerPool[0]])
      ensures carriers == old(carriers[c := Holding(carriers[c].job, workerPool[0])])
    {
      var availableWorkerJobChan := workerPool[0];
      workerPool, fetched := workerPool[1..], fetched + [availableWorkerJobChan];
      carriers := carriers[c := Holding(carriers[c].job, availableWorkerJobChan)];
    }

    method DeliverJob(c: nat)
      requires Enabled(View(), Deliver(c))
      modifies `carriers, `workers
      ensures View() == Apply(old(View()), Deliver(c))
      ensures carriers == old(carriers[c := Finished(carriers[c].job)])
      ensures workers == old(var w := carriers[c].chan;
                             workers[w := Worker(workers[w].jobChan, Running(carriers[c].job))])
    {
      var w, job := carriers[c].chan, carriers[c].job;
      carriers := carriers[c := Finished(job)];
      workers := workers[w := Moved(workers[w], Running(job))];
    }

    method RegisterWorker(w: nat)
      requires Enabled(View(), Register(w))
      modifies `workerPool, `workers, `registered
      ensures View() == Apply(old(View()), Register(w))
      ensures workerPool == old(workerPool + [workers[w].jobChan])
      ensures registered == old(registered + [workers[w].jobChan])
      ensures workers == old(workers[w := Worker(workers[w].jobChan, Selecting)])
    {
      workerPool, registered := workerPool + [workers[w].jobChan], registered + [workers[w].jobChan];
      workers := workers[w := Moved(workers[w], Selecting)];
    }

    method CompleteJob(w: nat)
      requires Enabled(View(), Complete(w))
      modifies `completed, `workers
      ensures View() == Apply(old(View()), Complete(w))
      ensures completed == old(completed + multiset{workers[w].phase.job})
      ensures workers == old(workers[w := Worker(workers[w].jobChan, Registering)])
    {
      completed := completed + multiset{workers[w].phase.job};
      workers := workers[w := Moved(workers[w], Registering)];
    }

    /** The scheduler lets some goroutine, any one that is not blocked, do its next channel operation. */
    method Turn() returns (moved: bool, ghost a: Action)
      modifies this
      ensures moved ==> Enabled(old(View()), a) && View() == Apply(old(View()), a)
      ensures !moved ==> View() == old(View()) && forall b :: !Enabled(View(), b)
    {
      moved, a := true, Take;
      var canFetch := workerPool != [] && exists c | 0 <= c < |carriers| :: carriers[c].Fetching?;
      var canDeliver := exists c | 0 <= c < |carriers| ::
        carriers[c].Holding? && carriers[c].chan < |workers| && workers[carriers[c].chan].phase == Selecting;
      var canRegister := |workerPool| < maxWorkers && exists w | 0 <= w < |workers| :: workers[w].phase == Registering;
      var canComplete := exists w | 0 <= w < |workers| :: workers[w].phase.Running?;
      if
      case pending != multiset{} && |jobQueue| < maxQueueSize =>
        var job :| job in pending;
        a := Submit(job);
        SendJob(job);
      case pending != multiset{} && jobQueue == [] =>
        var job :| job in pending;
        a := HandOver(job);
        HandJobOver(job);
      case jobQueue != [] =>
        Dispatch();
      case canFetch =>
        var c: nat :| c < |carriers| && carriers[c].Fetching?;
        a := Fetch(c);
        FetchChan(c);
      case canDeliver =>
        var c: nat :| c < |carriers| && carriers[c].Holding? && carriers[c].chan < |workers|
                      && workers[carriers[c].chan].phase == Selecting;
        a := Deliver(c);
        DeliverJob(c);
      case canRegister =>
        var w: nat :| w < |workers| && workers[w].phase == Registering;
        a := Register(w);
        RegisterWorker(w);
      case canComplete =>
        var w: nat :| w < |workers| && workers[w].phase.Running?;
        a := Complete(w);
        CompleteJob(w);
      case pending == multiset{} && jobQueue == [] && !canFetch && !canDeliver && !canRegister && !canComplete =>
        moved := false;
    }

    /** The program under an arbitrary scheduler, until every goroutine is blocked or gone. */
    method Run()
      requires maxWorkers >= 1 && View() == Init(maxWorkers, maxQueueSize, submitted)
      modifies this
      ensures completed == submitted && AllCompleted(View()) && Started(carriers) == sent
    {
      OwnedInitially(maxWorkers, maxQueueSize, submitted);
      var moved := true;
      while moved
        invariant Owned(View()) && InOrder(View())
        invariant !moved ==> forall b :: !Enabled(View(), b)
        decreases moved, Measure(View())
      {
        ghost var before := View();
        ghost var a;
        moved, a := Turn();
        if moved {
          ChannelsKept(before, a);
          JobsKept(before, a);
          InOrderKept(before, a);
          MeasureDrops(before, a);
        }
      }
      CompletedExactlyWhenStuck(View());
      assert Started(carriers) + [] == Started(carriers);
    }
  }
}
