/**
 The send queue: a bounded number of concurrent senders, and automatic retries with
 exponential backoff. Runs without cancel, remove or manual retry.
 */
module Scheduler {
  import opened Arithmetic

  type Id = string

  /** `attempts` is the number of the attempt the job is queued for. */
  datatype Job = Job(id: Id, attempts: nat)

  /** An active sender; without an E2EE session it first waits for a key. */
  datatype Sender = Sender(attempts: nat, pendingKey: bool)

  /** A scheduled retry: the job that the timer will put back into the queue. */
  datatype Retry = Retry(job: Job, delayMs: nat)

  /** `tasks` are all ids ever submitted, `done` the completed, rejected and failed ones, and
      `started` counts how often `startSendJob` ran for an id. */
  datatype State = State(
    queue: seq<Job>, active: map<Id, Sender>, retries: seq<Retry>, done: set<Id>,
    tasks: set<Id>, started: multiset<Id>, limit: nat)

  const MAX_RETRIES := 3
  const RETRY_BASE_DELAY_MS := 2000

  /** The delay before the given attempt: 4 s before the second, 8 s before the third. */
  function RetryDelay(attempt: nat): nat
    requires 1 <= attempt
  {
    RETRY_BASE_DELAY_MS * Pow2(attempt - 1)
  }

  const Initial := State([], map[], [], {}, {}, multiset{}, 3)

  // ---- Steps ----

  function Start(s: State, job: Job, hasKey: Id -> bool): State {
    s.(active := s.active[job.id := Sender(job.attempts, !hasKey(job.id))],
       started := s.started[job.id := s.started[job.id] + 1])
  }

  /** `pumpTransferQueue`. */
  function Pump(s: State, hasKey: Id -> bool): State
    decreases |s.queue|
  {
    if |s.active| < s.limit && s.queue != []
    then Pump(Start(s.(queue := s.queue[1..]), s.queue[0], hasKey), hasKey)
    else s
  }

  function Enqueue(s: State, ids: seq<Id>): State
    decreases |ids|
  {
    if ids == [] then s
    else Enqueue(s.(queue := s.queue + [Job(ids[0], 1)], tasks := s.tasks + {ids[0]}), ids[1..])
  }

  /** `sendFileData` queues one job per file, and then pumps. */
  function Submit(s: State, ids: seq<Id>, hasKey: Id -> bool): State {
    Pump(Enqueue(s, ids), hasKey)
  }

  /** The key exchange succeeded, or its five seconds are over: the sender connects. */
  function KeySettled(s: State, id: Id): State {
    if id in s.active then s.(active := s.active[id := s.active[id].(pendingKey := false)]) else s
  }

  /** `finalizeSender`, and `cleanupSender` after a FILE_REJECT. */
  function Close(s: State, id: Id, hasKey: Id -> bool): State {
    if id in s.active then Pump(s.(active := s.active - {id}, done := s.done + {id}), hasKey) else s
  }

  /** `handleSendFailure`: only the terminal branch pumps the queue. */
  function Fail(s: State, id: Id, hasKey: Id -> bool): State {
    if id !in s.active then s else
      var failed := s.active[id].attempts;
      var freed := s.(active := s.active - {id});
      if failed < MAX_RETRIES
      then freed.(retries := s.retries + [Retry(Job(id, failed + 1), RetryDelay(failed + 1))])
      else Pump(freed.(done := s.done + {id}), hasKey)
  }

  /** A retry timer fires: the job goes to the front of the queue. */
  function RetryDue(s: State, i: nat, hasKey: Id -> bool): State {
    if |s.retries| <= i then s else
      var job := s.retries[i].job;
      var rest := s.(retries := s.retries[..i] + s.retries[i + 1..]);
      if job.id in s.tasks then Pump(rest.(queue := [job] + s.queue), hasKey) else rest
  }

  function SetLimit(s: State, max: int, hasKey: Id -> bool): State {
    Pump(s.(limit := if max < 1 then 1 else max), hasKey)
  }

  // ---- The object ----

  class Manager {
    var queue: seq<Job>
    var active: map<Id, Sender>
    var retries: seq<Retry>
    var done: set<Id>
    var tasks: set<Id>
    var limit: nat
    ghost var started: multiset<Id>

    ghost function AsState(): State
      reads this
    {
      State(queue, active, retries, done, tasks, started, limit)
    }

    constructor ()
      ensures AsState() == Initial
    {
      queue, active, retries, done, tasks, limit, started := [], map[], [], {}, {}, 3, multiset{};
    }

    method StartSendJob(job: Job, hasKey: Id -> bool)
      modifies this
      ensures AsState() == Start(old(AsState()), job, hasKey)
    {
      active := active[job.id := Sender(job.attempts, !hasKey(job.id))];
      started := started[job.id := started[job.id] + 1];
    }

    method PumpTransferQueue(hasKey: Id -> bool)
      modifies this
      ensures AsState() == Pump(old(AsState()), hasKey)
    {
      while |active| < limit && queue != []
        invariant Pump(AsState(), hasKey) == Pump(old(AsState()), hasKey)
        decreases |queue|
      {
        var job := queue[0];
        queue := queue[1..];
        StartSendJob(job, hasKey);
      }
    }

    method SendFileData(ids: seq<Id>, hasKey: Id -> bool)
      modifies this
      ensures AsState() == Submit(old(AsState()), ids, hasKey)
    {
      var i := 0;
      assert ids[0..] == ids;
      while i < |ids|
        invariant 0 <= i <= |ids|
        invariant Enqueue(AsState(), ids[i..]) == Enqueue(old(AsState()), ids)
      {
        assert ids[i..][1..] == ids[i + 1..];
        tasks := tasks + {ids[i]};
        queue := queue + [Job(ids[i], 1)];
        i := i + 1;
      }
      PumpTransferQueue(hasKey);
    }

    method OnKeySettled(id: Id)
      modifies this
      ensures AsState() == KeySettled(old(AsState()), id)
    {
      if id in active {
        active := active[id := active[id].(pendingKey := false)];
      }
    }

    method CloseSender(id: Id, hasKey: Id -> bool)
      modifies this
      ensures AsState() == Close(old(AsState()), id, hasKey)
    {
      if id !in active {
        return;
      }
      active := active - {id};
      done := done + {id};
      PumpTransferQueue(hasKey);
    }

    method HandleSendFailure(id: Id, hasKey: Id -> bool)
      modifies this
      ensures AsState() == Fail(old(AsState()), id, hasKey)
    {
      if id !in active {
        return;
      }
      var failedAttempt := active[id].attempts;
      active := active - {id};
      if failedAttempt < MAX_RETRIES {
        var nextAttempt := failedAttempt + 1;
        retries := retries + [Retry(Job(id, nextAttempt), RetryDelay(nextAttempt))];
      } else {
        done := done + {id};
        PumpTransferQueue(hasKey);
      }
    }

    method OnRetryTimer(i: nat, hasKey: Id -> bool)
      modifies this
      ensures AsState() == RetryDue(old(AsState()), i, hasKey)
    {
      if |retries| <= i {
        return;
      }
      var job := retries[i].job;
      retries := retries[..i] + retries[i + 1..];
      if job.id in tasks {
        queue := [job] + queue;
        PumpTransferQueue(hasKey);
      }
    }

    method SetMaxConcurrentTransfers(max: int, hasKey: Id -> bool)
      modifies this
      ensures AsState() == SetLimit(old(AsState()), max, hasKey)
    {
      limit := if max < 1 then 1 else max;
      PumpTransferQueue(hasKey);
    }
  }

  // ---- Every run ----

  datatype Event =
    | Submitted(ids: seq<Id>, hasKey: Id -> bool)
    | Settled(id: Id)
    | Closed(id: Id, hasKey: Id -> bool)
    | Failed(id: Id, hasKey: Id -> bool)
    | Due(timer: nat, hasKey: Id -> bool)
    | Limited(max: int, hasKey: Id -> bool)

  predicate AllNew(ids: seq<Id>, tasks: set<Id>) {
    ids == [] || (ids[0] !in tasks && AllNew(ids[1..], tasks + {ids[0]}))
  }

  /** New ids are new: `sendFileData` disambiguates them. A sender waiting for its key has no
      socket, so it neither fails nor finishes. */
  predicate Enabled(s: State, e: Event) {
    match e
    case Submitted(ids, _) => AllNew(ids, s.tasks)
    case Settled(id) => id in s.active && s.active[id].pendingKey
    case Closed(id, _) => id in s.active && !s.active[id].pendingKey
    case Failed(id, _) => id in s.active && !s.active[id].pendingKey
    case Due(i, _) => i < |s.retries|
    case Limited(_, _) => true
  }

  function Step(s: State, e: Event): State {
    match e
    case Submitted(ids, hasKey) => Submit(s, ids, hasKey)
    case Settled(id) => KeySettled(s, id)
    case Closed(id, hasKey) => Close(s, id, hasKey)
    case Failed(id, hasKey) => Fail(s, id, hasKey)
    case Due(i, hasKey) => RetryDue(s, i, hasKey)
    case Limited(max, hasKey) => SetLimit(s, max, hasKey)
  }

  /** The state after the events, leaving out those that cannot happen. */
  function Run(events: seq<Event>): State {
    if events == [] then Initial
    else
      var s, e := Run(events[..|events| - 1]), events[|events| - 1];
      if Enabled(s, e) then Step(s, e) else s
  }

  // ---- Where a job is ----

  function InQueue(queue: seq<Job>, id: Id): nat {
    if queue == [] then 0 else (if queue[0].id == id then 1 else 0) + InQueue(queue[1..], id)
  }

  function InRetries(retries: seq<Retry>, id: Id): nat {
    if retries == [] then 0 else (if retries[0].job.id == id then 1 else 0) + InRetries(retries[1..], id)
  }

  /** In how many places the job `id` is. */
  function Places(s: State, id: Id): nat {
    InQueue(s.queue, id) + InRetries(s.retries, id)
    + (if id in s.active then 1 else 0) + (if id in s.done then 1 else 0)
  }

  /** Every submitted job is in exactly one place, and has been started as often as its attempt
      number says. */
  ghost predicate Accounted(s: State) {
    && (forall id :: Places(s, id) == if id in s.tasks then 1 else 0)
    && (forall job | job in s.queue :: 1 <= job.attempts <= MAX_RETRIES && s.started[job.id] == job.attempts - 1)
    && (forall r | r in s.retries ::
          && 1 < r.job.attempts <= MAX_RETRIES && s.started[r.job.id] == r.job.attempts - 1
          && r.delayMs == RetryDelay(r.job.attempts))
    && (forall id | id in s.active :: 1 <= s.active[id].attempts <= MAX_RETRIES && s.started[id] == s.active[id].attempts)
    && (forall id | id in s.done :: s.started[id] <= MAX_RETRIES)
    && (forall id | id !in s.tasks :: s.started[id] == 0)
  }

  /** No lost wakeup: a free slot beside a waiting job means that a retry timer is running,
      which will pump the queue. */
  predicate Awake(s: State) {
    1 <= s.limit && (|s.active| < s.limit && s.queue != [] ==> s.retries != [])
  }

  lemma {:induction false} InQueueAppend(q: seq<Job>, job: Job, id: Id)
    ensures InQueue(q + [job], id) == InQueue(q, id) + (if job.id == id then 1 else 0)
  {
    if q == [] {
      assert q + [job] == [job];
    } else {
      assert (q + [job])[1..] == q[1..] + [job];
      InQueueAppend(q[1..], job, id);
    }
  }

  lemma {:induction false} InRetriesAppend(q: seq<Retry>, r: Retry, id: Id)
    ensures InRetries(q + [r], id) == InRetries(q, id) + (if r.job.id == id then 1 else 0)
  {
    if q == [] {
      assert q + [r] == [r];
    } else {
      assert (q + [r])[1..] == q[1..] + [r];
      InRetriesAppend(q[1..], r, id);
    }
  }

  lemma {:induction false} InRetriesRemove(q: seq<Retry>, i: nat, id: Id)
    requires i < |q|
    ensures InRetries(q[..i] + q[i + 1..], id) == InRetries(q, id) - (if q[i].job.id == id then 1 else 0)
  {
    if i == 0 {
      assert q[..i] + q[i + 1..] == q[1..];
    } else {
      assert (q[..i] + q[i + 1..])[1..] == q[1..][..i - 1] + q[1..][i..];
      InRetriesRemove(q[1..], i - 1, id);
    }
  }

  lemma {:induction false} QueuedIsCounted(q: seq<Job>, job: Job)
    requires job in q
    ensures 1 <= InQueue(q, job.id)
  {
    if q[0] != job {
      QueuedIsCounted(q[1..], job);
    }
  }

  lemma {:induction false} RetryIsCounted(q: seq<Retry>, r: Retry)
    requires r in q
    ensures 1 <= InRetries(q, r.job.id)
  {
    if q[0] != r {
      RetryIsCounted(q[1..], r);
    }
  }

  /** Starting the first queued job. */
  lemma StartAccounted(s: State, hasKey: Id -> bool)
    requires Accounted(s) && s.queue != []
    ensures Accounted(Start(s.(queue := s.queue[1..]), s.queue[0], hasKey))
    ensures s.queue[0].id !in s.active
  {
    var job := s.queue[0];
    var s' := Start(s.(queue := s.queue[1..]), job, hasKey);
    assert Places(s, job.id) == 1;
    forall id ensures Places(s', id) == if id in s'.tasks then 1 else 0 {
      assert Places(s, id) == if id in s.tasks then 1 else 0;
    }
    forall j | j in s'.queue ensures s'.started[j.id] == j.attempts - 1 {
      QueuedIsCounted(s.queue[1..], j);
    }
    forall r | r in s'.retries ensures s'.started[r.job.id] == r.job.attempts - 1 {
      RetryIsCounted(s.retries, r);
    }
  }

  /** Pumping keeps every job accounted for, fills the free slots and no more, and leaves the
      retries, the terminal jobs and the limit alone. */
  lemma {:induction false} PumpKeeps(s: State, hasKey: Id -> bool)
    requires Accounted(s)
    ensures
      var s' := Pump(s, hasKey);
      && Accounted(s')
      && (|s'.active| < s.limit ==> s'.queue == [])
      && |s'.active| <= Max(|s.active|, s.limit)
      && s'.retries == s.retries && s'.done == s.done && s'.tasks == s.tasks && s'.limit == s.limit
      && Potential(s') <= Potential(s)
    decreases |s.queue|
  {
    if |s.active| < s.limit && s.queue != [] {
      var next := Start(s.(queue := s.queue[1..]), s.queue[0], hasKey);
      StartAccounted(s, hasKey);
      PumpKeeps(next, hasKey);
    }
  }

  /** What is left to happen: three units for a start still to come, two for an active sender
      and one for a running retry timer. */
  function Potential(s: State): int {
    3 * (MAX_RETRIES * |s.tasks| - |s.started|) + 2 * |s.active| + |s.retries|
  }

  lemma {:induction false} EnqueueKeeps(s: State, ids: seq<Id>)
    requires Accounted(s) && AllNew(ids, s.tasks)
    ensures
      var s' := Enqueue(s, ids);
      && Accounted(s')
      && s'.active == s.active && s'.retries == s.retries && s'.limit == s.limit
      && |s'.tasks| == |s.tasks| + |ids|
      && Potential(s') == Potential(s) + 3 * MAX_RETRIES * |ids|
    decreases |ids|
  {
    if ids != [] {
      var job := Job(ids[0], 1);
      var next := s.(queue := s.queue + [job], tasks := s.tasks + {ids[0]});
      forall id ensures Places(next, id) == if id in next.tasks then 1 else 0 {
        InQueueAppend(s.queue, job, id);
        assert Places(s, id) == if id in s.tasks then 1 else 0;
      }
      EnqueueKeeps(next, ids[1..]);
    }
  }

  /** An active sender leaves the active set for the terminal jobs. */
  lemma CloseAccounted(s: State, id: Id)
    requires Accounted(s) && id in s.active
    ensures Accounted(s.(active := s.active - {id}, done := s.done + {id}))
  {
    var s' := s.(active := s.active - {id}, done := s.done + {id});
    forall other ensures Places(s', other) == if other in s.tasks then 1 else 0 {
      assert Places(s, other) == if other in s.tasks then 1 else 0;
    }
  }

  lemma FailAccounted(s: State, s1: State, id: Id, r: Retry)
    requires Accounted(s) && id in s.active && s.active[id].attempts < MAX_RETRIES
    requires r.job == Job(id, s.active[id].attempts + 1) && r.delayMs == RetryDelay(r.job.attempts)
    requires s1 == s.(active := s.active - {id}, retries := s.retries + [r])
    ensures Accounted(s1)
  {
    forall other ensures Places(s1, other) == if other in s.tasks then 1 else 0 {
      InRetriesAppend(s.retries, r, other);
      assert Places(s, other) == if other in s.tasks then 1 else 0;
    }
  }

  lemma DueAccounted(s: State, i: nat)
    requires Accounted(s) && i < |s.retries|
    ensures s.retries[i].job.id in s.tasks
    ensures Accounted(s.(retries := s.retries[..i] + s.retries[i + 1..], queue := [s.retries[i].job] + s.queue))
  {
    var job := s.retries[i].job;
    RetryIsCounted(s.retries, s.retries[i]);
    assert Places(s, job.id) == if job.id in s.tasks then 1 else 0;
    var s' := s.(retries := s.retries[..i] + s.retries[i + 1..], queue := [job] + s.queue);
    forall other ensures Places(s', other) == if other in s.tasks then 1 else 0 {
      InRetriesRemove(s.retries, i, other);
      assert Places(s, other) == if other in s.tasks then 1 else 0;
    }
    assert s.retries[i] in s.retries;
    forall r | r in s'.retries ensures r in s.retries {
    }
  }

  /** The events that move a job on; each uses up some of what is left to happen. */
  predicate Progresses(e: Event) {
    e.Closed? || e.Failed? || e.Due?
  }

  /** The numbers that every step keeps: no lost wakeup, no senders beyond the limit that were
      not there before, and less left to happen. */
  predicate Counts(s: State, s': State, progress: bool) {
    && Awake(s')
    && |s'.active| <= Max(|s.active|, s'.limit)
    && if progress then Potential(s') < Potential(s) && s'.tasks == s.tasks
       else Potential(s') - 3 * MAX_RETRIES * |s'.tasks| <= Potential(s) - 3 * MAX_RETRIES * |s.tasks|
  }

  /** What one step keeps. */
  ghost predicate Keeps(s: State, s': State, progress: bool) {
    Accounted(s') && Counts(s, s', progress)
  }

  lemma SubmitKept(s: State, ids: seq<Id>, hasKey: Id -> bool)
    requires Accounted(s) && Awake(s) && AllNew(ids, s.tasks)
    ensures Keeps(s, Submit(s, ids, hasKey), false)
  {
    EnqueueKeeps(s, ids);
    PumpKeeps(Enqueue(s, ids), hasKey);
  }

  lemma SettledAccounted(s: State, id: Id)
    requires Accounted(s)
    ensures Accounted(KeySettled(s, id))
  {
    var s' := KeySettled(s, id);
    forall other ensures Places(s', other) == if other in s.tasks then 1 else 0 {
      assert Places(s, other) == if other in s.tasks then 1 else 0;
    }
  }

  lemma SettledCounts(s: State, id: Id)
    requires Awake(s)
    ensures Counts(s, KeySettled(s, id), false)
  {
    var s' := KeySettled(s, id);
    assert s'.active.Keys == s.active.Keys;
    assert |s'.active| == |s'.active.Keys| == |s.active|;
  }

  lemma CloseKept(s: State, id: Id, hasKey: Id -> bool)
    requires Accounted(s) && Awake(s) && id in s.active
    ensures Keeps(s, Close(s, id, hasKey), true)
  {
    CloseAccounted(s, id);
    PumpRemoved(s, s.(active := s.active - {id}, done := s.done + {id}), id, hasKey);
  }

  lemma PumpRemoved(s: State, s1: State, id: Id, hasKey: Id -> bool)
    requires Accounted(s1) && Awake(s) && id in s.active
    requires s1 == s.(active := s.active - {id}, done := s.done + {id})
    ensures Keeps(s, Pump(s1, hasKey), true)
  {
    RemoveOne(s.active, id);
    PumpKeeps(s1, hasKey);
  }

  lemma RetryCounts(s: State, s1: State, id: Id, r: Retry)
    requires Awake(s) && id in s.active
    requires s1 == s.(active := s.active - {id}, retries := s.retries + [r])
    ensures Counts(s, s1, true)
  {
    RemoveOne(s.active, id);
  }

  lemma RetryKept(s: State, id: Id, hasKey: Id -> bool)
    requires Accounted(s) && Awake(s) && id in s.active && s.active[id].attempts < MAX_RETRIES
    ensures Keeps(s, Fail(s, id, hasKey), true)
  {
    var next := s.active[id].attempts + 1;
    var r := Retry(Job(id, next), RetryDelay(next));
    FailAccounted(s, Fail(s, id, hasKey), id, r);
    RetryCounts(s, Fail(s, id, hasKey), id, r);
  }

  lemma LastFailureCloses(s: State, id: Id, hasKey: Id -> bool)
    requires id in s.active && MAX_RETRIES <= s.active[id].attempts
    ensures Fail(s, id, hasKey) == Close(s, id, hasKey)
  {
  }

  lemma FailKept(s: State, id: Id, hasKey: Id -> bool)
    requires Accounted(s) && Awake(s) && id in s.active
    ensures Keeps(s, Fail(s, id, hasKey), true)
  {
    if s.active[id].attempts < MAX_RETRIES {
      RetryKept(s, id, hasKey);
    } else {
      CloseKept(s, id, hasKey);
      LastFailureCloses(s, id, hasKey);
    }
  }

  lemma DueKept(s: State, i: nat, hasKey: Id -> bool)
    requires Accounted(s) && Awake(s) && i < |s.retries|
    ensures Keeps(s, RetryDue(s, i, hasKey), true)
  {
    DueAccounted(s, i);
    PumpKeeps(s.(retries := s.retries[..i] + s.retries[i + 1..], queue := [s.retries[i].job] + s.queue), hasKey);
  }

  lemma LimitKept(s: State, max: int, hasKey: Id -> bool)
    requires Accounted(s) && Awake(s)
    ensures Keeps(s, SetLimit(s, max, hasKey), false)
  {
    var s1 := s.(limit := if max < 1 then 1 else max);
    LimitAccounted(s, s1);
    PumpKeeps(s1, hasKey);
  }

  lemma LimitAccounted(s: State, s1: State)
    requires Accounted(s) && s1 == s.(limit := s1.limit)
    ensures Accounted(s1)
  {
    forall id ensures Places(s1, id) == Places(s, id) {
    }
  }

  lemma StepKeeps(s: State, e: Event)
    requires Accounted(s) && Awake(s) && Enabled(s, e)
    ensures Keeps(s, Step(s, e), Progresses(e))
  {
    match e
    case Submitted(ids, hasKey) => SubmitKept(s, ids, hasKey);
    case Settled(id) => SettledAccounted(s, id); SettledCounts(s, id);
    case Closed(id, hasKey) => CloseKept(s, id, hasKey);
    case Failed(id, hasKey) => FailKept(s, id, hasKey);
    case Due(i, hasKey) => DueKept(s, i, hasKey);
    case Limited(max, hasKey) => LimitKept(s, max, hasKey);
  }

  lemma RemoveOne(m: map<Id, Sender>, id: Id)
    requires id in m
    ensures |m - {id}| == |m| - 1
  {
    assert (m - {id}).Keys == m.Keys - {id};
  }

  /** How many of the events moved a job on. */
  function Moves(events: seq<Event>): nat {
    if events == [] then 0
    else
      var before, e := events[..|events| - 1], events[|events| - 1];
      Moves(before) + (if Enabled(Run(before), e) && Progresses(e) then 1 else 0)
  }

  lemma {:induction false} RunKeeps(events: seq<Event>)
    ensures Accounted(Run(events)) && Awake(Run(events))
    ensures Moves(events) + Potential(Run(events)) <= 3 * MAX_RETRIES * |Run(events).tasks|
  {
    if events == [] {
      InitialAccounted();
    } else {
      var before, e := events[..|events| - 1], events[|events| - 1];
      RunKeeps(before);
      if Enabled(Run(before), e) {
        StepKeeps(Run(before), e);
      }
    }
  }

  predicate Unlimited(events: seq<Event>) {
    forall i | 0 <= i < |events| :: !events[i].Limited?
  }

  lemma {:induction false} LimitIsRespected(events: seq<Event>)
    requires Unlimited(events)
    ensures Run(events).limit == Initial.limit && |Run(events).active| <= Initial.limit
  {
    if events != [] {
      var before, e := events[..|events| - 1], events[|events| - 1];
      LimitIsRespected(before);
      RunKeeps(before);
      if Enabled(Run(before), e) {
        StepKeeps(Run(before), e);
        LimitStays(Run(before), e);
      }
    }
  }

  lemma InitialAccounted()
    ensures Accounted(Initial)
  {
    forall id ensures Places(Initial, id) == 0 {
    }
  }

  lemma {:induction false} PumpKeepsLimit(s: State, hasKey: Id -> bool)
    ensures Pump(s, hasKey).limit == s.limit
    decreases |s.queue|
  {
    if |s.active| < s.limit && s.queue != [] {
      PumpKeepsLimit(Start(s.(queue := s.queue[1..]), s.queue[0], hasKey), hasKey);
    }
  }

  lemma {:induction false} EnqueueKeepsLimit(s: State, ids: seq<Id>)
    ensures Enqueue(s, ids).limit == s.limit
    decreases |ids|
  {
    if ids != [] {
      EnqueueKeepsLimit(s.(queue := s.queue + [Job(ids[0], 1)], tasks := s.tasks + {ids[0]}), ids[1..]);
    }
  }

  lemma LimitStays(s: State, e: Event)
    requires Enabled(s, e) && !e.Limited?
    ensures Step(s, e).limit == s.limit
  {
    match e
    case Submitted(ids, hasKey) =>
      EnqueueKeepsLimit(s, ids);
      PumpKeepsLimit(Enqueue(s, ids), hasKey);
    case Settled(id) =>
    case Closed(id, hasKey) => PumpKeepsLimit(s.(active := s.active - {id}, done := s.done + {id}), hasKey);
    case Failed(id, hasKey) => PumpKeepsLimit(s.(active := s.active - {id}, done := s.done + {id}), hasKey);
    case Due(i, hasKey) =>
      PumpKeepsLimit(s.(retries := s.retries[..i] + s.retries[i + 1..], queue := [s.retries[i].job] + s.queue), hasKey);
  }

  // ---- The limit ----

  /** The highest limit that was in force during the run. */
  function HighestLimit(events: seq<Event>): nat {
    if events == [] then Initial.limit
    else Max(HighestLimit(events[..|events| - 1]), Run(events).limit)
  }

  lemma {:induction false} WithinHighestLimit(events: seq<Event>)
    ensures |Run(events).active| <= HighestLimit(events)
    ensures Unlimited(events) ==> HighestLimit(events) == Initial.limit
  {
    if events != [] {
      var before, e := events[..|events| - 1], events[|events| - 1];
      WithinHighestLimit(before);
      RunKeeps(before);
      if Enabled(Run(before), e) {
        StepKeeps(Run(before), e);
      }
      if Unlimited(events) {
        LimitIsRespected(events);
      }
    }
  }

  /** The senders that a step does not end. */
  function Survivors(s: State, e: Event): set<Id> {
    if e.Closed? || e.Failed? then s.active.Keys - {e.id} else s.active.Keys
  }

  /** More senders than the limit: pumping did nothing. */
  lemma PumpOverLimit(s: State, hasKey: Id -> bool)
    requires Accounted(s)
    ensures s.limit < |Pump(s, hasKey).active| <==> s.limit < |s.active|
    ensures s.limit < |s.active| ==> Pump(s, hasKey) == s
  {
    PumpKeeps(s, hasKey);
  }

  /** `s'` has more senders than its limit exactly when the survivors alone are more; they are
      then all there are. */
  predicate OverLimit(s: State, survivors: set<Id>, s': State) {
    && (s'.limit < |s'.active| <==> s'.limit < |survivors|)
    && (s'.limit < |s'.active| ==> s'.active.Keys == survivors && s'.started == s.started)
  }

  lemma PumpedOverLimit(s: State, freed: State, hasKey: Id -> bool)
    requires Accounted(freed) && freed.started == s.started
    ensures OverLimit(s, freed.active.Keys, Pump(freed, hasKey))
  {
    PumpKeeps(freed, hasKey);
    PumpOverLimit(freed, hasKey);
  }

  lemma {:induction false} EnqueueStartsNone(s: State, ids: seq<Id>)
    ensures Enqueue(s, ids).started == s.started
    decreases |ids|
  {
    if ids != [] {
      EnqueueStartsNone(s.(queue := s.queue + [Job(ids[0], 1)], tasks := s.tasks + {ids[0]}), ids[1..]);
    }
  }

  lemma ClosedOverLimit(s: State, id: Id, hasKey: Id -> bool)
    requires Accounted(s) && id in s.active
    ensures OverLimit(s, s.active.Keys - {id}, Close(s, id, hasKey))
    ensures OverLimit(s, s.active.Keys - {id}, Fail(s, id, hasKey))
  {
    CloseAccounted(s, id);
    assert (s.active - {id}).Keys == s.active.Keys - {id};
    PumpedOverLimit(s, s.(active := s.active - {id}, done := s.done + {id}), hasKey);
  }

  lemma DueOverLimit(s: State, i: nat, hasKey: Id -> bool)
    requires Accounted(s) && i < |s.retries|
    ensures OverLimit(s, s.active.Keys, RetryDue(s, i, hasKey))
  {
    DueAccounted(s, i);
    PumpedOverLimit(s, s.(retries := s.retries[..i] + s.retries[i + 1..], queue := [s.retries[i].job] + s.queue), hasKey);
  }

  lemma SubmittedOverLimit(s: State, ids: seq<Id>, hasKey: Id -> bool)
    requires Accounted(s) && AllNew(ids, s.tasks)
    ensures OverLimit(s, s.active.Keys, Submit(s, ids, hasKey))
  {
    EnqueueKeeps(s, ids);
    EnqueueStartsNone(s, ids);
    PumpedOverLimit(s, Enqueue(s, ids), hasKey);
  }

  /** A step ends with more senders than its limit if and only if those it did not end are more,
      which takes a limit lowered before; and then it starts none. */
  lemma OverLimitStartsNone(s: State, e: Event)
    requires Accounted(s) && Enabled(s, e)
    ensures OverLimit(s, Survivors(s, e), Step(s, e))
  {
    match e
    case Submitted(ids, hasKey) => SubmittedOverLimit(s, ids, hasKey);
    case Settled(id) => assert KeySettled(s, id).active.Keys == s.active.Keys;
    case Closed(id, hasKey) => ClosedOverLimit(s, id, hasKey);
    case Failed(id, hasKey) => ClosedOverLimit(s, id, hasKey);
    case Due(i, hasKey) => DueOverLimit(s, i, hasKey);
    case Limited(max, hasKey) =>
      var s1 := s.(limit := if max < 1 then 1 else max);
      LimitAccounted(s, s1);
      PumpedOverLimit(s, s1, hasKey);
  }

  lemma TwoAreQueued(a: Id, b: Id)
    requires a != b
    ensures AllNew([a, b], {})
    ensures Enqueue(Initial, [a, b]) == Initial.(queue := [Job(a, 1), Job(b, 1)], tasks := {a, b})
  {
    var one := Initial.(queue := [Job(a, 1)], tasks := {a});
    var two := Initial.(queue := [Job(a, 1), Job(b, 1)], tasks := {a, b});
    assert Initial.queue + [Job(a, 1)] == one.queue && Initial.tasks + {a} == one.tasks && [a, b][1..] == [b];
    assert one.queue + [Job(b, 1)] == two.queue && one.tasks + {b} == two.tasks && [b][1..] == [];
    assert Enqueue(Initial, [a, b]) == Enqueue(one, [b]) == Enqueue(two, []) == two;
  }

  lemma TwoStart(s: State, a: Id, b: Id, h: Id -> bool)
    requires a != b && s.active == map[] && s.queue == [Job(a, 1), Job(b, 1)] && 2 <= s.limit
    ensures Pump(s, h).active.Keys == {a, b} && Pump(s, h).queue == []
  {
    var one := Start(s.(queue := s.queue[1..]), s.queue[0], h);
    assert one.active.Keys == {a} && |one.active| == |one.active.Keys|;
    var two := Start(one.(queue := one.queue[1..]), one.queue[0], h);
    assert two.active.Keys == {a, b};
    assert Pump(s, h) == Pump(one, h) == Pump(two, h) == two;
  }

  lemma RunTwo(e: Event, f: Event)
    requires Enabled(Initial, e) && Enabled(Step(Initial, e), f)
    ensures Run([e, f]) == Step(Step(Initial, e), f)
  {
    assert [e, f][..1] == [e] && [e][..0] == [];
    assert Run([e]) == Step(Initial, e);
  }

  lemma LoweredBelow(s: State, h: Id -> bool)
    requires 2 == |s.active|
    ensures SetLimit(s, 1, h) == s.(limit := 1)
  {
  }

  /** The input: two senders run, and the limit is lowered to one. */
  lemma LoweringLeavesTwo(a: Id, b: Id, h: Id -> bool)
    requires a != b
    ensures
      var s := Run([Submitted([a, b], h), Limited(1, h)]);
      s.active.Keys == {a, b} && |s.active| == 2 && s.limit == 1
  {
    TwoAreQueued(a, b);
    TwoStart(Enqueue(Initial, [a, b]), a, b, h);
    var s := Submit(Initial, [a, b], h);
    assert |s.active| == |s.active.Keys| == 2;
    RunTwo(Submitted([a, b], h), Limited(1, h));
    LoweredBelow(s, h);
  }

  // ---- Order ----

  /** The job is an active sender with its own attempt. */
  predicate Running(s: State, job: Job, hasKey: Id -> bool) {
    job.id in s.active && s.active[job.id] == Sender(job.attempts, !hasKey(job.id))
  }

  /** A sender that is active stays so while the queue is pumped. */
  lemma {:induction false} PumpKeepsRunning(s: State, hasKey: Id -> bool, job: Job)
    requires Accounted(s) && Running(s, job, hasKey)
    ensures Running(Pump(s, hasKey), job, hasKey)
    decreases |s.queue|
  {
    if |s.active| < s.limit && s.queue != [] {
      StartAccounted(s, hasKey);
      PumpKeepsRunning(Start(s.(queue := s.queue[1..]), s.queue[0], hasKey), hasKey, job);
    }
  }

  /** `s'` comes from `s` by starting the first `k` jobs of the queue; the others wait only when
      no slot is free. */
  predicate StartedFirst(s: State, hasKey: Id -> bool, k: nat, s': State) {
    && k <= |s.queue| && s'.queue == s.queue[k..]
    && (|s.active| < s.limit && s.queue != [] ==> 0 < k)
    && (k < |s.queue| ==> s.limit <= |s'.active|)
    && forall job | job in s.queue[..k] :: Running(s', job, hasKey)
  }

  lemma StartedOneMore(s: State, hasKey: Id -> bool, k: nat, s': State)
    requires s.queue != []
    requires StartedFirst(Start(s.(queue := s.queue[1..]), s.queue[0], hasKey), hasKey, k, s')
    requires Running(s', s.queue[0], hasKey)
    ensures StartedFirst(s, hasKey, k + 1, s')
  {
    assert s.queue[..k + 1] == [s.queue[0]] + s.queue[1..][..k];
  }

  /** Jobs start in the order of the queue, each with its own attempt. */
  lemma {:induction false} PumpStartsInOrder(s: State, hasKey: Id -> bool) returns (k: nat)
    requires Accounted(s)
    ensures StartedFirst(s, hasKey, k, Pump(s, hasKey))
    decreases |s.queue|
  {
    k := 0;
    if |s.active| < s.limit && s.queue != [] {
      var next := Start(s.(queue := s.queue[1..]), s.queue[0], hasKey);
      StartAccounted(s, hasKey);
      PumpKeepsRunning(next, hasKey, s.queue[0]);
      k := PumpStartsInOrder(next, hasKey);
      StartedOneMore(s, hasKey, k, Pump(s, hasKey));
      k := k + 1;
    }
  }

  /** A retry that is due goes ahead of every job that waits: with a free slot it starts at once. */
  lemma DueStartsFirst(s: State, i: nat, hasKey: Id -> bool)
    requires Accounted(s) && i < |s.retries| && |s.active| < s.limit
    ensures Running(RetryDue(s, i, hasKey), s.retries[i].job, hasKey)
  {
    DueAccounted(s, i);
    var job := s.retries[i].job;
    var queued := s.(retries := s.retries[..i] + s.retries[i + 1..], queue := [job] + s.queue);
    var k := PumpStartsInOrder(queued, hasKey);
    assert queued.queue[0] == job && job == queued.queue[..k][0];
  }

  lemma DelayOfAttempt(s: State, r: Retry)
    requires Accounted(s) && r in s.retries
    ensures (r.job.attempts == 2 && r.delayMs == 4000) || (r.job.attempts == 3 && r.delayMs == 8000)
  {
    assert RetryDelay(2) == 4000 && RetryDelay(3) == 8000;
  }

  /** The second attempt waits four seconds and the third eight. */
  lemma BackoffDoubles(events: seq<Event>, s: State, r: Retry)
    requires s == Run(events) && r in s.retries
    ensures (r.job.attempts == 2 && r.delayMs == 4000) || (r.job.attempts == 3 && r.delayMs == 8000)
  {
    RunKeeps(events);
    DelayOfAttempt(s, r);
  }

  // ---- What becomes of a job ----

  lemma DelayAfter(attempts: nat)
    requires 1 <= attempts < MAX_RETRIES
    ensures RetryDelay(attempts + 1) == 4000 * attempts
  {
    assert RetryDelay(2) == 4000 && RetryDelay(3) == 8000;
  }

  lemma NowhereElse(s: State, id: Id)
    requires Accounted(s) && id in s.active
    ensures id !in s.done && InQueue(s.queue, id) == 0 && InRetries(s.retries, id) == 0
  {
    assert Places(s, id) == if id in s.tasks then 1 else 0;
  }

  lemma RetryIsAdded(retries: seq<Retry>, r: Retry)
    ensures r in retries + [r]
  {
    assert (retries + [r])[|retries|] == r;
  }

  /** A failed sender that has attempts left is retried: its next attempt waits for its timer, and
      the job is not terminal. */
  lemma FailureIsRetried(s: State, id: Id, hasKey: Id -> bool)
    requires Accounted(s) && Enabled(s, Failed(id, hasKey)) && s.started[id] < MAX_RETRIES
    ensures
      var t := Step(s, Failed(id, hasKey));
      && id !in t.done && id !in t.active && InQueue(t.queue, id) == 0
      && Retry(Job(id, s.started[id] + 1), 4000 * s.started[id]) in t.retries
      && t.active.Keys == s.active.Keys - {id} && t.queue == s.queue
  {
    NowhereElse(s, id);
    assert s.active[id].attempts == s.started[id];
    DelayAfter(s.started[id]);
    RetryIsAdded(s.retries, Retry(Job(id, s.started[id] + 1), 4000 * s.started[id]));
  }

  lemma {:induction false} EnqueueKeepsDone(s: State, ids: seq<Id>)
    ensures Enqueue(s, ids).done == s.done
    decreases |ids|
  {
    if ids != [] {
      EnqueueKeepsDone(s.(queue := s.queue + [Job(ids[0], 1)], tasks := s.tasks + {ids[0]}), ids[1..]);
    }
  }

  lemma {:induction false} PumpKeepsDone(s: State, hasKey: Id -> bool)
    ensures Pump(s, hasKey).done == s.done
    decreases |s.queue|
  {
    if |s.active| < s.limit && s.queue != [] {
      PumpKeepsDone(Start(s.(queue := s.queue[1..]), s.queue[0], hasKey), hasKey);
    }
  }

  /** The job that the step makes terminal: one whose sender closes, or fails for the last time. */
  function Ended(s: State, e: Event): set<Id>
    requires Enabled(s, e)
  {
    if e.Closed? || (e.Failed? && MAX_RETRIES <= s.active[e.id].attempts) then {e.id} else {}
  }

  lemma DoneAfter(s: State, e: Event)
    requires Enabled(s, e)
    ensures Step(s, e).done == s.done + Ended(s, e)
  {
    match e
    case Submitted(ids, hasKey) =>
      EnqueueKeepsDone(s, ids);
      PumpKeepsDone(Enqueue(s, ids), hasKey);
    case Settled(_) =>
    case Closed(id, hasKey) => PumpKeepsDone(s.(active := s.active - {id}, done := s.done + {id}), hasKey);
    case Failed(id, hasKey) => PumpKeepsDone(s.(active := s.active - {id}, done := s.done + {id}), hasKey);
    case Due(i, hasKey) =>
      PumpKeepsDone(s.(retries := s.retries[..i] + s.retries[i + 1..], queue := [s.retries[i].job] + s.queue), hasKey);
    case Limited(max, hasKey) => PumpKeepsDone(s.(limit := if max < 1 then 1 else max), hasKey);
  }

  lemma {:induction false} PumpSparesTheDone(s: State, hasKey: Id -> bool, id: Id)
    requires Accounted(s) && id in s.done
    ensures Pump(s, hasKey).started[id] == s.started[id]
    decreases |s.queue|
  {
    if |s.active| < s.limit && s.queue != [] {
      assert Places(s, id) == if id in s.tasks then 1 else 0;
      StartAccounted(s, hasKey);
      PumpSparesTheDone(Start(s.(queue := s.queue[1..]), s.queue[0], hasKey), hasKey, id);
    }
  }

  lemma ClosedSparesTheDone(s: State, other: Id, hasKey: Id -> bool, id: Id)
    requires Accounted(s) && other in s.active && (id in s.done || id == other)
    ensures Close(s, other, hasKey).started[id] == s.started[id] == Fail(s, other, hasKey).started[id]
  {
    CloseAccounted(s, other);
    PumpSparesTheDone(s.(active := s.active - {other}, done := s.done + {other}), hasKey, id);
  }

  /** A terminal job is never started again. */
  lemma TerminalStays(s: State, e: Event, id: Id)
    requires Accounted(s) && Enabled(s, e) && id in s.done
    ensures Step(s, e).started[id] == s.started[id]
  {
    match e
    case Submitted(ids, hasKey) =>
      EnqueueKeeps(s, ids);
      EnqueueKeepsDone(s, ids);
      EnqueueStartsNone(s, ids);
      PumpSparesTheDone(Enqueue(s, ids), hasKey, id);
    case Settled(_) =>
    case Closed(other, hasKey) => ClosedSparesTheDone(s, other, hasKey, id);
    case Failed(other, hasKey) => ClosedSparesTheDone(s, other, hasKey, id);
    case Due(i, hasKey) =>
      DueAccounted(s, i);
      PumpSparesTheDone(s.(retries := s.retries[..i] + s.retries[i + 1..], queue := [s.retries[i].job] + s.queue), hasKey, id);
    case Limited(max, hasKey) =>
      var s1 := s.(limit := if max < 1 then 1 else max);
      LimitAccounted(s, s1);
      PumpSparesTheDone(s1, hasKey, id);
  }

  /** The sender of the job finished, or was rejected, during the run. */
  predicate WasClosed(events: seq<Event>, id: Id) {
    events != [] &&
    var before, e := events[..|events| - 1], events[|events| - 1];
    WasClosed(before, id) || (Enabled(Run(before), e) && e.Closed? && e.id == id)
  }

  lemma TerminalStep(s: State, e: Event, id: Id)
    requires Accounted(s) && Enabled(s, e)
    ensures id in s.done ==> id in Step(s, e).done && Step(s, e).started[id] == s.started[id]
    ensures id in Step(s, e).done && id !in s.done ==>
      (e.Closed? && e.id == id) || Step(s, e).started[id] == MAX_RETRIES
    ensures e.Closed? && e.id == id ==> id in Step(s, e).done
  {
    DoneAfter(s, e);
    if id in s.done {
      TerminalStays(s, e, id);
    } else if e.Failed? && e.id == id {
      ClosedSparesTheDone(s, id, e.hasKey, id);
    }
  }

  /** Over every run: a job that was closed is terminal, and one that is terminal was closed or has
      been started three times. */
  lemma {:induction false} TerminalExactly(events: seq<Event>, id: Id)
    ensures id in Run(events).done ==> WasClosed(events, id) || Run(events).started[id] == MAX_RETRIES
    ensures WasClosed(events, id) ==> id in Run(events).done
  {
    if events != [] {
      var before, e := events[..|events| - 1], events[|events| - 1];
      TerminalExactly(before, id);
      RunKeeps(before);
      if Enabled(Run(before), e) {
        TerminalStep(Run(before), e, id);
      }
    }
  }

  lemma RunOneMore(events: seq<Event>, e: Event)
    ensures Run(events + [e]) == if Enabled(Run(events), e) then Step(Run(events), e) else Run(events)
  {
    assert (events + [e])[..|events|] == events;
  }

  lemma TerminalOnceMore(events: seq<Event>, e: Event, id: Id)
    requires id in Run(events).done
    ensures id in Run(events + [e]).done && Run(events + [e]).started[id] == Run(events).started[id]
  {
    RunOneMore(events, e);
    RunKeeps(events);
    if Enabled(Run(events), e) {
      TerminalStep(Run(events), e, id);
    }
  }

  /** Over every run: what is terminal stays so, and is not started again, whatever follows. */
  lemma {:induction false} TerminalForGood(events: seq<Event>, more: seq<Event>, id: Id)
    requires id in Run(events).done
    ensures id in Run(events + more).done && Run(events + more).started[id] == Run(events).started[id]
    decreases |more|
  {
    if more == [] {
      assert events + more == events;
    } else {
      TerminalOnceMore(events, more[0], id);
      TerminalForGood(events + [more[0]], more[1..], id);
      assert events + [more[0]] + more[1..] == events + more;
    }
  }

  /** The key exchange, or its end, lets the sender go on, and touches nothing else. */
  lemma KeyEndsTheWaiting(s: State, id: Id)
    requires Enabled(s, Settled(id))
    ensures !Enabled(s, Closed(id, _ => true)) && Enabled(Step(s, Settled(id)), Closed(id, _ => true))
    ensures Step(s, Settled(id)).active == s.active[id := Sender(s.active[id].attempts, false)]
    ensures Step(s, Settled(id)) == s.(active := Step(s, Settled(id)).active)
  {
  }

  /** A new limit is taken, at least one, and its slots are filled at once. */
  lemma LimitTakesEffect(s: State, max: int, hasKey: Id -> bool)
    requires Accounted(s)
    ensures
      var t := Step(s, Limited(max, hasKey));
      && (1 <= max ==> t.limit == max) && (max < 1 ==> t.limit == 1)
      && (t.queue != [] ==> t.limit <= |t.active|)
  {
    var lowered := s.(limit := if max < 1 then 1 else max);
    LimitAccounted(s, lowered);
    PumpFills(lowered, hasKey);
  }

  lemma PumpFills(s: State, hasKey: Id -> bool)
    requires Accounted(s)
    ensures Pump(s, hasKey).limit == s.limit && (Pump(s, hasKey).queue != [] ==> s.limit <= |Pump(s, hasKey).active|)
  {
    PumpKeeps(s, hasKey);
  }

  function FirstAttempts(ids: seq<Id>): (jobs: seq<Job>)
    ensures |jobs| == |ids| && forall i | 0 <= i < |ids| :: jobs[i] == Job(ids[i], 1)
  {
    seq(|ids|, i requires 0 <= i < |ids| => Job(ids[i], 1))
  }

  lemma {:induction false} EnqueueAppends(s: State, ids: seq<Id>)
    ensures Enqueue(s, ids).queue == s.queue + FirstAttempts(ids)
    decreases |ids|
  {
    if ids != [] {
      EnqueueAppends(s.(queue := s.queue + [Job(ids[0], 1)], tasks := s.tasks + {ids[0]}), ids[1..]);
      assert FirstAttempts(ids) == [Job(ids[0], 1)] + FirstAttempts(ids[1..]);
    }
  }

  /** New jobs queue up behind the others, in the order of the files, and start when it is their
      turn. */
  lemma SubmittedQueueUp(s: State, ids: seq<Id>, hasKey: Id -> bool) returns (k: nat)
    requires Accounted(s) && AllNew(ids, s.tasks)
    ensures StartedFirst(s.(queue := s.queue + FirstAttempts(ids)), hasKey, k, Step(s, Submitted(ids, hasKey)))
  {
    EnqueueKeeps(s, ids);
    EnqueueAppends(s, ids);
    k := PumpStartsInOrder(Enqueue(s, ids), hasKey);
  }

  // ---- Bounds ----

  lemma {:induction false} StartsAreBounded(started: multiset<Id>, tasks: set<Id>)
    requires forall id :: started[id] <= if id in tasks then MAX_RETRIES else 0
    ensures |started| <= MAX_RETRIES * |tasks|
    decreases |tasks|
  {
    if tasks == {} {
      assert started == multiset{};
    } else {
      var id :| id in tasks;
      var fewer := started[id := 0];
      StartsAreBounded(fewer, tasks - {id});
      assert |started| == |fewer| + started[id];
    }
  }

  lemma StartsPerJob(s: State, id: Id)
    requires Accounted(s)
    ensures s.started[id] <= if id in s.tasks then MAX_RETRIES else 0
  {
    assert Places(s, id) == if id in s.tasks then 1 else 0;
    if id in s.tasks && id !in s.active && id !in s.done {
      if InQueue(s.queue, id) == 1 {
        var job := FindQueued(s.queue, id);
      } else {
        var r := FindRetry(s.retries, id);
      }
    }
  }

  lemma {:induction false} FindQueued(q: seq<Job>, id: Id) returns (job: Job)
    requires InQueue(q, id) != 0
    ensures job in q && job.id == id
  {
    job := q[0];
    if job.id != id {
      job := FindQueued(q[1..], id);
    }
  }

  lemma {:induction false} FindRetry(q: seq<Retry>, id: Id) returns (r: Retry)
    requires InRetries(q, id) != 0
    ensures r in q && r.job.id == id
  {
    r := q[0];
    if r.job.id != id {
      r := FindRetry(q[1..], id);
    }
  }

  /** Over every run: each submitted job is in exactly one of queue, active senders, retry timers
      and terminal jobs; none is started more than `MAX_RETRIES` times; and a free slot beside a
      waiting job comes with a running retry timer. There are never more senders than the highest
      limit there was, and without a change of the limit never more than three. */
  lemma EveryJobHasItsPlace(events: seq<Event>)
    ensures
      var s := Run(events);
      && (forall id :: Places(s, id) == if id in s.tasks then 1 else 0)
      && (forall id :: s.started[id] <= if id in s.tasks then MAX_RETRIES else 0)
      && (|s.active| < s.limit && s.queue != [] ==> s.retries != [])
      && |s.active| <= HighestLimit(events)
      && (Unlimited(events) ==> |s.active| <= Initial.limit)
  {
    RunKeeps(events);
    var s := Run(events);
    WithinHighestLimit(events);
    forall id ensures s.started[id] <= if id in s.tasks then MAX_RETRIES else 0 {
      StartsPerJob(s, id);
    }
  }

  /** Over every run: the jobs move on at most nine times each, whatever fails and in whatever
      order, and when nothing can move on any more every job is terminal. */
  lemma TheQueueDrains(events: seq<Event>)
    ensures Moves(events) <= 3 * MAX_RETRIES * |Run(events).tasks|
    ensures var s := Run(events);
      s.active == map[] && s.retries == [] ==> s.queue == [] && s.done == s.tasks
  {
    RunKeeps(events);
    var s := Run(events);
    forall id ensures s.started[id] <= if id in s.tasks then MAX_RETRIES else 0 {
      StartsPerJob(s, id);
    }
    StartsAreBounded(s.started, s.tasks);
    if s.active == map[] && s.retries == [] {
      forall id ensures id in s.done <==> id in s.tasks {
        assert Places(s, id) == if id in s.tasks then 1 else 0;
      }
    }
  }
}
