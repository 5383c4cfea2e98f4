// The single worker thread of TokenServiceImpl's asynchronous executor.
//
// `initialize` submits the periodic cache cleanup as one task that sleeps, cleans
// and loops until the thread is interrupted; `invalidateToken` later submits each
// store write to the same single-thread executor. A worker runs one task at a time
// in submission order, so the never-ending cleanup task keeps the worker and no
// write queued behind it ever runs. The model below shows this, and then the
// intended behaviour, in which the cleanup runs elsewhere and the service drains
// its writes with PersistHead.

module TokenExecutor {
  import opened TokenService

  datatype Task = CleanupLoop | PersistRevocation(token: string)

  /** One scheduling step of the executor as written: the worker runs the task at
      the head of the queue. The cleanup loop does not return, whatever happens
      during its rounds, so it stays at the head; a write runs and leaves the queue. */
  function Step(queue: seq<Task>, redis: map<string, bool>, storeUp: bool): (seq<Task>, map<string, bool>)
  {
    if queue == [] then (queue, redis)
    else match queue[0]
      case CleanupLoop => (queue, redis)
      case PersistRevocation(t) => (queue[1..], if storeUp then redis[BlacklistPrefix + t := true] else redis)
  }

  /** Any number of steps, given whether the store answers at each. */
  function Run(queue: seq<Task>, redis: map<string, bool>, answers: seq<bool>): (seq<Task>, map<string, bool>)
    decreases |answers|
  {
    if answers == [] then (queue, redis)
    else
      var (q, r) := Step(queue, redis, answers[0]);
      Run(q, r, answers[1..])
  }

  /** The queue after `initialize` and then `invalidateToken` of each token in order. */
  function QueueAfterInvalidations(tokens: seq<string>): (q: seq<Task>)
    ensures |q| == |tokens| + 1 && q[0] == CleanupLoop
    ensures forall i :: 0 <= i < |tokens| ==> q[i + 1] == PersistRevocation(tokens[i])
  {
    if tokens == [] then [CleanupLoop]
    else QueueAfterInvalidations(tokens[..|tokens| - 1]) + [PersistRevocation(tokens[|tokens| - 1])]
  }

  /** As written: once the cleanup loop heads the queue, no step changes the store or
      the queue, however long the executor runs and whatever the store does. */
  lemma {:induction false} NothingRunsBehindCleanup(queue: seq<Task>, redis: map<string, bool>, answers: seq<bool>)
    requires queue != [] && queue[0] == CleanupLoop
    ensures Run(queue, redis, answers) == (queue, redis)
    decreases |answers|
  {
    if answers != [] {
      NothingRunsBehindCleanup(queue, redis, answers[1..]);
    }
  }

  /** As written: a revocation submitted after initialization never reaches the
      store, so another instance syncing from the store never learns of it. */
  lemma RevocationNeverPersisted(tokens: seq<string>, t: string, redis: map<string, bool>, answers: seq<bool>)
    requires t in tokens && BlacklistPrefix + t !in redis
    ensures BlacklistPrefix + t !in Run(QueueAfterInvalidations(tokens), redis, answers).1
  {
    NothingRunsBehindCleanup(QueueAfterInvalidations(tokens), redis, answers);
  }

  /** Intended: the writes are drained by a worker of their own, one PersistHead
      per step. */
  function Drain(s: ServiceState, answers: seq<bool>): ServiceState
    decreases |answers|
  {
    if answers == [] || s.pending == [] then s
    else Drain(PersistHead(s, answers[0]), answers[1..])
  }

  /** Intended: with the store answering, draining at least as many steps as there
      are queued writes puts every queued revocation in the store, keeps every
      entry already there, and empties the queue. */
  lemma {:induction false} DrainPersistsEveryRevocation(s: ServiceState, answers: seq<bool>)
    requires |answers| >= |s.pending| && forall i :: 0 <= i < |answers| ==> answers[i]
    ensures Drain(s, answers).pending == []
    ensures s.redis.Keys <= Drain(s, answers).redis.Keys
    ensures forall t :: t in s.pending ==> BlacklistPrefix + t in Drain(s, answers).redis
    decreases |answers|
  {
    if answers != [] && s.pending != [] {
      var s1 := PersistHead(s, answers[0]);
      DrainPersistsEveryRevocation(s1, answers[1..]);
      forall t | t in s.pending ensures BlacklistPrefix + t in Drain(s, answers).redis {
        if t != s.pending[0] {
          assert t in s1.pending;
        }
      }
    }
  }
}
