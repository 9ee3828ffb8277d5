/**
 What the worker's loop keeps in its books: which tasks it spawned, which it joined, how they
 ended, and what the counters count.
 */
module WorkerBooks {
  import opened Schema

  type TaskId = nat

  /** How `process_claim` ended: completed, reported a failure, lost its claim, or panicked. */
  datatype Ending = Completed | Failed | LostClaim | Panicked

  type Endings = map<TaskId, Ending>

  // ---------------------------------------------------------------- what the counters count

  function Of(endings: Endings, kind: Ending): set<TaskId> {
    set t | t in endings && endings[t] == kind
  }

  /** `processed`, `lost_claims` and `failed`, given who ended how and whom the loop has joined. */
  ghost predicate CountsAre(processed: nat, failed: nat, lost: nat, endings: Endings, joined: set<TaskId>) {
    && processed == |Of(endings, Completed)|
    && lost == |Of(endings, LostClaim)|
    && failed == |Of(endings, Failed)| + |Of(endings, Panicked) * joined|
  }

  lemma OfUpdateSets(endings: Endings, t: TaskId, e: Ending, kind: Ending)
    requires t !in endings
    ensures t !in Of(endings, kind)
    ensures Of(endings[t := e], kind) == if kind == e then Of(endings, kind) + {t} else Of(endings, kind)
  {
  }

  lemma OfUpdate(endings: Endings, t: TaskId, e: Ending, kind: Ending)
    requires t !in endings
    ensures |Of(endings[t := e], kind)| == |Of(endings, kind)| + (if kind == e then 1 else 0)
  {
    OfUpdateSets(endings, t, e, kind);
  }

  lemma EndCounts(processed: nat, failed: nat, lost: nat, endings: Endings, joined: set<TaskId>, t: TaskId, e: Ending)
    requires CountsAre(processed, failed, lost, endings, joined) && t !in endings && t !in joined
    ensures CountsAre(
              if e == Completed then processed + 1 else processed,
              if e == Failed then failed + 1 else failed,
              if e == LostClaim then lost + 1 else lost,
              endings[t := e], joined)
  {
    OfUpdate(endings, t, e, Completed);
    OfUpdate(endings, t, e, LostClaim);
    OfUpdate(endings, t, e, Failed);
    UnjoinedPanic(endings, joined, t, e);
  }

  lemma UnjoinedPanic(endings: Endings, joined: set<TaskId>, t: TaskId, e: Ending)
    requires t !in endings && t !in joined
    ensures Of(endings[t := e], Panicked) * joined == Of(endings, Panicked) * joined
  {
  }

  lemma JoinCounts(processed: nat, failed: nat, lost: nat, endings: Endings, joined: set<TaskId>, t: TaskId)
    requires CountsAre(processed, failed, lost, endings, joined) && t in endings && t !in joined
    ensures CountsAre(processed, if endings[t] == Panicked then failed + 1 else failed, lost, endings, joined + {t})
  {
    var before, after := Of(endings, Panicked) * joined, Of(endings, Panicked) * (joined + {t});
    if endings[t] == Panicked {
      assert after == before + {t};
    } else {
      assert after == before;
    }
  }

  /** Each joined task is counted once, and nothing else is but tasks that ended. */
  lemma CountsBound(processed: nat, failed: nat, lost: nat, endings: Endings, joined: set<TaskId>)
    requires CountsAre(processed, failed, lost, endings, joined) && joined <= endings.Keys
    ensures |joined| <= processed + failed + lost <= |endings.Keys|
  {
    var counted :=
      Of(endings, Completed) + Of(endings, LostClaim) + Of(endings, Failed) + Of(endings, Panicked) * joined;
    assert Of(endings, Completed) !! Of(endings, LostClaim);
    assert (Of(endings, Completed) + Of(endings, LostClaim)) !! Of(endings, Failed);
    assert (Of(endings, Completed) + Of(endings, LostClaim) + Of(endings, Failed)) !! (Of(endings, Panicked) * joined);
    assert |counted| == processed + failed + lost;
    assert joined <= counted by {
      forall t | t in joined ensures t in counted {
        assert t in Of(endings, endings[t]);
      }
    }
    SubsetSize(joined, counted);
    SubsetSize(counted, endings.Keys);
  }

  lemma SubsetSize(a: set<TaskId>, b: set<TaskId>)
    requires a <= b
    ensures |a| <= |b|
  {
    assert |b - a| == |b| - |a * b|;
    assert a * b == a;
  }

  // ---------------------------------------------------------------- what the loop's books agree on

  /** `tasks` and `joined` are all the tasks spawned, numbered below `next`. */
  ghost predicate Spawned(tasks: set<TaskId>, joined: set<TaskId>, next: nat) {
    && tasks !! joined
    && (forall t | t in tasks || t in joined :: t < next)
    && next == |tasks| + |joined|
  }

  /** Joined tasks have ended, and `finished` shows the others that have. */
  ghost predicate EndingsOk(tasks: set<TaskId>, joined: set<TaskId>, finished: Endings, endings: Endings) {
    && joined <= endings.Keys <= joined + tasks
    && finished.Keys == endings.Keys * tasks
    && (forall t | t in finished :: finished[t] == endings[t])
  }

  lemma SpawnOk(tasks: set<TaskId>, joined: set<TaskId>, next: nat, finished: Endings, endings: Endings)
    requires Spawned(tasks, joined, next) && EndingsOk(tasks, joined, finished, endings)
    ensures Spawned(tasks + {next}, joined, next + 1) && EndingsOk(tasks + {next}, joined, finished, endings)
    ensures |tasks + {next}| == |tasks| + 1
  {
    assert next !in tasks && next !in endings;
    assert endings.Keys * (tasks + {next}) == endings.Keys * tasks;
  }

  lemma JoinOk(tasks: set<TaskId>, joined: set<TaskId>, next: nat, finished: Endings, endings: Endings, t: TaskId)
    requires Spawned(tasks, joined, next) && EndingsOk(tasks, joined, finished, endings) && t in finished
    ensures t in tasks && t in endings && t !in joined
    ensures Spawned(tasks - {t}, joined + {t}, next)
    ensures EndingsOk(tasks - {t}, joined + {t}, finished - {t}, endings)
    ensures |tasks - {t}| == |tasks| - 1
  {
    assert t in finished.Keys && t in endings.Keys * tasks;
    assert |joined + {t}| == |joined| + 1;
    assert (joined + {t}) + (tasks - {t}) == joined + tasks;
    assert endings.Keys * (tasks - {t}) == (endings.Keys * tasks) - {t};
  }

  lemma EndOk(tasks: set<TaskId>, joined: set<TaskId>, finished: Endings, endings: Endings, t: TaskId, e: Ending)
    requires EndingsOk(tasks, joined, finished, endings) && tasks !! joined && t in tasks && t !in finished
    ensures t !in endings && t !in joined
    ensures EndingsOk(tasks, joined, finished[t := e], endings[t := e])
  {
    assert t !in endings by {
      assert t in endings.Keys ==> t in endings.Keys * tasks;
    }
    assert (endings.Keys + {t}) * tasks == endings.Keys * tasks + {t};
    assert endings[t := e].Keys == endings.Keys + {t};
    assert finished[t := e].Keys == finished.Keys + {t};
  }

  // ---------------------------------------------------------------- the books as one value

  datatype Books = Books(
    concurrency: nat, tasks: set<TaskId>, finished: Endings, running: map<TaskId, EventId>, nextTask: nat,
    processed: nat, failed: nat, lostClaims: nat, endings: Endings, joined: set<TaskId>)

  /**
   The loop's invariant: at most `concurrency` unjoined tasks, `running` names exactly these,
   spawned tasks are the joined and the unjoined, and the counters count the endings.
   */
  ghost predicate Good(b: Books) {
    && |b.tasks| <= b.concurrency
    && b.running.Keys == b.tasks
    && Spawned(b.tasks, b.joined, b.nextTask)
    && EndingsOk(b.tasks, b.joined, b.finished, b.endings)
    && CountsAre(b.processed, b.failed, b.lostClaims, b.endings, b.joined)
  }

  /** Task `t` ends: its last poll counts it, except after a panic. */
  function AfterEnd(b: Books, t: TaskId, e: Ending): Books {
    b.(finished := b.finished[t := e],
       endings := b.endings[t := e],
       processed := if e == Completed then b.processed + 1 else b.processed,
       failed := if e == Failed then b.failed + 1 else b.failed,
       lostClaims := if e == LostClaim then b.lostClaims + 1 else b.lostClaims)
  }

  lemma EndKeepsGood(b: Books, t: TaskId, e: Ending)
    requires Good(b) && t in b.tasks && t !in b.finished
    ensures Good(AfterEnd(b, t, e)) && t !in b.endings
  {
    EndOk(b.tasks, b.joined, b.finished, b.endings, t, e);
    EndCounts(b.processed, b.failed, b.lostClaims, b.endings, b.joined, t, e);
  }

  /** The loop joins task `t`: forgets it and, if it panicked, counts the failure. */
  function AfterJoin(b: Books, t: TaskId): Books
    requires t in b.finished
  {
    b.(tasks := b.tasks - {t},
       running := b.running - {t},
       joined := b.joined + {t},
       finished := b.finished - {t},
       failed := if b.finished[t] == Panicked then b.failed + 1 else b.failed)
  }

  lemma JoinKeepsGood(b: Books, t: TaskId)
    requires Good(b) && t in b.finished
    ensures Good(AfterJoin(b, t)) && |AfterJoin(b, t).tasks| == |b.tasks| - 1 && t in b.tasks
  {
    JoinOk(b.tasks, b.joined, b.nextTask, b.finished, b.endings, t);
    JoinCounts(b.processed, b.failed, b.lostClaims, b.endings, b.joined, t);
    assert (b.running - {t}).Keys == b.running.Keys - {t};
  }

  /** The loop spawns a task for a claimed event. */
  function AfterSpawn(b: Books, event: EventId): Books {
    b.(tasks := b.tasks + {b.nextTask},
       running := b.running[b.nextTask := event],
       nextTask := b.nextTask + 1)
  }

  lemma SpawnKeepsGood(b: Books, event: EventId)
    requires Good(b) && |b.tasks| < b.concurrency
    ensures Good(AfterSpawn(b, event)) && |AfterSpawn(b, event).tasks| == |b.tasks| + 1
  {
    SpawnOk(b.tasks, b.joined, b.nextTask, b.finished, b.endings);
    assert b.running[b.nextTask := event].Keys == b.running.Keys + {b.nextTask};
  }

  // ---------------------------------------------------------------- whole loops over the books

  /** What joining every ended task makes of the books. */
  function AfterJoins(b: Books): Books {
    b.(tasks := b.tasks - b.finished.Keys,
       running := b.running - b.finished.Keys,
       joined := b.joined + b.finished.Keys,
       finished := map[],
       failed := b.failed + |Of(b.finished, Panicked)|)
  }

  lemma JoinsStep(b: Books, t: TaskId)
    requires t in b.finished
    ensures AfterJoins(AfterJoin(b, t)) == AfterJoins(b)
  {
    var rest := b.finished - {t};
    assert rest.Keys == b.finished.Keys - {t};
    assert b.tasks - {t} - rest.Keys == b.tasks - b.finished.Keys;
    assert b.running - {t} - rest.Keys == b.running - b.finished.Keys;
    assert b.joined + {t} + rest.Keys == b.joined + b.finished.Keys;
    assert rest[t := b.finished[t]] == b.finished;
    OfUpdate(rest, t, b.finished[t], Panicked);
  }

  lemma JoinsDone(b: Books)
    requires b.finished == map[]
    ensures AfterJoins(b) == b
  {
    assert b.tasks - b.finished.Keys == b.tasks;
    assert b.running - b.finished.Keys == b.running;
    assert b.joined + b.finished.Keys == b.joined;
    assert Of(b.finished, Panicked) == {};
  }

  /** The endings that a script holds for tasks that are alive. */
  function Due(b: Books, script: Endings): Endings {
    map t | t in script && t in b.tasks && t !in b.finished :: script[t]
  }

  /** What these endings make of the books. */
  function AfterEnds(b: Books, script: Endings): Books {
    var due := Due(b, script);
    b.(finished := b.finished + due,
       endings := b.endings + due,
       processed := b.processed + |Of(due, Completed)|,
       failed := b.failed + |Of(due, Failed)|,
       lostClaims := b.lostClaims + |Of(due, LostClaim)|)
  }

  lemma EndsStep(b: Books, script: Endings, t: TaskId)
    requires t in Due(b, script)
    ensures AfterEnds(AfterEnd(b, t, script[t]), script) == AfterEnds(b, script)
    ensures Due(AfterEnd(b, t, script[t]), script) == Due(b, script) - {t}
  {
    var due := Due(b, script);
    var rest := due - {t};
    assert Due(AfterEnd(b, t, script[t]), script) == rest;
    assert rest[t := script[t]] == due;
    MergeStep(b.finished, rest, t, script[t]);
    MergeStep(b.endings, rest, t, script[t]);
    OfUpdate(rest, t, script[t], Completed);
    OfUpdate(rest, t, script[t], Failed);
    OfUpdate(rest, t, script[t], LostClaim);
  }

  lemma MergeStep(endings: Endings, rest: Endings, t: TaskId, e: Ending)
    requires t !in rest
    ensures endings[t := e] + rest == endings + rest[t := e]
  {
  }

  lemma EndsDone(b: Books, script: Endings)
    requires Due(b, script) == map[]
    ensures AfterEnds(b, script) == b
  {
    var none: Endings := map[];
    assert b.finished + none == b.finished;
    assert b.endings + none == b.endings;
    assert forall kind :: Of(none, kind) == {};
  }

  /** What spawning a task for each claim, in order, makes of the books. */
  function AfterSpawns(b: Books, claims: seq<EventId>): Books
    decreases claims
  {
    if claims == [] then b else AfterSpawns(AfterSpawn(b, claims[0]), claims[1..])
  }

  lemma {:induction false} SpawnsKeepGood(b: Books, claims: seq<EventId>)
    requires Good(b) && |b.tasks| + |claims| <= b.concurrency
    ensures Good(AfterSpawns(b, claims))
    decreases claims
  {
    if claims != [] {
      SpawnKeepsGood(b, claims[0]);
      SpawnsKeepGood(AfterSpawn(b, claims[0]), claims[1..]);
    }
  }

  /** Each claim has a task of its own, in order, and no running task has changed its event. */
  ghost predicate Assigns(b: Books, b': Books, claims: seq<EventId>) {
    && b'.nextTask == b.nextTask + |claims|
    && (forall t | t in b.running :: t in b'.running && b'.running[t] == b.running[t])
    && (forall t | b.nextTask <= t < b'.nextTask :: t in b'.running && b'.running[t] == claims[t - b.nextTask])
  }

  lemma {:induction false} SpawnsAssign(b: Books, claims: seq<EventId>)
    requires forall t | t in b.running :: t < b.nextTask
    ensures Assigns(b, AfterSpawns(b, claims), claims)
    decreases claims
  {
    if claims != [] {
      var next := AfterSpawn(b, claims[0]);
      SpawnsAssign(next, claims[1..]);
      assert b.nextTask in next.running;
    }
  }

  lemma RunningBelowNext(b: Books)
    requires Good(b)
    ensures forall t | t in b.running :: t < b.nextTask
  {
    forall t | t in b.running ensures t < b.nextTask {
      assert t in b.running.Keys && t in b.tasks;
    }
  }

  /** A batch that fits the free capacity keeps the invariant, and is assigned as it should be. */
  lemma {:induction false} SpawnsOk(b: Books, claims: seq<EventId>)
    requires Good(b) && |b.tasks| + |claims| <= b.concurrency
    ensures Good(AfterSpawns(b, claims)) && Assigns(b, AfterSpawns(b, claims), claims)
  {
    SpawnsKeepGood(b, claims);
    RunningBelowNext(b);
    SpawnsAssign(b, claims);
  }

  /** Each of the events is `owner`'s in the table. */
  ghost predicate AllOwned(rows: Table, ids: seq<EventId>, owner: WorkerId) {
    forall i | 0 <= i < |ids| :: ids[i] in rows && Owns(rows[ids[i]], owner)
  }

  /** The tasks spawned since are for events that the table shows as `owner`'s. */
  ghost predicate NewTasksOwned(b: Books, b': Books, rows: Table, owner: WorkerId) {
    forall t | b.nextTask <= t < b'.nextTask ::
      t in b'.running && b'.running[t] in rows && Owns(rows[b'.running[t]], owner)
  }

  lemma AssignedAreOwned(b: Books, b': Books, claims: seq<EventId>, rows: Table, owner: WorkerId)
    requires Assigns(b, b', claims) && AllOwned(rows, claims, owner)
    ensures NewTasksOwned(b, b', rows, owner)
  {
    forall t | b.nextTask <= t < b'.nextTask ensures b'.running[t] in rows && Owns(rows[b'.running[t]], owner) {
      assert b'.running[t] == claims[t - b.nextTask];
    }
  }

  /** What the invariant says of the counters. */
  lemma GoodCounts(b: Books)
    requires Good(b)
    ensures b.processed == |Of(b.endings, Completed)| && b.lostClaims == |Of(b.endings, LostClaim)|
    ensures b.failed == |Of(b.endings, Failed)| + |Of(b.endings, Panicked) * b.joined|
  {
  }

  /** The counts cover the joined tasks, and only tasks that were spawned. */
  lemma GoodTotals(b: Books)
    requires Good(b)
    ensures |b.joined| <= b.processed + b.failed + b.lostClaims <= b.nextTask
    ensures b.nextTask == |b.joined| + |b.tasks|
    ensures b.processed == |Of(b.endings, Completed)| && b.lostClaims == |Of(b.endings, LostClaim)|
    ensures b.tasks == {} ==> b.failed == |Of(b.endings, Failed)| + |Of(b.endings, Panicked)|
  {
    CountsBound(b.processed, b.failed, b.lostClaims, b.endings, b.joined);
    EndedWereSpawned(b.tasks, b.joined, b.nextTask, b.finished, b.endings);
  }

  lemma EndedWereSpawned(tasks: set<TaskId>, joined: set<TaskId>, next: nat, finished: Endings, endings: Endings)
    requires Spawned(tasks, joined, next) && EndingsOk(tasks, joined, finished, endings)
    ensures |endings.Keys| <= next
    ensures tasks == {} ==> Of(endings, Panicked) * joined == Of(endings, Panicked)
  {
    assert |joined + tasks| == |joined| + |tasks|;
    SubsetSize(endings.Keys, joined + tasks);
  }
}
