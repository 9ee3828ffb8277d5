/**
 The worker's claim, process and drain loop, on a store that it shares with other processes.  What
 the outside world does (what others make of the table, which tasks end and how, whether a claim
 gets through, when shutdown arrives, how long the drain may last) is given by a script, so the
 results hold for every behaviour of the processor, the other processes, the network and the clock.
 */
module WorkerModel {
  import opened Utf8
  import opened Schema
  import opened StoreModel
  import opened WorkerBooks
  import opened WorkerScript

  datatype RunReport = RunReport(processed: nat, failed: nat, lostClaims: nat, timedOut: bool, abandoned: nat)

  class Worker {
    const concurrency: nat
    const owner: WorkerId
    const leaseMs: nat
    const store: Store
    /** The `JoinSet`: spawned and not joined. */
    var tasks: set<TaskId>
    /** Of these, the ones that have ended, and how. */
    var finished: Endings
    var running: map<TaskId, EventId>
    var nextTask: TaskId
    var processed: nat
    var failed: nat
    var lostClaims: nat
    /** Every ending so far, and the tasks joined by the loop. */
    ghost var endings: Endings
    ghost var joined: set<TaskId>

    ghost function View(): Books
      reads this
    {
      Books(concurrency, tasks, finished, running, nextTask, processed, failed, lostClaims, endings, joined)
    }

    ghost predicate Valid()
      reads this
    {
      Good(View())
    }

    constructor (concurrency: nat, owner: WorkerId, leaseMs: nat, store: Store)
      requires concurrency > 0
      ensures Valid() && this.store == store && this.owner == owner && this.leaseMs == leaseMs
      ensures View() == Books(concurrency, {}, map[], map[], 0, 0, 0, 0, map[], {})
    {
      this.concurrency, this.owner, this.leaseMs, this.store := concurrency, owner, leaseMs, store;
      tasks, finished, running, nextTask := {}, map[], map[], 0;
      processed, failed, lostClaims := 0, 0, 0;
      endings, joined := map[], {};
    }

    // ---------------------------------------------------------------- one task

    method Tally(t: TaskId, e: Ending)
      modifies this
      ensures View() == AfterEnd(old(View()), t, e)
    {
      match e {
        case Completed => processed := processed + 1;
        case Failed => failed := failed + 1;
        case LostClaim => lostClaims := lostClaims + 1;
        case Panicked =>
      }
      endings := endings[t := e];
      finished := finished[t := e];
    }

    /**
     The body of `process_claim`: the processor's result, and then the store's answer, decide the
     ending.  The event is recorded as completed by this call exactly if the processor succeeds, the
     completion reaches the store, and the event's latest claim is this worker's.
     */
    method Process(event: EventId, work: Work) returns (e: Ending)
      requires Sound(work.others)
      modifies store
      ensures e == EndingOf(work, event, owner)
      ensures work.result == Succeeds ==>
                store.completed == work.others.completed
                + (if work.link != Down && HoldsClaim(work.others.lastOwner, work.others.completed, event, owner)
                   then {event} else {})
      ensures work.result != Succeeds ==> store.View() == old(store.View())
      ensures e == Completed ==> event in store.completed && event !in work.others.completed
      ensures e == Completed ==> event in store.rows && store.rows[event].life.processedAt == Some(work.now)
    {
      match work.result {
        case Panics => e := Panicked;
        case Fails => e := Failed;
        case Succeeds =>
          store.OthersLeave(work.others);
          var answer := store.Complete(event, owner, work.now, work.link);
          e := if answer.Failure? then Failed else if answer.value then Completed else LostClaim;
      }
    }

    /** A task runs to its end, and is counted by what came of it. */
    method ProcessClaim(t: TaskId, work: Work) returns (e: Ending)
      requires Valid() && Sound(work.others) && t in tasks && t !in finished && t in running
      modifies this, store
      ensures Valid() && View() == AfterEnd(old(View()), t, e)
      ensures e == EndingOf(work, old(running)[t], owner)
      ensures e == Completed ==> old(running)[t] in store.completed && old(running)[t] !in work.others.completed
    {
      e := Process(running[t], work);
      End(t, e);
    }

    /**
     The last poll of `process_claim`: the task stays in the set until it is joined, and every
     counter still counts the endings of its kind, panics only once they are joined.
     */
    method End(t: TaskId, e: Ending)
      requires Valid() && t in tasks && t !in finished
      modifies this
      ensures Valid() && View() == AfterEnd(old(View()), t, e)
      ensures tasks == old(tasks) && joined == old(joined) && t !in old(endings) && endings == old(endings)[t := e]
      ensures processed == |Of(endings, Completed)| && lostClaims == |Of(endings, LostClaim)|
      ensures failed == |Of(endings, Failed)| + |Of(endings, Panicked) * joined|
    {
      EndKeepsGood(View(), t, e);
      Tally(t, e);
      GoodCounts(View());
    }

    method Forget(t: TaskId)
      requires t in finished
      modifies this
      ensures View() == AfterJoin(old(View()), t)
    {
      if finished[t] == Panicked {
        failed := failed + 1;
      }
      running := running - {t};
      tasks := tasks - {t};
      joined := joined + {t};
      finished := finished - {t};
    }

    /** `record_join`: one task fewer, `running` still names the rest, and a panic is counted now. */
    method RecordJoin(t: TaskId)
      requires Valid() && t in finished
      modifies this
      ensures Valid() && View() == AfterJoin(old(View()), t)
      ensures |tasks| == |old(tasks)| - 1 && running.Keys == tasks && joined == old(joined) + {t}
      ensures endings == old(endings)
      ensures processed == |Of(endings, Completed)| && lostClaims == |Of(endings, LostClaim)|
      ensures failed == |Of(endings, Failed)| + |Of(endings, Panicked) * joined|
    {
      JoinKeepsGood(View(), t);
      Forget(t);
      GoodCounts(View());
    }

    // ---------------------------------------------------------------- many tasks

    /** Lets tasks run to their end as the script says; it cannot end a task that is not alive. */
    method EndAll(script: Script)
      requires Valid() && ScriptOk(script)
      modifies this, store
      ensures Valid() && View() == AfterScript(old(View()), script, owner)
    {
      ghost var ends := EndingsOf(View(), script, owner);
      var due := set t | t in script && t in tasks && t !in finished;
      DueTasks(View(), script, owner);
      while due != {}
        invariant Valid() && running == old(running)
        invariant AfterEnds(View(), ends) == AfterEnds(old(View()), ends)
        invariant due == Due(View(), ends).Keys
        decreases due
      {
        var t :| t in due;
        EndsStep(View(), ends, t);
        RunningIsTasks(View(), t);
        var e := ProcessClaim(t, script[t]);
        due := due - {t};
      }
      EndsDone(View(), ends);
    }

    /** `while let Some(result) = tasks.try_join_next_with_id()`: leaves no ended task behind. */
    method JoinFinished()
      requires Valid()
      modifies this
      ensures Valid() && View() == AfterJoins(old(View()))
    {
      while finished != map[]
        invariant Valid() && AfterJoins(View()) == AfterJoins(old(View()))
        decreases |tasks|
      {
        var t :| t in finished;
        JoinsStep(View(), t);
        RecordJoin(t);
      }
      JoinsDone(View());
    }

    // ---------------------------------------------------------------- claiming

    method Spawn(event: EventId)
      modifies this
      ensures View() == AfterSpawn(old(View()), event)
    {
      tasks := tasks + {nextTask};
      running := running[nextTask := event];
      nextTask := nextTask + 1;
    }

    method SpawnAll(claims: seq<ClaimedEvent>)
      modifies this
      ensures View() == AfterSpawns(old(View()), EventIds(claims))
    {
      ghost var ids := EventIds(claims);
      for i := 0 to |claims|
        invariant AfterSpawns(View(), ids[i..]) == AfterSpawns(old(View()), ids)
      {
        Spawn(claims[i].event.id);
      }
    }

    /** Every claimed event gets a task of its own, and no running task changes its event. */
    method TakeOn(claims: seq<ClaimedEvent>)
      requires Valid() && |tasks| + |claims| <= concurrency
      modifies this
      ensures Valid() && View() == AfterSpawns(old(View()), EventIds(claims))
      ensures Assigns(old(View()), View(), EventIds(claims))
    {
      SpawnsOk(View(), EventIds(claims));
      SpawnAll(claims);
    }

    /**
     Asks the store for as many events as there are free slots, and hands on all that it answers.
     That it gets no more is the store's doing; so is that each of them is now this worker's.
     */
    method Ask(now: int, link: Link, ghost rows: Table, ghost free: nat)
      returns (claims: seq<ClaimedEvent>, ghost batch: seq<EventId>)
      requires store.Valid() && rows == store.rows && |tasks| + free == concurrency
      modifies store
      ensures |claims| <= free && Brings(rows, now, free, link, batch, claims)
      ensures store.rows == TableAfter(rows, now, link, batch, owner, leaseMs)
      ensures AllOwned(store.rows, EventIds(claims), owner)
    {
      claims := [];
      batch := [];
      var slots := concurrency - |tasks|;
      if slots > 0 {
        var reply, taken := store.Claim(owner, slots, leaseMs, now, link);
        batch := taken;
        if reply.Success? {
          ReplyDescribesBatch(rows, now, free, batch, reply.value, owner, leaseMs);
          claims := reply.value;
        }
      } else {
        NothingToClaim(rows, now, link, owner, leaseMs);
      }
    }

    /**
     One claim and its spawns: every event that the claim brings gets a task of its own, and an error
     of the store spawns nothing.
     */
    method ClaimFree(now: int, link: Link, ghost rows: Table, ghost free: nat)
      returns (claims: seq<ClaimedEvent>, ghost batch: seq<EventId>)
      requires Valid() && store.Valid() && rows == store.rows && free == concurrency - |tasks|
      modifies this, store
      ensures Valid() && View() == AfterSpawns(old(View()), EventIds(claims))
      ensures |claims| <= free && Brings(rows, now, free, link, batch, claims)
      ensures store.rows == TableAfter(rows, now, link, batch, owner, leaseMs)
      ensures Assigns(old(View()), View(), EventIds(claims)) && NewTasksOwned(old(View()), View(), store.rows, owner)
    {
      claims, batch := Ask(now, link, rows, free);
      TakeOn(claims);
      AssignedAreOwned(old(View()), View(), EventIds(claims), store.rows, owner);
    }

    // ---------------------------------------------------------------- the loop

    /** The `select!`: shutdown goes first, then a task that has ended, then the timer. */
    method Wait(late: Script, stop: bool)
      requires Valid() && ScriptOk(late)
      modifies this, store
      ensures Valid() && MayFollow(AfterScript(old(View()), late, owner), stop, View())
    {
      EndAll(late);
      JoinOne(stop);
    }

    method JoinOne(stop: bool)
      requires Valid()
      modifies this
      ensures Valid() && MayFollow(old(View()), stop, View())
    {
      if !stop && finished != map[] {
        var t :| t in finished;
        RecordJoin(t);
      }
    }

    /** Tasks run to their end and are joined. */
    method JoinEnded(script: Script)
      requires Valid() && ScriptOk(script)
      modifies this, store
      ensures Valid() && View() == AfterJoins(AfterScript(old(View()), script, owner))
    {
      EndAll(script);
      JoinFinished();
    }

    /** Up to the claim: what has ended is joined, and other processes have used the store. */
    method Prepare(tick: Tick)
      requires Valid() && TickOk(tick)
      modifies this, store
      ensures Valid() && View() == AtClaim(old(View()), tick, owner)
      ensures store.Valid() && store.View() == tick.others
    {
      JoinEnded(tick.early);
      store.OthersLeave(tick.others);
    }

    /** From the claim on. */
    method ClaimAndWait(now: int, link: Link, late: Script, stop: bool, ghost rows: Table, ghost free: nat)
      returns (claims: seq<ClaimedEvent>, ghost batch: seq<EventId>)
      requires Valid() && store.Valid() && ScriptOk(late) && rows == store.rows && free == concurrency - |tasks|
      modifies this, store
      ensures Valid() && |claims| <= free
      ensures Brings(rows, now, free, link, batch, claims)
      ensures MayFollow(AfterScript(AfterSpawns(old(View()), EventIds(claims)), late, owner), stop, View())
    {
      claims, batch := ClaimFree(now, link, rows, free);
      Wait(late, stop);
    }

    /**
     One turn of the loop: the store is asked for the capacity that is free after the joins, on the
     table that other processes leave, and every event it answers is taken on.
     */
    method Turn(tick: Tick) returns (claims: seq<ClaimedEvent>, ghost batch: seq<EventId>, ghost free: nat)
      requires Valid() && TickOk(tick)
      modifies this, store
      ensures Valid()
      ensures |claims| <= free && free + |AtClaim(old(View()), tick, owner).tasks| == concurrency
      ensures Brings(tick.others.rows, tick.now, free, tick.link, batch, claims)
      ensures MayFollow(AtWait(old(View()), tick, claims, owner), tick.stop, View())
    {
      Prepare(tick);
      free := concurrency - |tasks|;
      claims, batch := ClaimAndWait(tick.now, tick.link, tick.late, tick.stop, tick.others.rows, free);
    }

    /** Joins tasks as they end, until the script, the time the drain may take, is over. */
    method Drain(script: seq<Script>) returns (drained: bool)
      requires Valid() && forall i | 0 <= i < |script| :: ScriptOk(script[i])
      modifies this, store
      ensures Valid() && View() == AfterDrain(AfterJoins(old(View())), script, owner)
      ensures drained <==> tasks == {}
    {
      JoinFinished();
      for i := 0 to |script|
        invariant Valid()
        invariant AfterDrain(View(), script[i..], owner) == AfterDrain(AfterJoins(old(View())), script, owner)
      {
        JoinEnded(script[i]);
      }
      drained := tasks == {};
    }

    /** Turn `i`; `stopped` tells that shutdown breaks the loop. */
    method Step(ticks: seq<Tick>, i: nat, ghost may: (Books, Tick, Books) -> bool) returns (stopped: bool)
      requires Valid() && TicksOk(ticks) && i < |ticks| && Admits(may, owner) && SoFar(ticks, i, false)
      modifies this, store
      ensures Valid() && may(old(View()), ticks[i], View()) && SoFar(ticks, i + 1, stopped)
    {
      OneTurnMore(ticks, i);
      stopped := ticks[i].stop;
      assert TickOk(ticks[i]);
      var claims, batch, free := Turn(ticks[i]);
      MakesTurn(old(View()), ticks[i], View(), owner, batch, claims, free);
      AdmitsTurn(may, owner, old(View()), ticks[i], View());
    }

    /** The loop: turn after turn, until shutdown has stopped one. */
    method Loop(ticks: seq<Tick>, ghost may: (Books, Tick, Books) -> bool) returns (ghost trail: seq<Books>, n: nat)
      requires Valid() && Admits(may, owner) && TicksOk(ticks)
      modifies this, store
      ensures Valid() && LeadsTo(trail, ticks, may, n, old(View()), View()) && StopsAfter(ticks, n)
    {
      trail := [View()];
      StartsHere(ticks, may, View());
      var stopped := false;
      n := 0;
      while n < |ticks| && !stopped
        invariant Valid() && SoFar(ticks, n, stopped) && LeadsTo(trail, ticks, may, n, old(View()), View())
      {
        ghost var before := View();
        stopped := Step(ticks, n, may);
        FollowsOn(trail, ticks, may, n, old(View()), before, View());
        trail := trail + [View()];
        n := n + 1;
      }
      NoTurnMore(ticks, n, stopped);
    }

    /** Drain, and abort what is left when the time is over. */
    method Finish(drain: seq<Script>, aborting: Script) returns (timedOut: bool, abandoned: nat)
      requires Valid() && (forall i | 0 <= i < |drain| :: ScriptOk(drain[i])) && ScriptOk(aborting)
      modifies this, store
      ensures Valid() && View() == AtEnd(old(View()), drain, aborting, owner)
      ensures timedOut <==> AfterDrain(AfterJoins(old(View())), drain, owner).tasks != {}
      ensures abandoned == |AfterDrain(AfterJoins(old(View())), drain, owner).tasks| == |tasks|
    {
      var drained := Drain(drain);
      abandoned := |tasks|;
      if !drained {
        // The abort lets tasks that are in their last poll end, and drops the rest unjoined.
        EndAll(aborting);
      }
      timedOut := !drained;
    }

    /**
     The whole run.  The loop takes its turns up to the one that shutdown stops, and nothing is spawned
     after it.  Every spawned task is counted under exactly one heading when the drain finishes; when it
     times out, the counts miss at most the abandoned tasks.
     */
    method Run(ticks: seq<Tick>, drain: seq<Script>, aborting: Script)
      returns (report: RunReport, ghost trail: seq<Books>)
      requires Valid() && nextTask == 0 && TicksOk(ticks)
      requires (forall i | 0 <= i < |drain| :: ScriptOk(drain[i])) && ScriptOk(aborting)
      modifies this, store
      ensures Follows(trail, ticks, MayTurn(owner)) && StopsAfter(ticks, |trail| - 1) && trail[0] == old(View())
      ensures View() == AtEnd(trail[|trail| - 1], drain, aborting, owner) && nextTask == trail[|trail| - 1].nextTask
      ensures report.timedOut <==> AfterDrain(AfterJoins(trail[|trail| - 1]), drain, owner).tasks != {}
      ensures report.abandoned == |AfterDrain(AfterJoins(trail[|trail| - 1]), drain, owner).tasks|
      ensures report.processed == processed && report.failed == failed && report.lostClaims == lostClaims
      ensures report.processed == |Of(endings, Completed)| && report.lostClaims == |Of(endings, LostClaim)|
      ensures !report.timedOut ==>
                && report.abandoned == 0
                && report.processed + report.failed + report.lostClaims == nextTask
                && report.failed == |Of(endings, Failed)| + |Of(endings, Panicked)|
      ensures report.timedOut ==>
                && 0 < report.abandoned <= concurrency
                && report.processed + report.failed + report.lostClaims <= nextTask
                && nextTask <= report.processed + report.failed + report.lostClaims + report.abandoned
    {
      MayTurnAdmits(owner);
      var turns;
      trail, turns := Loop(ticks, MayTurn(owner));
      var timedOut, abandoned := Finish(drain, aborting);
      GoodTotals(View());
      report := RunReport(processed, failed, lostClaims, timedOut, abandoned);
    }
  }
}
