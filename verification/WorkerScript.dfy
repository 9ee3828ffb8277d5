/**
 What the outside world does to a worker, and what that makes of its books: which tasks run to
 their end and how, what other processes do to the store, whether calls get through.
 */
module WorkerScript {
  import opened Schema
  import opened StoreModel
  import opened WorkerBooks

  datatype Processing = Succeeds | Fails | Panics

  /** How one task runs: its processor, then the store as its completion finds it. */
  datatype Work = Work(
    result: Processing,
    others: Contents,                // what other processes have made of the store by the completion
    now: int,                        // the completion's time
    link: Link)                      // whether it gets through

  /** Tasks that run to their end, and how. */
  type Script = map<TaskId, Work>

  ghost predicate ScriptOk(script: Script) {
    forall t | t in script :: Sound(script[t].others)
  }

  /** One turn of the loop, as the world decides it. */
  datatype Tick = Tick(
    early: Script,                   // tasks that end before the joins of this turn
    others: Contents,                // what other processes have made of the store by the claim
    now: int,                        // the claim's time
    link: Link,                      // whether it gets through
    late: Script,                    // tasks that end while the loop waits
    stop: bool)                      // shutdown is ready when the loop waits

  ghost predicate TickOk(tick: Tick) {
    ScriptOk(tick.early) && Sound(tick.others) && ScriptOk(tick.late)
  }

  ghost predicate TicksOk(ticks: seq<Tick>) {
    forall i {:trigger TickOk(ticks[i])} | 0 <= i < |ticks| :: TickOk(ticks[i])
  }

  /** How a task for this event ends: as its processor does, and then as the store answers. */
  ghost function EndingOf(work: Work, event: EventId, owner: WorkerId): Ending {
    match work.result
    case Panics => Panicked
    case Fails => Failed
    case Succeeds =>
      if work.link != Up then Failed
      else if HoldsClaim(work.others.lastOwner, work.others.completed, event, owner) then Completed
      else LostClaim
  }

  /** The endings that a script brings about. */
  ghost function EndingsOf(b: Books, script: Script, owner: WorkerId): Endings {
    map t | t in script && t in b.running :: EndingOf(script[t], b.running[t], owner)
  }

  function EventIds(claims: seq<ClaimedEvent>): (ids: seq<EventId>)
    ensures |ids| == |claims|
    ensures forall i | 0 <= i < |claims| :: ids[i] == claims[i].event.id
  {
    seq(|claims|, i requires 0 <= i < |claims| => claims[i].event.id)
  }

  /** The books after tasks have run to their end. */
  ghost function AfterScript(b: Books, script: Script, owner: WorkerId): Books {
    AfterEnds(b, EndingsOf(b, script, owner))
  }

  /** The books when the loop has joined what has ended. */
  ghost function AtClaim(b: Books, tick: Tick, owner: WorkerId): Books {
    AfterJoins(AfterScript(b, tick.early, owner))
  }

  /** The books when it has also taken on these claims, and waited. */
  ghost function AtWait(b: Books, tick: Tick, claims: seq<ClaimedEvent>, owner: WorkerId): Books {
    AfterScript(AfterSpawns(AtClaim(b, tick, owner), EventIds(claims)), tick.late, owner)
  }

  /** Shutdown, preferred, changes nothing; otherwise one ended task is joined, if there is one. */
  ghost predicate MayFollow(b: Books, stop: bool, next: Books) {
    if stop || b.finished == map[] then next == b
    else exists t | t in b.finished :: next == AfterJoin(b, t)
  }

  /** The books after a drain that lasts as long as the script, and spawns nothing. */
  ghost function AfterDrain(b: Books, script: seq<Script>, owner: WorkerId): (r: Books)
    ensures r.nextTask == b.nextTask && r.tasks <= b.tasks
    decreases script
  {
    if script == [] then b else AfterDrain(AfterJoins(AfterScript(b, script[0], owner)), script[1..], owner)
  }

  /** One turn with this claim: the joins, a claim of the free capacity with all it brings, the wait. */
  ghost predicate TurnsBy(
    b: Books, tick: Tick, next: Books, owner: WorkerId, batch: seq<EventId>, claims: seq<ClaimedEvent>)
  {
    && |AtClaim(b, tick, owner).tasks| <= b.concurrency
    && Brings(tick.others.rows, tick.now, b.concurrency - |AtClaim(b, tick, owner).tasks|, tick.link, batch, claims)
    && MayFollow(AtWait(b, tick, claims, owner), tick.stop, next)
  }

  ghost predicate TurnsInto(b: Books, tick: Tick, next: Books, owner: WorkerId) {
    exists batch, claims :: TurnsBy(b, tick, next, owner, batch, claims)
  }

  lemma MakesTurn(
    b: Books, tick: Tick, next: Books, owner: WorkerId, batch: seq<EventId>, claims: seq<ClaimedEvent>, free: nat)
    requires free + |AtClaim(b, tick, owner).tasks| == b.concurrency
    requires Brings(tick.others.rows, tick.now, free, tick.link, batch, claims)
    requires MayFollow(AtWait(b, tick, claims, owner), tick.stop, next)
    ensures TurnsInto(b, tick, next, owner)
  {
    assert TurnsBy(b, tick, next, owner, batch, claims);
  }

  /** The loop takes `n` of these turns: up to and with the first that shutdown stops, or else all. */
  ghost predicate StopsAfter(ticks: seq<Tick>, n: nat) {
    && n <= |ticks|
    && (forall k | 0 <= k < n - 1 :: !ticks[k].stop)
    && (n < |ticks| ==> n > 0 && ticks[n - 1].stop)
  }

  /** `i` turns were taken, none before the last was stopped, and `stopped` tells of the last. */
  ghost predicate SoFar(ticks: seq<Tick>, i: nat, stopped: bool) {
    && i <= |ticks|
    && (forall k | 0 <= k < i - 1 :: !ticks[k].stop)
    && stopped == (i > 0 && ticks[i - 1].stop)
  }

  lemma OneTurnMore(ticks: seq<Tick>, i: nat)
    requires SoFar(ticks, i, false) && i < |ticks|
    ensures SoFar(ticks, i + 1, ticks[i].stop)
  {
  }

  lemma NoTurnMore(ticks: seq<Tick>, i: nat, stopped: bool)
    requires SoFar(ticks, i, stopped) && (i == |ticks| || stopped)
    ensures StopsAfter(ticks, i)
  {
  }

  /** A trail of states, each of which the script's next entry may turn into the one after it. */
  ghost predicate Follows<S(!new), T(!new)>(trail: seq<S>, script: seq<T>, may: (S, T, S) -> bool) {
    && trail != [] && |trail| <= |script| + 1
    && forall k | 0 <= k < |trail| - 1 :: may(trail[k], script[k], trail[k + 1])
  }

  /** A trail from `first` to `last` that has used up `n` entries of the script. */
  ghost predicate LeadsTo<S(!new), T(!new)>(
    trail: seq<S>, script: seq<T>, may: (S, T, S) -> bool, n: nat, first: S, last: S)
  {
    |trail| == n + 1 && Follows(trail, script, may) && trail[0] == first && trail[n] == last
  }

  lemma StartsHere<S(!new), T(!new)>(script: seq<T>, may: (S, T, S) -> bool, first: S)
    ensures LeadsTo([first], script, may, 0, first, first)
  {
  }

  lemma FollowsOn<S(!new), T(!new)>(
    trail: seq<S>, script: seq<T>, may: (S, T, S) -> bool, n: nat, first: S, last: S, next: S)
    requires LeadsTo(trail, script, may, n, first, last) && n < |script| && may(last, script[n], next)
    ensures LeadsTo(trail + [next], script, may, n + 1, first, next)
  {
  }

  ghost function MayTurn(owner: WorkerId): (Books, Tick, Books) -> bool {
    (b, tick, next) => TurnsInto(b, tick, next, owner)
  }

  /** The relation holds of every turn. */
  ghost predicate Admits(may: (Books, Tick, Books) -> bool, owner: WorkerId) {
    forall b, tick, next {:trigger TurnsInto(b, tick, next, owner)} ::
      TurnsInto(b, tick, next, owner) ==> may(b, tick, next)
  }

  lemma MayTurnAdmits(owner: WorkerId)
    ensures Admits(MayTurn(owner), owner)
  {
  }

  lemma AdmitsTurn(may: (Books, Tick, Books) -> bool, owner: WorkerId, b: Books, tick: Tick, next: Books)
    requires Admits(may, owner) && TurnsInto(b, tick, next, owner)
    ensures may(b, tick, next)
  {
  }

  /** The books when the run is over: drained, and after a timeout also aborted. */
  ghost function AtEnd(b: Books, drain: seq<Script>, aborting: Script, owner: WorkerId): (r: Books)
    ensures r.nextTask == b.nextTask
  {
    var drained := AfterDrain(AfterJoins(b), drain, owner);
    if drained.tasks == {} then drained else AfterScript(drained, aborting, owner)
  }

  // ---------------------------------------------------------------- what a reply of the store means

  /**
   What a claim of `limit` rows brings: all of the oldest claimable rows if it gets through, no
   counter is full and the columns parse; otherwise nothing.
   */
  ghost predicate Brings(
    rows: Table, now: int, limit: nat, link: Link, batch: seq<EventId>, claims: seq<ClaimedEvent>)
  {
    && TakesOldest(rows, now, limit, batch)
    && if link == Up && !SomeCounterFull(rows, batch) && AllParse(rows, batch)
       then multiset(claims) == multiset(Describe(rows, batch))
       else claims == []
  }

  /** The table that it leaves. */
  function TableAfter(
    rows: Table, now: int, link: Link, batch: seq<EventId>, owner: WorkerId, leaseMs: nat): Table
  {
    if link == Down || SomeCounterFull(rows, batch) then rows else ClaimRows(rows, IdSet(batch), owner, now, leaseMs)
  }

  /** A reply that describes the batch has its size, and names rows that the claim has just assigned. */
  lemma ReplyDescribesBatch(
    rows: Table, now: int, limit: nat, batch: seq<EventId>, claims: seq<ClaimedEvent>, owner: WorkerId, leaseMs: int)
    requires TakesOldest(rows, now, limit, batch) && multiset(claims) == multiset(Describe(rows, batch))
    ensures |claims| == |batch| <= limit
    ensures AllOwned(ClaimRows(rows, IdSet(batch), owner, now, leaseMs), EventIds(claims), owner)
  {
    var described := Describe(rows, batch);
    assert |multiset(claims)| == |claims| && |multiset(described)| == |described|;
    forall i | 0 <= i < |claims| ensures claims[i].event.id in IdSet(batch) {
      assert claims[i] in multiset(claims);
      assert claims[i] in described;
    }
  }

  lemma NothingToClaim(rows: Table, now: int, link: Link, owner: WorkerId, leaseMs: nat)
    ensures Brings(rows, now, 0, link, [], [])
    ensures TableAfter(rows, now, link, [], owner, leaseMs) == rows
  {
    assert ClaimRows(rows, IdSet([]), owner, now, leaseMs) == rows;
  }

  lemma RunningIsTasks(b: Books, t: TaskId)
    requires Good(b)
    ensures t in b.running <==> t in b.tasks
  {
    assert t in b.running.Keys <==> t in b.tasks;
  }

  /** What the script ends are its tasks that are alive. */
  lemma DueTasks(b: Books, script: Script, owner: WorkerId)
    requires Good(b)
    ensures Due(b, EndingsOf(b, script, owner)).Keys == set t | t in script && t in b.tasks && t !in b.finished
  {
    forall t ensures t in b.running <==> t in b.tasks {
      RunningIsTasks(b, t);
    }
  }
}
