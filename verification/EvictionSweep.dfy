/** The sweep: due members of a sorted set become worker commands and leave the set, with failures at any
    point, several sweepers after a fail-over, and new schedules in between. */
module EvictionSweep {
  import opened Text

  // ---------------------------------------------------------------- src/cleaner/sweep.ts

  datatype Job = Job(action: string, field: string)

  datatype Command = Command(worker: string, action: string, field: string, value: string)

  /** A member is split at its first '|'. */
  function ParseSweepMember(member: string): Option<(string, string)>
  {
    var i := IndexOf(member, '|');
    if i == -1 then None else Some((member[..i], member[i + 1..]))
  }

  predicate WellFormed(member: string) { '|' in member }

  function CommandFor(job: Job, member: string): Command
    requires WellFormed(member)
  {
    var (worker, value) := ParseSweepMember(member).value;
    Command(worker, job.action, job.field, value)
  }

  /** The commands of the well-formed members, in order. */
  function Commands(job: Job, due: seq<string>): seq<Command>
  {
    if due == [] then []
    else
      var last := due[|due| - 1];
      Commands(job, due[..|due| - 1]) + (if WellFormed(last) then [CommandFor(job, last)] else [])
  }

  method PlanSweepJob(job: Job, dueMembers: seq<string>) returns (xadds: seq<Command>, zremMembers: seq<string>)
    ensures xadds == Commands(job, dueMembers)
    ensures zremMembers == dueMembers
  {
    xadds, zremMembers := [], [];
    var i := 0;
    while i < |dueMembers|
      invariant 0 <= i <= |dueMembers|
      invariant xadds == Commands(job, dueMembers[..i]) && zremMembers == dueMembers[..i]
    {
      var member := dueMembers[i];
      var parsed := ParseSweepMember(member);
      assert dueMembers[..i + 1][..i] == dueMembers[..i];
      if parsed.Some? {
        xadds := xadds + [Command(parsed.value.0, job.action, job.field, parsed.value.1)];
      }
      zremMembers := zremMembers + [member];
      i := i + 1;
    }
    assert dueMembers[..|dueMembers|] == dueMembers;
  }

  /** A member reads back as the worker and path it was built from exactly when the worker's name has no
      '|'; the path may hold any. */
  lemma MemberRoundTripIff(worker: string, path: string)
    ensures ParseSweepMember(worker + "|" + path) == Some((worker, path)) <==> '|' !in worker
  {
    var member := worker + "|" + path;
    var i := IndexOf(member, '|');
    assert member[|worker|] == '|';
    if '|' !in worker {
      assert FirstAt(member, '|', |worker|);
      assert member[..|worker|] == worker && member[|worker| + 1..] == path;
    } else {
      var j :| 0 <= j < |worker| && worker[j] == '|';
      assert member[j] == '|';
      assert i <= j;
      assert |member[..i]| < |worker|;
    }
  }

  /** So the command for a member built from a worker's name and a value goes to that worker with that value. */
  lemma CommandIs(job: Job, worker: string, value: string)
    requires '|' !in worker
    ensures WellFormed(worker + "|" + value)
    ensures CommandFor(job, worker + "|" + value) == Command(worker, job.action, job.field, value)
  {
    MemberRoundTripIff(worker, value);
    assert (worker + "|" + value)[|worker|] == '|';
  }

  /** One command for a member with a worker, none for any other, */
  lemma CommandsLast(job: Job, init: seq<string>, m: string)
    ensures Commands(job, init + [m]) == Commands(job, init) + (if '|' in m then [CommandFor(job, m)] else [])
  {
    assert (init + [m])[..|init|] == init;
  }

  /** in the order of the members. */
  lemma {:induction false} CommandsInOrder(job: Job, early: seq<string>, late: seq<string>)
    ensures Commands(job, early + late) == Commands(job, early) + Commands(job, late)
    decreases |late|
  {
    hide CommandFor;
    if late == [] {
      assert early + late == early;
    } else {
      var init, m := late[..|late| - 1], late[|late| - 1];
      CommandsInOrder(job, early, init);
      CommandsLast(job, early + init, m);
      CommandsLast(job, init, m);
      var more := if '|' in m then [CommandFor(job, m)] else [];
      hide Commands, WellFormed;
      assert early + late == (early + init) + [m];
      assert late == init + [m];
      assert Commands(job, early) + Commands(job, init) + more == Commands(job, early) + (Commands(job, init) + more);
    }
  }

  // ---------------------------------------------------------------- sweeping step by step

  datatype Entry = Entry(member: string, score: int)

  /** One run of the loop body over one set: it has read the due entries and handled the first `done`. */
  datatype Tick = Idle | Sweeping(now: int, due: seq<Entry>, done: nat)

  datatype Issue = Issue(entry: Entry, now: int)

  datatype State = State(
    pending: map<string, int>,     // the sorted set
    ticks: seq<Tick>,              // one per sweeping process
    // history
    scheduled: set<Entry>,
    issued: seq<Issue>,            // the commands, by the entry they were read from
    removed: multiset<Entry>,      // entries taken out by ZREM as they had been read
    renewed: multiset<Entry>)      // entries taken out with a score set after the read

  datatype Step =
    | Schedule(entry: Entry)                          // ZADD: a later one replaces the score
    | Read(k: nat, now: int, due: seq<Entry>)         // ZRANGEBYSCORE 0 now
    | Handle(k: nat)                                  // XADD, or nothing for a malformed member
    | Fail(k: nat)                                    // any command fails: the tick is over
    | Remove(k: nat)                                  // ZREM of every member read

  predicate IsDue(pending: map<string, int>, e: Entry, now: int)
  {
    e.member in pending && pending[e.member] == e.score && 0 <= e.score <= now
  }

  ghost predicate DueListing(pending: map<string, int>, now: int, due: seq<Entry>)
  {
    && (forall e :: e in due <==> IsDue(pending, e, now))
    && (forall i, j :: 0 <= i < j < |due| ==> due[i] != due[j])
  }

  ghost predicate Enabled(s: State, step: Step)
  {
    match step
    case Schedule(_) => true
    case Read(k, now, due) => k < |s.ticks| && s.ticks[k].Idle? && DueListing(s.pending, now, due)
    case Handle(k) => k < |s.ticks| && s.ticks[k].Sweeping? && s.ticks[k].done < |s.ticks[k].due|
    case Fail(k) => k < |s.ticks| && s.ticks[k].Sweeping?
    case Remove(k) => k < |s.ticks| && s.ticks[k].Sweeping? && s.ticks[k].done == |s.ticks[k].due|
  }

  /** The entries of some members. */
  function Leaving(pending: map<string, int>, members: set<string>): set<Entry>
  {
    set m | m in members && m in pending :: Entry(m, pending[m])
  }

  function Members(due: seq<Entry>): set<string> { set i | 0 <= i < |due| :: due[i].member }

  ghost function Next(s: State, step: Step): State
    requires Enabled(s, step)
  {
    match step
    case Schedule(e) => s.(pending := s.pending[e.member := e.score], scheduled := s.scheduled + {e})
    case Read(k, now, due) => s.(ticks := s.ticks[k := Sweeping(now, due, 0)])
    case Handle(k) =>
      var t := s.ticks[k];
      var e := t.due[t.done];
      s.(ticks := s.ticks[k := t.(done := t.done + 1)],
         issued := if WellFormed(e.member) then s.issued + [Issue(e, t.now)] else s.issued)
    case Fail(k) => s.(ticks := s.ticks[k := Idle])
    case Remove(k) =>
      var taken := s.pending.Keys * Members(s.ticks[k].due);
      var leaving := Leaving(s.pending, taken);
      var read := set e | e in s.ticks[k].due;
      s.(pending := s.pending - taken, ticks := s.ticks[k := Idle],
         removed := s.removed + multiset(leaving * read), renewed := s.renewed + multiset(leaving - read))
  }

  ghost predicate Valid(s: State, run: seq<Step>)
    decreases |run|
  {
    run == [] || (Enabled(s, run[0]) && Valid(Next(s, run[0]), run[1..]))
  }

  ghost function After(s: State, run: seq<Step>): State
    requires Valid(s, run)
    decreases |run|
  {
    if run == [] then s else After(Next(s, run[0]), run[1..])
  }

  /** An empty set and no sweep under way. */
  predicate Initial(s: State)
  {
    s.pending == map[] && s.scheduled == {} && s.issued == [] && s.removed == multiset{} && s.renewed == multiset{} &&
    forall k :: 0 <= k < |s.ticks| ==> s.ticks[k].Idle?
  }

  // ---------------------------------------------------------------- no command before its time

  ghost predicate Punctual(s: State)
  {
    && (forall m :: m in s.pending ==> Entry(m, s.pending[m]) in s.scheduled)
    && (forall k, i :: 0 <= k < |s.ticks| && s.ticks[k].Sweeping? && 0 <= i < |s.ticks[k].due| ==>
         (s.ticks[k].due[i] in s.scheduled && 0 <= s.ticks[k].due[i].score <= s.ticks[k].now))
    && (forall i :: 0 <= i < |s.issued| ==>
         (s.issued[i].entry in s.scheduled && 0 <= s.issued[i].entry.score <= s.issued[i].now))
  }

  lemma PunctualKept(s: State, step: Step)
    requires Enabled(s, step) && Punctual(s)
    ensures Punctual(Next(s, step))
  {
    if step.Read? {
      forall i | 0 <= i < |step.due|
        ensures IsDue(s.pending, step.due[i], step.now)
      {
        assert step.due[i] in step.due;
      }
    }
  }

  // ---------------------------------------------------------------- no departure without a command

  function IssuedFor(issued: seq<Issue>, e: Entry): nat
  {
    if issued == [] then 0
    else IssuedFor(issued[..|issued| - 1], e) + (if issued[|issued| - 1].entry == e then 1 else 0)
  }

  /** The tick has already issued the command for the entry. */
  predicate Holds(t: Tick, e: Entry)
  {
    t.Sweeping? && t.done <= |t.due| && e in t.due[..t.done]
  }

  function HeldBy(ticks: seq<Tick>, e: Entry): nat
  {
    if ticks == [] then 0 else HeldBy(ticks[..|ticks| - 1], e) + (if Holds(ticks[|ticks| - 1], e) then 1 else 0)
  }

  lemma {:induction false} HeldByUpdate(ticks: seq<Tick>, k: nat, t: Tick, e: Entry)
    requires k < |ticks|
    ensures HeldBy(ticks[k := t], e) == HeldBy(ticks, e) - (if Holds(ticks[k], e) then 1 else 0) + (if Holds(t, e) then 1 else 0)
  {
    var n := |ticks| - 1;
    if k < n {
      HeldByUpdate(ticks[..n], k, t, e);
      assert ticks[k := t][..n] == ticks[..n][k := t];
    } else {
      assert ticks[k := t][..n] == ticks[..n];
    }
  }

  ghost predicate TicksFit(s: State)
  {
    forall k :: 0 <= k < |s.ticks| && s.ticks[k].Sweeping? ==> TickFits(s.ticks[k])
  }

  ghost predicate TickFits(t: Tick)
    requires t.Sweeping?
  {
    t.done <= |t.due| && forall i, j :: 0 <= i < j < |t.due| ==> t.due[i] != t.due[j]
  }

  lemma TicksFitKept(s: State, step: Step)
    requires Enabled(s, step) && TicksFit(s)
    ensures TicksFit(Next(s, step))
  {
  }

  /** Handling the next entry adds it, and it was not there. */
  lemma HandledEntries(t: Tick, e: Entry)
    requires t.Sweeping? && TickFits(t) && t.done < |t.due|
    ensures Holds(t.(done := t.done + 1), e) <==> Holds(t, e) || e == t.due[t.done]
    ensures !Holds(t, t.due[t.done])
  {
    assert t.due[..t.done + 1] == t.due[..t.done] + [t.due[t.done]];
  }

  /** Every departure of an entry that was read is paid for by a command of its own. */
  predicate Paid(s: State, e: Entry) { IssuedFor(s.issued, e) >= s.removed[e] + HeldBy(s.ticks, e) }

  lemma PaidKept(s: State, step: Step, e: Entry)
    requires Enabled(s, step) && TicksFit(s) && WellFormed(e.member) && Paid(s, e)
    ensures Paid(Next(s, step), e)
  {
    hide DueListing, WellFormed, Members, Holds, Leaving;
    match step
    case Schedule(_) =>
    case Read(k, now, due) =>
      IdleHoldsNothing(s.ticks[k], Sweeping(now, due, 0), e);
      HeldByUpdate(s.ticks, k, Sweeping(now, due, 0), e);
    case Handle(k) =>
      var t := s.ticks[k];
      HandledEntries(t, e);
      HeldByUpdate(s.ticks, k, t.(done := t.done + 1), e);
      assert (s.issued + [Issue(t.due[t.done], t.now)])[..|s.issued|] == s.issued;
    case Fail(k) =>
      IdleHoldsNothing(Idle, Idle, e);
      HeldByUpdate(s.ticks, k, Idle, e);
    case Remove(k) =>
      IdleHoldsNothing(Idle, Idle, e);
      HoldsAll(s.ticks[k], e);
      HeldByUpdate(s.ticks, k, Idle, e);
  }

  lemma IdleHoldsNothing(idle: Tick, begun: Tick, e: Entry)
    requires idle.Idle? && (begun.Idle? || begun.done == 0)
    ensures !Holds(idle, e) && !Holds(begun, e)
  {
  }

  lemma HoldsAll(t: Tick, e: Entry)
    requires t.Sweeping? && t.done == |t.due|
    ensures Holds(t, e) <==> e in t.due
  {
    assert t.due[..t.done] == t.due;
  }

  lemma {:induction false} SweepRun(s: State, run: seq<Step>, e: Entry)
    requires Valid(s, run) && Punctual(s) && TicksFit(s) && WellFormed(e.member) && Paid(s, e)
    ensures Punctual(After(s, run)) && TicksFit(After(s, run)) && Paid(After(s, run), e)
    decreases |run|
  {
    hide Next, Enabled, Punctual, TicksFit, WellFormed, Paid;
    if run != [] {
      PunctualKept(s, run[0]);
      TicksFitKept(s, run[0]);
      PaidKept(s, run[0], e);
      SweepRun(Next(s, run[0]), run[1..], e);
    }
  }

  lemma {:induction false} NobodyHolds(ticks: seq<Tick>, e: Entry)
    requires forall k :: 0 <= k < |ticks| ==> ticks[k].Idle?
    ensures HeldBy(ticks, e) == 0
  {
    if ticks != [] { NobodyHolds(ticks[..|ticks| - 1], e); }
  }

  lemma InitiallyPaid(s: State, e: Entry)
    requires Initial(s)
    ensures Punctual(s) && TicksFit(s) && Paid(s, e)
  {
    NobodyHolds(s.ticks, e);
    assert IssuedFor(s.issued, e) == 0;
  }

  /** Over any run of any number of sweepers, with failures at any point: an entry of a well-formed member
      leaves as it was read at most as often as commands were issued for that very entry, and every command
      was issued at or after the time its entry was scheduled for. */
  lemma NoSilentDeparture(s: State, run: seq<Step>, e: Entry)
    requires Initial(s) && Valid(s, run) && WellFormed(e.member)
    ensures var t := After(s, run);
            && t.removed[e] <= IssuedFor(t.issued, e)
            && (forall i :: 0 <= i < |t.issued| ==> (t.issued[i].entry in t.scheduled && t.issued[i].entry.score <= t.issued[i].now))
  {
    InitiallyPaid(s, e);
    hide WellFormed, Initial, IssuedFor, HeldBy;
    SweepRun(s, run, e);
  }

  // ---------------------------------------------------------------- entries renewed during a sweep

  /** The score a run last gave a member. */
  function LastScheduled(run: seq<Step>, m: string): Option<int>
  {
    if run == [] then None
    else
      var last := run[|run| - 1];
      if last.Schedule? && last.entry.member == m then Some(last.entry.score) else LastScheduled(run[..|run| - 1], m)
  }

  lemma {:induction false} LastScheduledCons(step: Step, rest: seq<Step>, m: string)
    ensures LastScheduled([step] + rest, m) ==
            if LastScheduled(rest, m).Some? then LastScheduled(rest, m)
            else if step.Schedule? && step.entry.member == m then Some(step.entry.score) else None
  {
    var run := [step] + rest;
    if rest == [] {
      assert run[..0] == [];
    } else {
      LastScheduledCons(step, rest[..|rest| - 1], m);
      assert run[..|run| - 1] == [step] + rest[..|rest| - 1];
    }
  }

  lemma PendingStep(s: State, step: Step, m: string)
    requires Enabled(s, step) && m in Next(s, step).pending
    ensures if step.Schedule? && step.entry.member == m then Next(s, step).pending[m] == step.entry.score
            else m in s.pending && Next(s, step).pending[m] == s.pending[m]
  {
  }

  /** A member that is there has the score it was last given. */
  lemma {:induction false} PendingScore(s: State, run: seq<Step>, m: string)
    requires Valid(s, run) && m in After(s, run).pending
    ensures match LastScheduled(run, m)
            case Some(score) => After(s, run).pending[m] == score
            case None => m in s.pending && After(s, run).pending[m] == s.pending[m]
    decreases |run|
  {
    if run == [] {
    } else {
      assert run == [run[0]] + run[1..];
      LastScheduledCons(run[0], run[1..], m);
      hide Next, Enabled, LastScheduled;
      PendingScore(Next(s, run[0]), run[1..], m);
      if LastScheduled(run[1..], m).None? { PendingStep(s, run[0], m); }
    }
  }

  /** A member that a sweep takes out leaves as it was read, and so with a command of its own, exactly unless
      it was meanwhile given another score. */
  lemma LeavesAsReadIff(s: State, k: nat, now: int, due: seq<Entry>, between: seq<Step>, m: string)
    requires Enabled(s, Read(k, now, due)) && Valid(Next(s, Read(k, now, due)), between)
    requires var e := After(Next(s, Read(k, now, due)), between);
             Enabled(e, Remove(k)) && e.ticks[k].due == due && m in Members(due) && m in e.pending
    ensures m in s.pending
    ensures var e := After(Next(s, Read(k, now, due)), between);
            Entry(m, e.pending[m]) in due <==> LastScheduled(between, m) == None || LastScheduled(between, m) == Some(s.pending[m])
  {
    var t := Next(s, Read(k, now, due));
    assert t.pending == s.pending;
    PendingScore(t, between, m);
    hide After, Valid, LastScheduled;
    var i :| 0 <= i < |due| && due[i].member == m;
    assert due[i] in due;
    assert IsDue(s.pending, due[i], now);
    assert forall e :: e in due && e.member == m ==> IsDue(s.pending, e, now);
  }

  /** A sweep that comes to its end takes out every member it read, renewed or not, and no other. */
  lemma SweepTakes(s: State, k: nat)
    requires Enabled(s, Remove(k))
    ensures forall m :: m in Next(s, Remove(k)).pending <==> m in s.pending && forall i :: 0 <= i < |s.ticks[k].due| ==> s.ticks[k].due[i].member != m
    ensures forall m :: m in Next(s, Remove(k)).pending ==> Next(s, Remove(k)).pending[m] == s.pending[m]
  {
  }

  // ---------------------------------------------------------------- src/cleaner/run.ts

  class CleanerStore {
    var pending: map<string, int>
    var commands: seq<Command>   // the worker command streams, in the order of the XADDs

    method ScheduleCleanup(member: string, score: int)
      modifies `pending
      ensures pending == old(pending)[member := score]
    {
      pending := pending[member := score];
    }

    method DueSweepMembers(now: int) returns (due: seq<string>)
      ensures forall m :: m in due <==> m in pending && 0 <= pending[m] <= now
      ensures forall i, j :: 0 <= i < j < |due| ==> due[i] != due[j]
    {
      due := [];
      var left := pending.Keys;
      while left != {}
        invariant left <= pending.Keys
        invariant forall m :: m in due <==> m in pending.Keys - left && 0 <= pending[m] <= now
        invariant forall i, j :: 0 <= i < j < |due| ==> due[i] != due[j]
        decreases |left|
      {
        var m :| m in left;
        left := left - {m};
        if 0 <= pending[m] <= now { due := due + [m]; }
      }
    }

    /** May fail. */
    method EnqueueWorkerCommand(command: Command) returns (ok: bool)
      modifies `commands
      ensures commands == if ok then old(commands) + [command] else old(commands)
    {
      ok := *;
      if ok { commands := commands + [command]; }
    }

    method RemoveSweepMembers(members: seq<string>) returns (ok: bool)
      modifies `pending
      ensures pending == if ok then old(pending) - (set m | m in members) else old(pending)
    {
      ok := *;
      if ok { pending := pending - (set m | m in members); }
    }

    /** One pass over one set: on success exactly the due members are gone and exactly their commands were
        added; on any failure every member is still there. */
    method SweepJob(job: Job, now: int) returns (ok: bool, due: seq<string>)
      modifies this
      ensures forall m :: m in due <==> m in old(pending) && 0 <= old(pending)[m] <= now
      ensures ok ==> pending == old(pending) - (set m | m in due) && commands == old(commands) + Commands(job, due)
      ensures !ok ==> pending == old(pending)
      ensures old(commands) <= commands <= old(commands) + Commands(job, due)
    {
      due := DueSweepMembers(now);
      if |due| == 0 { return true, due; }
      var xadds, zremMembers := PlanSweepJob(job, due);
      var i := 0;
      while i < |xadds|
        invariant 0 <= i <= |xadds|
        invariant pending == old(pending) && commands == old(commands) + xadds[..i]
      {
        ok := EnqueueWorkerCommand(xadds[i]);
        if !ok { return false, due; }
        i := i + 1;
      }
      assert xadds[..|xadds|] == xadds;
      ok := RemoveSweepMembers(zremMembers);
    }
  }
}
