/** Threads calling apply at the same time, under the lock and the `_applying` flag.

    A thread passes the unlocked checks, waits for the lock, tests and sets the flag while
    holding it, works on the directory, waits for the lock again, and resets the flag. Threads are
    interleaved one step at a time. Sessions are numbered in the order the flag was taken. A
    session goes through the states that its apply has on the directory it found; but a step it
    makes on a directory that is not where it left it can have any effect at all. */
module ApplyLock {
  import opened Wrappers
  import opened InstallRoot
  import opened ApplyTrail

  type Thread = nat

  datatype Plan = Plan(release: Release, faults: Faults)

  // The states a session takes the directory through, the first being the one it finds.
  type Work = (Disk, Plan) -> seq<Disk>

  datatype Pc =
    | Outside               // not in apply
    | Entering(plan: Plan)  // waiting for the lock
    | Testing(plan: Plan)   // holds the lock, has not tested the flag
    | Refused               // holds the lock, found the flag set
    | Taken(plan: Plan)     // holds the lock, set the flag
      // in the try, except or finally block
    | Working(session: nat, plan: Plan, found: Disk, at: nat)
    | Leaving               // waiting for the lock in the finally block
    | Resetting             // holds the lock, the flag still set
    | Reset                 // holds the lock, the flag reset

  // writes has the session of every step on the directory, done the plans of the finished sessions.
  datatype State = State(
    pcs: map<Thread, Pc>, lock: Option<Thread>, applying: bool, sessions: nat,
    disk: Disk, writes: seq<nat>, done: seq<Plan>)

  ghost predicate Init(s: State) {
    && (forall t | t in s.pcs :: s.pcs[t].Outside?)
    && s.lock.None? && !s.applying && s.sessions == 0 && s.writes == [] && s.done == []
  }

  datatype Move = Call(plan: Plan) | Reject | Acquire | Test | Unlock | Write(effect: Disk) | Finish | ResetFlag

  // A move of thread t; None when it is not there to make it.
  function Step(work: Work, s: State, t: Thread, m: Move): Option<State> {
    if t !in s.pcs then None
    else
      match (m, s.pcs[t])
      // disabled, not a version, not newer: raised before the lock
      case (Reject, Outside) => Some(s)
      case (Call(plan), Outside) => Some(s.(pcs := s.pcs[t := Entering(plan)]))
      case (Acquire, Entering(plan)) =>
        if s.lock.None? then Some(s.(pcs := s.pcs[t := Testing(plan)], lock := Some(t))) else None
      case (Test, Testing(plan)) =>
        if s.applying then Some(s.(pcs := s.pcs[t := Refused]))
        else Some(s.(pcs := s.pcs[t := Taken(plan)], applying := true, sessions := s.sessions + 1))
      case (Unlock, Refused) => Some(s.(pcs := s.pcs[t := Outside], lock := None))
      case (Unlock, Taken(plan)) => Some(s.(pcs := s.pcs[t := Working(s.sessions, plan, s.disk, 0)], lock := None))
      case (Write(effect), Working(session, plan, found, at)) =>
        var trail := work(found, plan);
        if at + 1 < |trail| then
          Some(s.(pcs := s.pcs[t := Working(session, plan, found, at + 1)],
                  disk := if s.disk == trail[at] then trail[at + 1] else effect,
                  writes := s.writes + [session]))
        else None
      case (Finish, Working(_, plan, found, at)) =>
        if at + 1 < |work(found, plan)| then None
        else Some(s.(pcs := s.pcs[t := Leaving], done := s.done + [plan]))
      case (Acquire, Leaving) =>
        if s.lock.None? then Some(s.(pcs := s.pcs[t := Resetting], lock := Some(t))) else None
      case (ResetFlag, Resetting) => Some(s.(pcs := s.pcs[t := Reset], applying := false))
      case (Unlock, Reset) => Some(s.(pcs := s.pcs[t := Outside], lock := None))
      case _ => None
  }

  ghost predicate IsRun(work: Work, run: seq<State>) {
    && run != [] && Init(run[0])
    && forall i | 0 <= i < |run| - 1 :: exists t, m :: Step(work, run[i], t, m) == Some(run[i + 1])
  }

  // Between setting the flag and resetting it.
  predicate Inside(pc: Pc) {
    pc.Taken? || pc.Working? || pc.Leaving? || pc.Resetting?
  }

  predicate InProgress(pc: Pc) {
    pc.Taken? || pc.Working?
  }

  predicate Holding(pc: Pc) {
    pc.Testing? || pc.Refused? || pc.Taken? || pc.Resetting? || pc.Reset?
  }

  function Insiders(s: State): set<Thread> {
    set t | t in s.pcs && Inside(s.pcs[t])
  }

  predicate Ordered(writes: seq<nat>) {
    forall i, j | 0 <= i < j < |writes| :: writes[i] <= writes[j]
  }

  // ---------- one after another ----------

  // What a session that nobody disturbs makes of the directory it finds.
  type Effect = (Disk, Plan) -> Disk

  ghost predicate Leads(work: Work, effect: Effect) {
    forall d, p :: |work(d, p)| > 0 && work(d, p)[0] == d && work(d, p)[|work(d, p)| - 1] == effect(d, p)
  }

  // The directory after these sessions, each on what the one before it left.
  function InTurn(effect: Effect, d: Disk, plans: seq<Plan>): Disk {
    if plans == [] then d else effect(InTurn(effect, d, plans[..|plans| - 1]), plans[|plans| - 1])
  }

  // ---------- what holds in every state ----------

  // owner is the thread inside, if any; d the directory at the start.
  ghost predicate Inv(work: Work, effect: Effect, d: Disk, s: State, owner: Option<Thread>) {
    OwnerInv(s, owner) && WritesInv(s) && CountInv(s, owner) && DiskInv(work, effect, d, s, owner)
  }

  ghost predicate OwnerInv(s: State, owner: Option<Thread>) {
    && (forall t | t in s.pcs :: Holding(s.pcs[t]) <==> s.lock == Some(t))
    && (forall t | t in s.pcs :: Inside(s.pcs[t]) <==> owner == Some(t))
    && (s.lock.Some? ==> s.lock.value in s.pcs)
    && (owner.Some? ==> owner.value in s.pcs)
    && (s.applying <==> owner.Some?)
  }

  ghost predicate WritesInv(s: State) {
    && (forall t | t in s.pcs && s.pcs[t].Working? :: s.pcs[t].session == s.sessions)
    && (forall w | w in s.writes :: w <= s.sessions)
    && Ordered(s.writes)
  }

  ghost predicate DiskInv(work: Work, effect: Effect, d: Disk, s: State, owner: Option<Thread>) {
    if owner.Some? && owner.value in s.pcs && s.pcs[owner.value].Working?
    then InSession(work, effect, d, s, s.pcs[owner.value])
    else s.disk == InTurn(effect, d, s.done)
  }

  ghost predicate CountInv(s: State, owner: Option<Thread>) {
    s.sessions == |s.done| + if owner.Some? && owner.value in s.pcs && InProgress(s.pcs[owner.value]) then 1 else 0
  }

  // The session works on what the finished ones left, and the directory is where it left it.
  ghost predicate InSession(work: Work, effect: Effect, d: Disk, s: State, pc: Pc)
    requires pc.Working?
  {
    var trail := work(pc.found, pc.plan);
    pc.found == InTurn(effect, d, s.done) && pc.at < |trail| && s.disk == trail[pc.at]
  }

  lemma OwnerKept(work: Work, s: State, owner: Option<Thread>, t: Thread, m: Move, s': State)
    returns (owner': Option<Thread>)
    requires OwnerInv(s, owner) && Step(work, s, t, m) == Some(s')
    ensures OwnerInv(s', owner')
  {
    owner' := if m.Test? && s.pcs[t].Testing? && !s.applying then Some(t)
              else if m.ResetFlag? then None
              else owner;
  }

  lemma WritesKept(work: Work, s: State, owner: Option<Thread>, t: Thread, m: Move, s': State)
    requires OwnerInv(s, owner) && WritesInv(s) && Step(work, s, t, m) == Some(s')
    ensures WritesInv(s')
  {
    assert forall i | 0 <= i < |s.writes| :: s.writes[i] in s.writes;
  }

  lemma CountKept(work: Work, s: State, owner: Option<Thread>, t: Thread, m: Move, s': State, owner': Option<Thread>)
    requires OwnerInv(s, owner) && CountInv(s, owner) && Step(work, s, t, m) == Some(s') && OwnerInv(s', owner')
    ensures CountInv(s', owner')
  {
    assert t in s'.pcs;
  }

  lemma DiskKept(work: Work, effect: Effect, d: Disk, s: State, owner: Option<Thread>, t: Thread, m: Move,
                 s': State, owner': Option<Thread>)
    requires Leads(work, effect)
    requires OwnerInv(s, owner) && DiskInv(work, effect, d, s, owner)
    requires Step(work, s, t, m) == Some(s') && OwnerInv(s', owner')
    ensures DiskInv(work, effect, d, s', owner')
  {
    assert t in s'.pcs;
    if s.pcs[t].Working? {
      WorkingStepKeepsDisk(work, effect, d, s, t, m, s');
    } else if s.pcs[t].Taken? {
      BeginningKeepsDisk(work, effect, d, s, t, m, s');
    }
  }

  lemma BeginningKeepsDisk(work: Work, effect: Effect, d: Disk, s: State, t: Thread, m: Move, s': State)
    requires Leads(work, effect)
    requires t in s.pcs && s.pcs[t].Taken? && s.disk == InTurn(effect, d, s.done) && Step(work, s, t, m) == Some(s')
    ensures t in s'.pcs && s'.pcs[t].Working? && InSession(work, effect, d, s', s'.pcs[t])
  {
    assert |work(s.disk, s.pcs[t].plan)| > 0;
  }

  lemma WorkingStepKeepsDisk(work: Work, effect: Effect, d: Disk, s: State, t: Thread, m: Move, s': State)
    requires Leads(work, effect)
    requires t in s.pcs && s.pcs[t].Working? && InSession(work, effect, d, s, s.pcs[t])
    requires Step(work, s, t, m) == Some(s')
    ensures t in s'.pcs
    ensures if s'.pcs[t].Working? then InSession(work, effect, d, s', s'.pcs[t])
            else s'.disk == InTurn(effect, d, s'.done)
  {
    if m.Finish? {
      assert s'.done[..|s'.done| - 1] == s.done;
    }
  }

  lemma {:induction false} RunInv(work: Work, effect: Effect, run: seq<State>, i: nat) returns (owner: Option<Thread>)
    requires IsRun(work, run) && Leads(work, effect) && i < |run|
    ensures Inv(work, effect, run[0].disk, run[i], owner)
  {
    if i > 0 {
      var before := RunInv(work, effect, run, i - 1);
      var t, m :| Step(work, run[i - 1], t, m) == Some(run[i - 1 + 1]);
      owner := OwnerKept(work, run[i - 1], before, t, m, run[i]);
      WritesKept(work, run[i - 1], before, t, m, run[i]);
      CountKept(work, run[i - 1], before, t, m, run[i], owner);
      DiskKept(work, effect, run[0].disk, run[i - 1], before, t, m, run[i], owner);
    } else {
      owner := None;
    }
  }

  // ---------- the main statements ----------

  // What apply does with the directory.
  function Applying(): Work {
    (d: Disk, p: Plan) => Apply(d, p.release, p.faults).world.trail
  }

  function Updating(): Effect {
    (d: Disk, p: Plan) => Apply(d, p.release, p.faults).world.disk
  }

  lemma ApplyingLeads()
    ensures Leads(Applying(), Updating())
  {
    forall d: Disk, p: Plan
      ensures var trail := Applying()(d, p);
              |trail| > 0 && trail[0] == d && trail[|trail| - 1] == Updating()(d, p)
    {
      ApplyTracks(d, p.release, p.faults);
    }
  }

  // The directory after these updates, one after another.
  function Updated(d: Disk, plans: seq<Plan>): Disk {
    InTurn(Updating(), d, plans)
  }

  predicate Idle(s: State) {
    forall t | t in s.pcs :: !s.pcs[t].Working?
  }

  /** In every state of every run, the flag is set exactly when one thread is between taking
      and resetting it, and there is never a second one. */
  lemma MutualExclusion(run: seq<State>, i: nat)
    requires IsRun(Applying(), run) && i < |run|
    ensures |Insiders(run[i])| == if run[i].applying then 1 else 0
  {
    ApplyingLeads();
    var owner := RunInv(Applying(), Updating(), run, i);
    assert Insiders(run[i]) == if owner.Some? then {owner.value} else {};
  }

  /** The writes of two applies never interleave: in the order they happen, all writes of one
      session come before all writes of the next. */
  lemma SessionsNeverInterleave(run: seq<State>, i: nat)
    requires IsRun(Applying(), run) && i < |run|
    ensures Ordered(run[i].writes)
  {
    ApplyingLeads();
    var owner := RunInv(Applying(), Updating(), run, i);
  }

  /** Concurrent applies are serialisable: while none is working, the directory is the one that the
      finished updates, applied one after another, lead to; and otherwise it is in a state that the
      update in progress goes through when it is applied to that one. No session is lost: all that
      took the flag are finished or in progress. So what holds of a single apply holds under every
      interleaving of threads. */
  lemma Serialisable(run: seq<State>, i: nat)
    requires IsRun(Applying(), run) && i < |run|
    ensures var s := run[i];
            var before := Updated(run[0].disk, s.done);
            && (Idle(s) ==> s.disk == before)
            && (forall t | t in s.pcs && s.pcs[t].Working? ::
                  s.disk in Apply(before, s.pcs[t].plan.release, s.pcs[t].plan.faults).world.trail)
            && s.sessions == |s.done| + |set t | t in s.pcs && InProgress(s.pcs[t])|
  {
    ApplyingLeads();
    SerialisableFor(Applying(), Updating(), run, i);
  }

  lemma SerialisableFor(work: Work, effect: Effect, run: seq<State>, i: nat)
    requires IsRun(work, run) && Leads(work, effect) && i < |run|
    ensures var s := run[i];
            var before := InTurn(effect, run[0].disk, s.done);
            && (Idle(s) ==> s.disk == before)
            && (forall t | t in s.pcs && s.pcs[t].Working? :: s.disk in work(before, s.pcs[t].plan))
            && s.sessions == |s.done| + |set t | t in s.pcs && InProgress(s.pcs[t])|
  {
    var owner := RunInv(work, effect, run, i);
    var s := run[i];
    assert forall t | t in s.pcs && s.pcs[t].Working? :: owner == Some(t);
    assert (set t | t in s.pcs && InProgress(s.pcs[t]))
        == if owner.Some? && InProgress(s.pcs[owner.value]) then {owner.value} else {};
  }

  /** A step that changes the directory belongs to the one thread inside; refused and rejected
      callers change nothing but their own position. */
  lemma OnlyTheInsiderWrites(run: seq<State>, i: nat, t: Thread, m: Move)
    requires IsRun(Applying(), run) && i + 1 < |run| && Step(Applying(), run[i], t, m) == Some(run[i + 1])
    requires run[i].writes != run[i + 1].writes || run[i].disk != run[i + 1].disk
    ensures run[i].applying && Insiders(run[i]) == {t}
    ensures run[i + 1].writes == run[i].writes + [run[i].sessions]
  {
    ApplyingLeads();
    var owner := RunInv(Applying(), Updating(), run, i);
    assert Insiders(run[i]) == {t};
  }

  /** Every way out of apply gives the flag and the lock back: when all threads are outside
      again, the next caller will not be refused. */
  lemma FlagAlwaysReleased(run: seq<State>, i: nat)
    requires IsRun(Applying(), run) && i < |run|
    requires forall t | t in run[i].pcs :: run[i].pcs[t].Outside?
    ensures !run[i].applying && run[i].lock.None?
  {
    ApplyingLeads();
    var owner := RunInv(Applying(), Updating(), run, i);
  }

  // ---------- callers get through ----------

  // What thread t does when it makes these moves and no other thread moves.
  function Perform(work: Work, s: State, t: Thread, moves: seq<Move>): Option<State>
    decreases |moves|
  {
    if moves == [] then Some(s)
    else
      var next := Step(work, s, t, moves[0]);
      if next.None? then None else Perform(work, next.value, t, moves[1..])
  }

  lemma {:induction false} PerformConcat(work: Work, s: State, t: Thread, a: seq<Move>, b: seq<Move>, s1: State)
    requires Perform(work, s, t, a) == Some(s1)
    decreases |a|
    ensures Perform(work, s, t, a + b) == Perform(work, s1, t, b)
  {
    if a == [] {
      assert a + b == b;
    } else {
      assert (a + b)[1..] == a[1..] + b;
      PerformConcat(work, Step(work, s, t, a[0]).value, t, a[1..], b, s1);
    }
  }

  lemma PerformFour(work: Work, s: State, t: Thread, a: Move, b: Move, c: Move, d: Move, s1: State, s2: State,
                    s3: State, s4: State)
    requires Step(work, s, t, a) == Some(s1) && Step(work, s1, t, b) == Some(s2)
    requires Step(work, s2, t, c) == Some(s3) && Step(work, s3, t, d) == Some(s4)
    ensures Perform(work, s, t, [a, b, c, d]) == Some(s4)
  {
    var all := [a, b, c, d];
    assert all[1..] == [b, c, d] && all[1..][1..] == [c, d] && all[1..][1..][1..] == [d];
    assert [d][1..] == [];
    assert Perform(work, s3, t, [d]) == Some(s4);
    assert Perform(work, s2, t, [c, d]) == Some(s4);
    assert Perform(work, s1, t, [b, c, d]) == Some(s4);
  }

  /** A caller that comes while the flag is set and the lock free is refused, and leaves everything
      as it was. */
  lemma BusyIsRefused(s: State, t: Thread, plan: Plan)
    requires t in s.pcs && s.pcs[t].Outside? && s.lock.None? && s.applying
    ensures Perform(Applying(), s, t, [Call(plan), Acquire, Test, Unlock]) == Some(s)
  {
    RefusedWhileBusy(Applying(), s, t, plan);
  }

  lemma RefusedWhileBusy(work: Work, s: State, t: Thread, plan: Plan)
    requires t in s.pcs && s.pcs[t].Outside? && s.lock.None? && s.applying
    ensures Perform(work, s, t, [Call(plan), Acquire, Test, Unlock]) == Some(s)
  {
    var s1 := s.(pcs := s.pcs[t := Entering(plan)]);
    var s2 := s.(pcs := s.pcs[t := Testing(plan)], lock := Some(t));
    var s3 := s.(pcs := s.pcs[t := Refused], lock := Some(t));
    assert s1.pcs[t := Testing(plan)] == s2.pcs && s2.pcs[t := Refused] == s3.pcs;
    assert s3.pcs[t := Outside] == s.pcs;
    PerformFour(work, s, t, Call(plan), Acquire, Test, Unlock, s1, s2, s3, s);
  }

  /** One that comes while flag and lock are free gets through: if no other thread interferes, its
      update is applied to the directory as a whole, and flag and lock are free again. */
  lemma FreeGetsThrough(s: State, t: Thread, plan: Plan) returns (moves: seq<Move>)
    requires t in s.pcs && s.pcs[t].Outside? && s.lock.None? && !s.applying
    ensures moves != [] && moves[0] == Call(plan)
    ensures var end := Perform(Applying(), s, t, moves);
            && end.Some? && end.value.pcs == s.pcs && end.value.lock.None? && !end.value.applying
            && end.value.disk == Apply(s.disk, plan.release, plan.faults).world.disk
            && end.value.done == s.done + [plan] && end.value.sessions == s.sessions + 1
  {
    ApplyingLeads();
    moves := GetsThrough(Applying(), Updating(), s, t, plan);
  }

  lemma GetsThrough(work: Work, effect: Effect, s: State, t: Thread, plan: Plan) returns (moves: seq<Move>)
    requires t in s.pcs && s.pcs[t].Outside? && s.lock.None? && !s.applying && Leads(work, effect)
    ensures moves != [] && moves[0] == Call(plan)
    ensures var end := Perform(work, s, t, moves);
            && end.Some? && end.value.pcs == s.pcs && end.value.lock.None? && !end.value.applying
            && end.value.disk == effect(s.disk, plan)
            && end.value.done == s.done + [plan] && end.value.sessions == s.sessions + 1
  {
    var begun := Begins(work, s, t, plan);
    var writes, written := Writes(work, begun, t, s.sessions + 1, plan, s.disk, 0);
    var end := Ends(work, written, t, s.sessions + 1, plan, s.disk, |work(s.disk, plan)| - 1);
    moves := [Call(plan), Acquire, Test, Unlock] + (writes + [Finish, Acquire, ResetFlag, Unlock]);
    PerformConcat(work, begun, t, writes, [Finish, Acquire, ResetFlag, Unlock], written);
    PerformConcat(work, s, t, [Call(plan), Acquire, Test, Unlock], writes + [Finish, Acquire, ResetFlag, Unlock],
                  begun);
    assert end.pcs == s.pcs;
  }

  lemma Begins(work: Work, s: State, t: Thread, plan: Plan) returns (begun: State)
    requires t in s.pcs && s.pcs[t].Outside? && s.lock.None? && !s.applying
    ensures Perform(work, s, t, [Call(plan), Acquire, Test, Unlock]) == Some(begun)
    ensures begun == s.(pcs := s.pcs[t := Working(s.sessions + 1, plan, s.disk, 0)], applying := true,
                        sessions := s.sessions + 1)
  {
    var s1 := s.(pcs := s.pcs[t := Entering(plan)]);
    var s2 := s.(pcs := s.pcs[t := Testing(plan)], lock := Some(t));
    var s3 := s.(pcs := s.pcs[t := Taken(plan)], lock := Some(t), applying := true, sessions := s.sessions + 1);
    begun := s.(pcs := s.pcs[t := Working(s.sessions + 1, plan, s.disk, 0)], applying := true,
                sessions := s.sessions + 1);
    assert s1.pcs[t := Testing(plan)] == s2.pcs && s2.pcs[t := Taken(plan)] == s3.pcs;
    assert s3.pcs[t := Working(s.sessions + 1, plan, s.disk, 0)] == begun.pcs;
    PerformFour(work, s, t, Call(plan), Acquire, Test, Unlock, s1, s2, s3, begun);
  }

  // A session goes on to the end of its trail.
  lemma {:induction false} Writes(work: Work, s: State, t: Thread, session: nat, plan: Plan, found: Disk, at: nat)
    returns (moves: seq<Move>, end: State)
    requires t in s.pcs && s.pcs[t] == Working(session, plan, found, at)
    requires at < |work(found, plan)| && s.disk == work(found, plan)[at]
    decreases |work(found, plan)| - at
    ensures Perform(work, s, t, moves) == Some(end)
    ensures var last := |work(found, plan)| - 1;
            && end == s.(pcs := end.pcs, disk := work(found, plan)[last], writes := end.writes)
            && end.pcs == s.pcs[t := Working(session, plan, found, last)]
  {
    var trail := work(found, plan);
    if at + 1 == |trail| {
      moves, end := [], s;
    } else {
      var next := Step(work, s, t, Write(s.disk)).value;
      var rest;
      rest, end := Writes(work, next, t, session, plan, found, at + 1);
      moves := [Write(s.disk)] + rest;
      assert moves[1..] == rest;
    }
  }

  lemma Ends(work: Work, s: State, t: Thread, session: nat, plan: Plan, found: Disk, at: nat) returns (end: State)
    requires t in s.pcs && s.pcs[t] == Working(session, plan, found, at) && s.lock.None?
    requires at + 1 == |work(found, plan)|
    ensures Perform(work, s, t, [Finish, Acquire, ResetFlag, Unlock]) == Some(end)
    ensures end == s.(pcs := s.pcs[t := Outside], applying := false, done := s.done + [plan])
  {
    var s1 := s.(pcs := s.pcs[t := Leaving], done := s.done + [plan]);
    var s2 := s1.(pcs := s.pcs[t := Resetting], lock := Some(t));
    var s3 := s2.(pcs := s.pcs[t := Reset], applying := false);
    end := s.(pcs := s.pcs[t := Outside], applying := false, done := s.done + [plan]);
    assert s1.pcs[t := Resetting] == s2.pcs && s2.pcs[t := Reset] == s3.pcs && s3.pcs[t := Outside] == end.pcs;
    PerformFour(work, s, t, Finish, Acquire, ResetFlag, Unlock, s1, s2, s3, end);
  }
}
