/** Sleep locks over sleep and wakeup: acquiresleep, releasesleep and kill as interleaved
    steps of any number of processes.  A step is what a process does between two points where
    another process can see or change the state it works on. */
module SleepLock {

  /** Where a process is with respect to one sleep lock. */
  datatype Pc =
    | Out          // outside
    | WantLk       // acquiresleep: acquire(&lk->lk)
    | Test         // while (lk->locked)
    | GotIt        // lk->locked and lk->pid are set, lk->lk still held
    | WantP        // sleep: acquire(&p->lock)
    | DropLk       // sleep: release(lk)
    | SetSleep     // sleep: set chan and SLEEPING, p->lock held
    | SwitchOut    // SLEEPING, p->lock still held, on the way to the scheduler
    | Asleep       // SLEEPING
    | Ready        // RUNNABLE again
    | Woken        // RUNNING, p->lock held
    | Relock       // sleep: acquire(lk)
    | Owns         // acquiresleep has returned
    | WantRel      // releasesleep: acquire(&lk->lk)
    | Clear        // lk->locked = 0
    | Waking(i: nat)  // wakeup: at process i
    | EndRel       // release(&lk->lk)

  /** The lock's `locked` and `pid`, the process that holds the inner spinlock (-1 for none),
      and the place of each process. */
  datatype State = State(locked: bool, pid: int, inner: int, pc: seq<Pc>)

  predicate HoldsInner(c: Pc) {
    c.Test? || c.GotIt? || c.WantP? || c.DropLk? || c.Clear? || c.Waking? || c.EndRel?
  }

  predicate HoldsPlock(c: Pc) {
    c.DropLk? || c.SetSleep? || c.SwitchOut? || c.Woken?
  }

  predicate HoldsLock(c: Pc) {
    c.GotIt? || c.Owns? || c.WantRel? || c.Clear?
  }

  /** p->state == SLEEPING with chan == lk, or committed to it. */
  predicate Waits(c: Pc) {
    c.SetSleep? || c.SwitchOut? || c.Asleep?
  }

  /** What can happen: process `p` goes on, or somebody kills process `p`. */
  datatype Step = Go(p: nat) | Kill(p: nat)

  predicate Enabled(s: State, t: Step) {
    && t.p < |s.pc|
    && match t
       case Kill(q) => !HoldsPlock(s.pc[q])
       case Go(p) =>
         match s.pc[p]
         case WantLk => s.inner == -1
         case Relock => s.inner == -1
         case WantRel => s.inner == -1
         case Asleep => false
         case Waking(i) => i < |s.pc| && i != p ==> !HoldsPlock(s.pc[i])
         case _ => true
  }

  function Next(s: State, t: Step): (r: State)
    requires Enabled(s, t)
  {
    var p := t.p;
    match t
    case Kill(_) => if s.pc[p].Asleep? then s.(pc := s.pc[p := Ready]) else s
    case Go(_) =>
      match s.pc[p]
      case Out => s.(pc := s.pc[p := WantLk])
      case WantLk => s.(inner := p, pc := s.pc[p := Test])
      case Test => if s.locked then s.(pc := s.pc[p := WantP])
                   else s.(locked := true, pid := p, pc := s.pc[p := GotIt])
      case GotIt => s.(inner := -1, pc := s.pc[p := Owns])
      case WantP => s.(pc := s.pc[p := DropLk])
      case DropLk => s.(inner := -1, pc := s.pc[p := SetSleep])
      case SetSleep => s.(pc := s.pc[p := SwitchOut])
      case SwitchOut => s.(pc := s.pc[p := Asleep])
      case Asleep => s
      case Ready => s.(pc := s.pc[p := Woken])
      case Woken => s.(pc := s.pc[p := Relock])
      case Relock => s.(inner := p, pc := s.pc[p := Test])
      case Owns => s.(pc := s.pc[p := WantRel])
      case WantRel => s.(inner := p, pc := s.pc[p := Clear])
      case Clear => s.(locked := false, pid := -1, pc := s.pc[p := Waking(0)])
      case Waking(i) =>
        if i >= |s.pc| then s.(pc := s.pc[p := EndRel])
        else
          var pc := if i != p && s.pc[i].Asleep? then s.pc[i := Ready] else s.pc;
          s.(pc := pc[p := Waking(i + 1)])
      case EndRel => s.(inner := -1, pc := s.pc[p := Out])
  }

  /** What holds of process `p`. */
  ghost predicate ProcOk(s: State, p: nat)
    requires p < |s.pc|
  {
    var c := s.pc[p];
    && (HoldsInner(c) <==> s.inner == p)
    && (HoldsLock(c) <==> s.locked && s.pid == p)
    && (c.WantP? || c.DropLk? ==> s.locked)
    && (Waits(c) && !s.locked ==> 0 <= s.inner < |s.pc| && s.pc[s.inner].Waking? && s.pc[s.inner].i <= p)
  }

  ghost predicate Ok(s: State) {
    && -1 <= s.inner < |s.pc| && (s.locked ==> 0 <= s.pid < |s.pc|)
    && forall p: nat :: p < |s.pc| ==> ProcOk(s, p)
  }

  lemma {:induction false} StepOk(s: State, t: Step)
    requires Ok(s) && Enabled(s, t)
    ensures Ok(Next(s, t)) && |Next(s, t).pc| == |s.pc|
  {
    hide ProcOk;
    forall q: nat | q < |s.pc| ensures ProcOk(Next(s, t), q) {
      assert ProcOk(s, t.p) && ProcOk(s, q);
      assert s.inner >= 0 ==> ProcOk(s, s.inner);
      StepOne(s, t, q);
    }
    StepBounds(s, t);
  }

  lemma {:induction false} StepBounds(s: State, t: Step)
    requires Ok(s) && Enabled(s, t)
    ensures var s' := Next(s, t);
            |s'.pc| == |s.pc| && -1 <= s'.inner < |s'.pc| && (s'.locked ==> 0 <= s'.pid < |s'.pc|)
  {
  }

  lemma {:induction false} StepOne(s: State, t: Step, q: nat)
    requires Enabled(s, t) && -1 <= s.inner < |s.pc| && q < |s.pc|
    requires ProcOk(s, t.p) && ProcOk(s, q) && (s.inner >= 0 ==> ProcOk(s, s.inner))
    ensures |Next(s, t).pc| == |s.pc| && ProcOk(Next(s, t), q)
  {
  }

  /** A sleeping process that is killed can go on, and comes to test the lock again; any other
      process does not notice at once. */
  lemma {:induction false} KillWakes(s: State, p: nat)
    requires Enabled(s, Kill(p))
    ensures var s' := Next(s, Kill(p));
            && s'.locked == s.locked && s'.pid == s.pid && s'.inner == s.inner && |s'.pc| == |s.pc|
            && (forall q :: 0 <= q < |s.pc| && q != p ==> s'.pc[q] == s.pc[q])
            && (!s.pc[p].Asleep? ==> s'.pc[p] == s.pc[p])
            && (s.pc[p].Asleep? ==> !Waits(s'.pc[p]) && Enabled(s', Go(p)))
            && (s.pc[p].Asleep? && s.inner == -1 ==> Going(s', p, 3).pc[p] == Test && Going(s', p, 3).inner == p)
  {
    if s.pc[p].Asleep? && s.inner == -1 {
      var s1 := Next(s, Kill(p));
      var s2 := Next(s1, Go(p));
      var s3 := Next(s2, Go(p));
      assert Going(s1, p, 3) == Going(s2, p, 2) == Going(s3, p, 1);
      assert Going(s3, p, 1) == Going(Next(s3, Go(p)), p, 0);
    }
  }

  /** Process `p` takes up to `n` steps. */
  ghost function Going(s: State, p: nat, n: nat): State
    decreases n
  {
    if n == 0 || !Enabled(s, Go(p)) then s else Going(Next(s, Go(p)), p, n - 1)
  }

  /** releasesleep, from its wakeup on, wakes every process that sleeps on the lock. */
  lemma {:induction false} ReleaseWakes(s: State, p: nat, i: nat)
    requires p < |s.pc| && s.pc[p] == Waking(i) && i <= |s.pc|
    requires forall q :: 0 <= q < |s.pc| && q != p ==> !HoldsPlock(s.pc[q])
    ensures var s' := Going(s, p, |s.pc| - i + 1);
            && |s'.pc| == |s.pc| && s'.pc[p] == EndRel && s'.locked == s.locked
            && forall q :: 0 <= q < |s.pc| && q != p ==>
                 s'.pc[q] == if q >= i && s.pc[q].Asleep? then Ready else s.pc[q]
    decreases |s.pc| - i
  {
    var s1 := Next(s, Go(p));
    assert Enabled(s, Go(p)) && Going(s, p, |s.pc| - i + 1) == Going(s1, p, |s.pc| - i);
    if i < |s.pc| { ReleaseWakes(s1, p, i + 1); }
  }

  // ---- Whole runs ----

  datatype Run = Boot(nproc: nat) | Then(before: Run, step: Step)

  ghost function Start(n: nat): (s: State)
    ensures Ok(s) && |s.pc| == n
  {
    State(false, -1, -1, seq(n, _ => Out))
  }

  ghost predicate RunOk(r: Run)
    decreases r, 0
  {
    match r
    case Boot(_) => true
    case Then(before, t) => RunOk(before) && Enabled(At(before), t)
  }

  ghost function At(r: Run): (s: State)
    requires RunOk(r)
    ensures Ok(s)
    decreases r, 1
  {
    match r
    case Boot(n) => Start(n)
    case Then(before, t) =>
      StepOk(At(before), t);
      Next(At(before), t)
  }

  /** Two processes never hold the sleep lock together. */
  lemma {:induction false} MutualExclusion(r: Run, p: nat, q: nat)
    requires RunOk(r) && p < |At(r).pc| && q < |At(r).pc| && HoldsLock(At(r).pc[p]) && HoldsLock(At(r).pc[q])
    ensures p == q && At(r).locked && At(r).pid == p
  {
    assert ProcOk(At(r), p) && ProcOk(At(r), q);
  }

  /** No wakeup is lost: when the sleep lock is not held and nobody works on it, no process
      sleeps on it or is about to. */
  lemma {:induction false} NoLostWakeup(r: Run, p: nat)
    requires RunOk(r) && p < |At(r).pc| && At(r).inner == -1 && !At(r).locked
    ensures !Waits(At(r).pc[p])
  {
    assert ProcOk(At(r), p);
  }

  /** A process that somebody waits for can go on: the holder of the inner spinlock, or the
      process whose p->lock it needs. */
  lemma {:induction false} InnerGoesOn(s: State) returns (p: nat)
    requires Ok(s) && s.inner >= 0
    ensures p < |s.pc| && !s.pc[p].Out? && Enabled(s, Go(p))
  {
    p := s.inner;
    assert ProcOk(s, p);
    if s.pc[p].Waking? && s.pc[p].i < |s.pc| && s.pc[p].i != p && HoldsPlock(s.pc[s.pc[p].i]) {
      p := s.pc[p].i;
    }
  }

  /** There is no deadlock: while a process sleeps, some process inside the protocol can take
      a step. */
  lemma {:induction false} SleeperIsServed(r: Run, q: nat) returns (p: nat)
    requires RunOk(r) && q < |At(r).pc| && Waits(At(r).pc[q])
    ensures p < |At(r).pc| && !At(r).pc[p].Out? && Enabled(At(r), Go(p))
  {
    var s := At(r);
    assert ProcOk(s, q);
    if s.inner >= 0 {
      p := InnerGoesOn(s);
    } else {
      p := s.pid;
      assert ProcOk(s, p);
    }
  }
}
