/** Role switches against the uevent thread: any number of API threads and one worker,
    three locks and a condition variable, as interleaved steps.  The log records what
    matters to the outside: writes to port_type, handled partner events, verdicts. */
module RoleSwitch {

  import opened Options

  type Tid = nat

  // The uevent thread; every other number is a thread making an API call.
  const WORKER: Tid := 0

  datatype Pc =
    | Idle
    // switchRole and switchMode
    | LockRole(mode: bool)
    | OpenType
    | LockPartner
    | ClearUp
    | WriteRole
    | CallWait
    | Waiting
    | Relock(timedOut: bool)
    | Check(timedOut: bool)
    | UnlockPartner(ok: bool, timedOut: bool)
    | Decide(ok: bool, timedOut: bool)
    | SwitchBack
    | OtherRole
    | LockNotify(mode: bool, ok: bool)
    | Notify(mode: bool, ok: bool)
    | UnlockRole
    // any other call that takes mLock: queries, status updates, a callback being set
    | LockMain
    | InMain
    // the uevent thread: a partner event, or a port change
    | WorkerLockPartner
    | WorkerSetUp
    | WorkerUnlockPartner
    | WorkerLockMain
    | WorkerInMain
    | WorkerTryRole
    | WorkerDual

  /** `Dual` is an attempt to write "dual" and whether it succeeded, `Told` the notification that ends
      a switch: of the mode or of another role, and with which status. */
  datatype Entry =
    | Cleared(t: Tid)
    | Wrote(t: Tid)
    | Dual(t: Tid, ok: bool)
    | PartnerAdded
    | Verdict(t: Tid, ok: bool, timedOut: bool)
    | Told(t: Tid, mode: bool, ok: bool)

  datatype State = State(roleLock: Option<Tid>, mainLock: Option<Tid>, partnerLock: Option<Tid>,
                         partnerUp: bool, pcs: map<Tid, Pc>, log: seq<Entry>)
  {
    function At(t: Tid): Pc {
      if t in pcs then pcs[t] else Idle
    }

    function Go(t: Tid, pc: Pc): State {
      this.(pcs := pcs[t := pc])
    }

    function Log(e: Entry): State {
      this.(log := log + [e])
    }
  }

  // Taking up a switch (lines 603 and 446).
  ghost predicate BeginStep(t: Tid, s: State, n: State) {
    match s.At(t)
    case LockRole(mode) =>
      s.roleLock == None && n == s.Go(t, if mode then OpenType else OtherRole).(roleLock := Some(t))
    case OpenType => n == s.Go(t, LockPartner) || n == s.Go(t, Decide(false, false))
    case _ => false
  }

  // switchMode clears the flag (lines 451 and 452).
  ghost predicate ClearStep(t: Tid, s: State, n: State) {
    match s.At(t)
    case LockPartner => s.partnerLock == None && n == s.Go(t, ClearUp).(partnerLock := Some(t))
    case ClearUp => n == s.Go(t, WriteRole).(partnerUp := false).Log(Cleared(t))
    case _ => false
  }

  // It writes the role, and starts to wait (lines 453 to 465).
  ghost predicate WriteStep(t: Tid, s: State, n: State) {
    match s.At(t)
    case WriteRole => n == s.Go(t, CallWait).Log(Wrote(t)) || n == s.Go(t, UnlockPartner(false, false))
    case CallWait => n == s.Go(t, Waiting).(partnerLock := None)
    case _ => false
  }

  // It waits, until the flag is up or time has run out (lines 465 to 479).
  ghost predicate WaitStep(t: Tid, s: State, n: State) {
    match s.At(t)
    // signalled, woken for no reason, or out of time
    case Waiting => n == s.Go(t, Relock(false)) || n == s.Go(t, Relock(true))
    case Relock(timedOut) => s.partnerLock == None && n == s.Go(t, Check(timedOut)).(partnerLock := Some(t))
    case Check(timedOut) =>
      n == s.Go(t, if timedOut then UnlockPartner(false, true)
                   else if !s.partnerUp then CallWait
                   else UnlockPartner(true, false))
    case UnlockPartner(ok, timedOut) => n == s.Go(t, Decide(ok, timedOut)).(partnerLock := None)
    case _ => false
  }

  // The verdict (line 482).
  ghost predicate VerdictStep(t: Tid, s: State, n: State) {
    match s.At(t)
    case Decide(ok, timedOut) =>
      n == s.Go(t, if ok then LockNotify(true, true) else SwitchBack).Log(Verdict(t, ok, timedOut))
    case _ => false
  }

  // The return to dual (line 483); or a switch of another role (lines 610 to 629).
  ghost predicate ReturnStep(t: Tid, s: State, n: State) {
    match s.At(t)
    case SwitchBack =>
      || n == s.Go(t, LockNotify(true, false)).Log(Dual(t, true))
      || n == s.Go(t, LockNotify(true, false)).Log(Dual(t, false))
    case OtherRole => n == s.Go(t, LockNotify(false, true)) || n == s.Go(t, LockNotify(false, false))
    case _ => false
  }

  // Reporting the outcome, and letting the next switch in (lines 631 to 641).
  ghost predicate ReplyStep(t: Tid, s: State, n: State) {
    match s.At(t)
    case LockNotify(mode, ok) => s.mainLock == None && n == s.Go(t, Notify(mode, ok)).(mainLock := Some(t))
    case Notify(mode, ok) => n == s.Go(t, UnlockRole).(mainLock := None).Log(Told(t, mode, ok))
    case UnlockRole => n == s.Go(t, Idle).(roleLock := None)
    case _ => false
  }

  // The uevent thread on a partner event (lines 1064 to 1069).
  ghost predicate PartnerEventStep(t: Tid, s: State, n: State) {
    match s.At(t)
    case WorkerLockPartner => s.partnerLock == None && n == s.Go(t, WorkerSetUp).(partnerLock := Some(t))
    case WorkerSetUp => n == s.Go(t, WorkerUnlockPartner).(partnerUp := true).Log(PartnerAdded)
    case WorkerUnlockPartner => n == s.Go(t, Idle).(partnerLock := None)
    case _ => false
  }

  // The uevent thread on a port change (lines 1077 to 1095).
  ghost predicate PortEventStep(t: Tid, s: State, n: State) {
    match s.At(t)
    case WorkerLockMain => s.mainLock == None && n == s.Go(t, WorkerInMain).(mainLock := Some(t))
    case WorkerInMain => n == s.Go(t, WorkerTryRole).(mainLock := None)
    case WorkerTryRole =>
      n == if s.roleLock == None then s.Go(t, WorkerDual).(roleLock := Some(t)) else s.Go(t, Idle)
    // one port after another, those without a partner directory
    case WorkerDual => n == s.Log(Dual(t, true)) || n == s.Log(Dual(t, false)) || n == s.Go(t, Idle).(roleLock := None)
    case _ => false
  }

  // Taking up an event.
  ghost predicate EventStep(t: Tid, s: State, n: State) {
    && s.At(t) == Idle && t == WORKER
    && (n == s.Go(t, WorkerLockPartner) || n == s.Go(t, WorkerLockMain))
  }

  // Starting a call.
  ghost predicate StartStep(t: Tid, s: State, n: State) {
    && s.At(t) == Idle && t != WORKER
    && (n == s.Go(t, LockRole(true)) || n == s.Go(t, LockRole(false)) || n == s.Go(t, LockMain))
  }

  // Calls that only need mLock.
  ghost predicate CallStep(t: Tid, s: State, n: State) {
    match s.At(t)
    case LockMain => s.mainLock == None && n == s.Go(t, InMain).(mainLock := Some(t))
    case InMain => n == s.Go(t, Idle).(mainLock := None)
    case _ => false
  }

  ghost predicate StepOf(t: Tid, s: State, n: State) {
    || BeginStep(t, s, n) || ClearStep(t, s, n) || WriteStep(t, s, n) || WaitStep(t, s, n)
    || VerdictStep(t, s, n) || ReturnStep(t, s, n) || ReplyStep(t, s, n)
    || EventStep(t, s, n) || PartnerEventStep(t, s, n) || PortEventStep(t, s, n)
    || StartStep(t, s, n) || CallStep(t, s, n)
  }

  ghost predicate Next(s: State, n: State) {
    exists t: Tid :: StepOf(t, s, n)
  }

  const INITIAL: State := State(None, None, None, false, map[], [])

  ghost predicate Run(tr: seq<State>) {
    && |tr| > 0
    && tr[0] == INITIAL
    && forall i :: 0 <= i < |tr| - 1 ==> Next(tr[i], tr[i + 1])
  }

  // ---- Invariants ----

  predicate HoldsRole(pc: Pc) {
    match pc
    case Idle => false
    case LockRole(_) => false
    case LockMain => false
    case InMain => false
    case WorkerLockPartner => false
    case WorkerSetUp => false
    case WorkerUnlockPartner => false
    case WorkerLockMain => false
    case WorkerInMain => false
    case WorkerTryRole => false
    case _ => true
  }

  predicate HoldsPartner(pc: Pc) {
    match pc
    case ClearUp => true
    case WriteRole => true
    case CallWait => true
    case Check(_) => true
    case UnlockPartner(_, _) => true
    case WorkerSetUp => true
    case WorkerUnlockPartner => true
    case _ => false
  }

  predicate HoldsMain(pc: Pc) {
    pc.Notify? || pc.InMain? || pc.WorkerInMain?
  }

  predicate WorkerOnly(pc: Pc) {
    || pc.WorkerLockPartner? || pc.WorkerSetUp? || pc.WorkerUnlockPartner? || pc.WorkerLockMain?
    || pc.WorkerInMain? || pc.WorkerTryRole? || pc.WorkerDual?
  }

  ghost predicate LocksAgree(s: State) {
    forall t: Tid :: LocksAgreeFor(s, t)
  }

  // The last entry that is not a partner event.
  function LastOwn(log: seq<Entry>): (w: int)
    ensures -1 <= w < |log|
    ensures w >= 0 ==> log[w] != PartnerAdded
    ensures forall k :: w < k < |log| ==> log[k] == PartnerAdded
  {
    if log == [] then -1
    else if log[|log| - 1] == PartnerAdded then LastOwn(log[..|log| - 1])
    else |log| - 1
  }

  function Last(log: seq<Entry>): Option<Entry> {
    if LastOwn(log) < 0 then None else Some(log[LastOwn(log)])
  }

  // Partner events handled since.
  function AddsSince(log: seq<Entry>): int {
    |log| - 1 - LastOwn(log)
  }

  // No switch is under way.
  predicate Resting(last: Option<Entry>) {
    last.None? || last.value.Told? || (last.value.Dual? && last.value.t == WORKER)
  }

  // Some switch of t is.
  predicate OpenOf(log: seq<Entry>, t: Tid) {
    var last := Last(log);
    !Resting(last) && last.value != PartnerAdded && last.value.t == t
  }

  /** What may follow in the log: the course of a switch, step by step.  A flag cleared, a role
      written right after it, a verdict, the return to dual exactly if it is a failure, and the
      notification with its status; and no one else in between, but for partner events. */
  predicate Comes(log: seq<Entry>, e: Entry) {
    var last := Last(log);
    match e
    case PartnerAdded => true
    case Cleared(t) => t != WORKER && Resting(last)
    case Wrote(t) => log != [] && log[|log| - 1] == Cleared(t)
    case Verdict(t, ok, timedOut) =>
      if ok then last == Some(Wrote(t)) && !timedOut && AddsSince(log) > 0
      else if timedOut then last == Some(Wrote(t))
      else last == Some(Cleared(t)) || (t != WORKER && Resting(last))
    case Dual(t, _) => if t == WORKER then Resting(last) else Failed(last, t)
    case Told(t, mode, ok) =>
      && t != WORKER
      && if !mode then Resting(last)
         else if ok then last == Some(Verdict(t, true, false))
         else last.Some? && last.value.Dual? && last.value.t == t
  }

  predicate Failed(last: Option<Entry>, t: Tid) {
    last.Some? && last.value.Verdict? && last.value.t == t && !last.value.ok
  }

  ghost predicate Orderly(log: seq<Entry>) {
    forall j :: 0 <= j < |log| ==> Comes(log[..j], log[j])
  }

  // What a thread may log next, by its line.
  ghost predicate Fits(pc: Pc, log: seq<Entry>, up: bool, t: Tid) {
    match pc
    case WriteRole => log != [] && log[|log| - 1] == Cleared(t) && !up
    case CallWait => Last(log) == Some(Wrote(t)) && AddsSince(log) == 0 && !up
    case Waiting => Last(log) == Some(Wrote(t)) && up == (AddsSince(log) > 0)
    case Relock(_) => Last(log) == Some(Wrote(t)) && up == (AddsSince(log) > 0)
    case Check(_) => Last(log) == Some(Wrote(t)) && up == (AddsSince(log) > 0)
    case UnlockPartner(ok, timedOut) => Comes(log, Verdict(t, ok, timedOut))
    case Decide(ok, timedOut) => Comes(log, Verdict(t, ok, timedOut))
    case SwitchBack => Failed(Last(log), t) && t != WORKER
    case LockNotify(mode, ok) => Comes(log, Told(t, mode, ok))
    case Notify(mode, ok) => Comes(log, Told(t, mode, ok))
    case _ => true
  }

  ghost predicate LogFits(s: State, t: Tid) {
    Fits(s.At(t), s.log, s.partnerUp, t)
  }

  // The lines between clearing the flag and telling the outcome.
  predicate InMidst(pc: Pc) {
    || pc.WriteRole? || pc.CallWait? || pc.Waiting? || pc.Relock? || pc.Check? || pc.UnlockPartner?
    || pc.Decide? || pc.SwitchBack? || pc.LockNotify? || pc.Notify?
  }

  ghost predicate OpenIsInMidst(s: State) {
    forall t: Tid :: OpenOf(s.log, t) ==> InMidst(s.At(t))
  }

  // ---- What the log shows ----

  // No verdict for the writer of w strictly between w and j.
  ghost predicate Open(log: seq<Entry>, w: int, j: int)
    requires 0 <= w < j <= |log| && log[w].Wrote?
  {
    forall k :: w < k < j ==> !(log[k].Verdict? && log[k].t == log[w].t)
  }

  ghost predicate HandledBetween(log: seq<Entry>, w: int, j: int)
    requires 0 <= w < j <= |log|
  {
    exists k :: w < k < j && log[k] == PartnerAdded
  }

  // A verdict of success answers a write of the same call: the flag was cleared right
  // before that write, and a partner event was handled between the write and the verdict.
  ghost predicate Answers(log: seq<Entry>, w: int, j: int)
    requires 0 < w < j < |log| && log[j].Verdict?
  {
    && log[w] == Wrote(log[j].t)
    && log[w - 1] == Cleared(log[j].t)
    && Open(log, w, j)
    && HandledBetween(log, w, j)
  }

  ghost predicate Inv(s: State) {
    && LocksAgree(s)
    && (forall t: Tid :: LogFits(s, t))
    && OpenIsInMidst(s)
    && Orderly(s.log)
  }

  // ---- Every step keeps the invariant ----

  // A lock after a step of t: taken only when free, and held exactly while t's line says so.
  ghost predicate LockStep(t: Tid, before: Option<Tid>, after: Option<Tid>, held: bool, holds: bool) {
    && (holds && !held ==> before == None)
    && after == if holds then Some(t) else if held then None else before
  }

  // What one step of t can do to the locks, the log and the flag.
  ghost predicate LockEffect(t: Tid, s: State, n: State) {
    var pc, next := s.At(t), n.At(t);
    && n.pcs == s.pcs[t := next]
    && (next != Idle ==> (WorkerOnly(next) <==> t == WORKER))
    && LockStep(t, s.roleLock, n.roleLock, HoldsRole(pc), HoldsRole(next))
    && LockStep(t, s.partnerLock, n.partnerLock, HoldsPartner(pc), HoldsPartner(next))
    && LockStep(t, s.mainLock, n.mainLock, HoldsMain(pc), HoldsMain(next))
  }

  ghost predicate LogEffect(t: Tid, s: State, n: State) {
    || (&& n.log == s.log && n.partnerUp == s.partnerUp
        && (InMidst(s.At(t)) ==> InMidst(n.At(t))))
    || (&& |n.log| == |s.log| + 1 && n.log == s.log + [n.log[|s.log|]]
        && EntryOf(t, s, n, n.log[|s.log|]))
  }

  ghost predicate Effect(t: Tid, s: State, n: State) {
    LockEffect(t, s, n) && LogEffect(t, s, n)
  }

  ghost predicate EntryOf(t: Tid, s: State, n: State, e: Entry) {
    match e
    case PartnerAdded => HoldsPartner(s.At(t)) && !HoldsRole(s.At(t)) && n.partnerUp
    case Cleared(u) => u == t && s.At(t) == ClearUp && n.At(t) == WriteRole && !n.partnerUp
    case Wrote(u) => u == t && s.At(t) == WriteRole && n.At(t) == CallWait && n.partnerUp == s.partnerUp
    case Dual(u, _) =>
      && u == t && n.partnerUp == s.partnerUp
      && if t == WORKER then s.At(t) == WorkerDual else s.At(t) == SwitchBack && InMidst(n.At(t))
    case Verdict(u, ok, timedOut) =>
      u == t && s.At(t) == Decide(ok, timedOut) && InMidst(n.At(t)) && n.partnerUp == s.partnerUp
    case Told(u, mode, ok) => u == t && s.At(t) == Notify(mode, ok) && n.partnerUp == s.partnerUp
  }

  ghost predicate LocksAgreeFor(s: State, t: Tid) {
    && (s.roleLock == Some(t) <==> HoldsRole(s.At(t)))
    && (s.partnerLock == Some(t) <==> HoldsPartner(s.At(t)))
    && (s.mainLock == Some(t) <==> HoldsMain(s.At(t)))
    && (s.At(t) != Idle ==> (WorkerOnly(s.At(t)) <==> t == WORKER))
  }

  lemma BeginEffect(t: Tid, s: State, n: State)
    requires LocksAgreeFor(s, t) && BeginStep(t, s, n)
    ensures Effect(t, s, n)
  {
  }

  lemma ClearEffect(t: Tid, s: State, n: State)
    requires LocksAgreeFor(s, t) && ClearStep(t, s, n)
    ensures Effect(t, s, n)
  {
  }

  lemma WriteEffect(t: Tid, s: State, n: State)
    requires LocksAgreeFor(s, t) && WriteStep(t, s, n)
    ensures Effect(t, s, n)
  {
  }

  lemma WaitEffect(t: Tid, s: State, n: State)
    requires LocksAgreeFor(s, t) && WaitStep(t, s, n)
    ensures Effect(t, s, n)
  {
  }

  lemma VerdictEffect(t: Tid, s: State, n: State)
    requires LocksAgreeFor(s, t) && VerdictStep(t, s, n)
    ensures Effect(t, s, n)
  {
  }

  lemma ReturnEffect(t: Tid, s: State, n: State)
    requires LocksAgreeFor(s, t) && ReturnStep(t, s, n)
    ensures Effect(t, s, n)
  {
  }

  lemma ReplyEffect(t: Tid, s: State, n: State)
    requires LocksAgreeFor(s, t) && ReplyStep(t, s, n)
    ensures Effect(t, s, n)
  {
  }

  lemma PartnerEventEffect(t: Tid, s: State, n: State)
    requires LocksAgreeFor(s, t) && PartnerEventStep(t, s, n)
    ensures Effect(t, s, n)
  {
  }

  lemma PortEventEffect(t: Tid, s: State, n: State)
    requires LocksAgreeFor(s, t) && PortEventStep(t, s, n)
    ensures Effect(t, s, n)
  {
  }

  lemma EventEffect(t: Tid, s: State, n: State)
    requires LocksAgreeFor(s, t) && EventStep(t, s, n)
    ensures Effect(t, s, n)
  {
  }

  lemma StartEffect(t: Tid, s: State, n: State)
    requires LocksAgreeFor(s, t) && StartStep(t, s, n)
    ensures Effect(t, s, n)
  {
  }

  lemma CallEffect(t: Tid, s: State, n: State)
    requires LocksAgreeFor(s, t) && CallStep(t, s, n)
    ensures Effect(t, s, n)
  {
  }

  lemma StepHasEffect(t: Tid, s: State, n: State)
    requires LocksAgree(s) && StepOf(t, s, n)
    ensures Effect(t, s, n)
  {
    assert LocksAgreeFor(s, t);
    if BeginStep(t, s, n) {
      BeginEffect(t, s, n);
    } else if ClearStep(t, s, n) {
      ClearEffect(t, s, n);
    } else if WriteStep(t, s, n) {
      WriteEffect(t, s, n);
    } else if WaitStep(t, s, n) {
      WaitEffect(t, s, n);
    } else if VerdictStep(t, s, n) {
      VerdictEffect(t, s, n);
    } else if ReturnStep(t, s, n) {
      ReturnEffect(t, s, n);
    } else if ReplyStep(t, s, n) {
      ReplyEffect(t, s, n);
    } else if PartnerEventStep(t, s, n) {
      PartnerEventEffect(t, s, n);
    } else if PortEventStep(t, s, n) {
      PortEventEffect(t, s, n);
    } else if EventStep(t, s, n) {
      EventEffect(t, s, n);
    } else if StartStep(t, s, n) {
      StartEffect(t, s, n);
    } else {
      CallEffect(t, s, n);
    }
  }

  lemma StepKeepsLocks(t: Tid, s: State, n: State)
    requires LocksAgree(s) && Effect(t, s, n)
    ensures LocksAgree(n)
  {
    assert LocksAgreeFor(s, t);
    forall u: Tid ensures LocksAgreeFor(n, u) {
      assert LocksAgreeFor(s, u);
      assert u != t ==> n.At(u) == s.At(u);
    }
  }

  lemma LastOwnSnoc(log: seq<Entry>, e: Entry)
    ensures LastOwn(log + [e]) == if e == PartnerAdded then LastOwn(log) else |log|
  {
    assert (log + [e])[..|log|] == log;
  }

  // A partner event counts for a thread that is waiting or about to be given its verdict.
  lemma AddKeepsFit(pc: Pc, log: seq<Entry>, up: bool, u: Tid)
    requires Fits(pc, log, up, u) && !HoldsPartner(pc)
    ensures Fits(pc, log + [PartnerAdded], true, u)
  {
    LastOwnSnoc(log, PartnerAdded);
  }

  lemma OthersKeepFit(t: Tid, s: State, n: State, u: Tid)
    requires LocksAgree(s) && Effect(t, s, n) && u != t && LogFits(s, u)
    ensures LogFits(n, u)
  {
    assert LocksAgreeFor(s, t) && LocksAgreeFor(s, u);
    var pc := s.At(u);
    assert n.At(u) == pc;
    if n.log != s.log && HoldsRole(pc) {
      assert n.log == s.log + [PartnerAdded];
      AddKeepsFit(pc, s.log, s.partnerUp, u);
    }
  }

  lemma ClearerKeepsFit(t: Tid, s: State, n: State)
    requires ClearStep(t, s, n)
    ensures LogFits(n, t)
  {
  }

  lemma WriterKeepsFit(t: Tid, s: State, n: State)
    requires WriteStep(t, s, n) && LogFits(s, t)
    ensures LogFits(n, t)
  {
    if s.At(t) == WriteRole && n.log != s.log { LastOwnSnoc(s.log, Wrote(t)); }
  }

  lemma WaiterKeepsFit(t: Tid, s: State, n: State)
    requires WaitStep(t, s, n) && LogFits(s, t)
    ensures LogFits(n, t)
  {
  }

  // Whoever holds the role lock outside the midst of a switch finds no switch under way.
  lemma HolderFindsRest(s: State, t: Tid)
    requires LocksAgree(s) && OpenIsInMidst(s) && HoldsRole(s.At(t)) && !InMidst(s.At(t))
    ensures Resting(Last(s.log)) && (t == WORKER <==> s.At(t) == WorkerDual)
  {
    assert LocksAgreeFor(s, t);
    if !Resting(Last(s.log)) {
      var u := Last(s.log).value.t;
      assert OpenOf(s.log, u) && LocksAgreeFor(s, u);
    }
  }

  lemma BeginnerKeepsFit(t: Tid, s: State, n: State)
    requires BeginStep(t, s, n) && (s.At(t) == OpenType ==> t != WORKER && Resting(Last(s.log)))
    ensures LogFits(n, t)
  {
  }

  lemma DeciderKeepsFit(t: Tid, s: State, n: State)
    requires VerdictStep(t, s, n) && LogFits(s, t) && t != WORKER
    ensures LogFits(n, t)
  {
    LastOwnSnoc(s.log, n.log[|s.log|]);
  }

  lemma ReturnerKeepsFit(t: Tid, s: State, n: State)
    requires ReturnStep(t, s, n) && LogFits(s, t) && t != WORKER
    requires s.At(t) == OtherRole ==> Resting(Last(s.log))
    ensures LogFits(n, t)
  {
    if n.log != s.log { LastOwnSnoc(s.log, n.log[|s.log|]); }
  }

  lemma TellerKeepsFit(t: Tid, s: State, n: State)
    requires ReplyStep(t, s, n) && LogFits(s, t)
    ensures LogFits(n, t)
  {
  }

  // The lines at which nothing is asked of the log.
  predicate Free(pc: Pc) {
    && !pc.WriteRole? && !pc.CallWait? && !pc.Waiting? && !pc.Relock? && !pc.Check?
    && !pc.UnlockPartner? && !pc.Decide? && !pc.SwitchBack? && !pc.LockNotify? && !pc.Notify?
  }

  lemma CallerIsFree(t: Tid, s: State, n: State)
    requires CallStep(t, s, n) || StartStep(t, s, n)
    ensures Free(n.At(t))
  {
  }

  lemma WorkerIsFree(t: Tid, s: State, n: State)
    requires EventStep(t, s, n) || PartnerEventStep(t, s, n) || PortEventStep(t, s, n)
    ensures Free(n.At(t))
  {
  }

  lemma FreeFits(t: Tid, n: State)
    requires Free(n.At(t))
    ensures LogFits(n, t)
  {
  }

  lemma MoverKeepsFit(t: Tid, s: State, n: State)
    requires LocksAgree(s) && OpenIsInMidst(s) && LogFits(s, t) && StepOf(t, s, n)
    ensures LogFits(n, t)
  {
    assert LocksAgreeFor(s, t);
    if BeginStep(t, s, n) {
      if s.At(t) == OpenType { HolderFindsRest(s, t); }
      BeginnerKeepsFit(t, s, n);
    } else if ClearStep(t, s, n) {
      ClearerKeepsFit(t, s, n);
    } else if WriteStep(t, s, n) {
      WriterKeepsFit(t, s, n);
    } else if WaitStep(t, s, n) {
      WaiterKeepsFit(t, s, n);
    } else if VerdictStep(t, s, n) {
      DeciderKeepsFit(t, s, n);
    } else if ReturnStep(t, s, n) {
      if s.At(t) == OtherRole { HolderFindsRest(s, t); }
      ReturnerKeepsFit(t, s, n);
    } else if ReplyStep(t, s, n) {
      TellerKeepsFit(t, s, n);
    } else if EventStep(t, s, n) || PartnerEventStep(t, s, n) || PortEventStep(t, s, n) {
      WorkerIsFree(t, s, n);
      FreeFits(t, n);
    } else {
      CallerIsFree(t, s, n);
      FreeFits(t, n);
    }
  }

  lemma StepKeepsMidst(t: Tid, s: State, n: State)
    requires LocksAgree(s) && OpenIsInMidst(s) && Effect(t, s, n)
    ensures OpenIsInMidst(n)
  {
    if n.log != s.log {
      LastOwnSnoc(s.log, n.log[|s.log|]);
    }
    forall u: Tid | OpenOf(n.log, u) ensures InMidst(n.At(u)) {
      assert u != t ==> n.At(u) == s.At(u);
      assert n.log == s.log || n.log[|s.log|] == PartnerAdded ==> OpenOf(s.log, u);
      assert LocksAgreeFor(s, t);
    }
  }

  // The entry a thread adds is one its line lets it add.
  lemma EntryComes(t: Tid, s: State, n: State)
    requires LocksAgree(s) && OpenIsInMidst(s) && LogFits(s, t) && Effect(t, s, n) && n.log != s.log
    ensures Comes(s.log, n.log[|s.log|])
  {
    assert LocksAgreeFor(s, t);
    if s.At(t) == ClearUp || s.At(t) == WorkerDual { HolderFindsRest(s, t); }
  }

  lemma StepKeepsOrder(t: Tid, s: State, n: State)
    requires Inv(s) && Effect(t, s, n)
    ensures Orderly(n.log)
  {
    if n.log != s.log {
      EntryComes(t, s, n);
      forall j | 0 <= j < |n.log| ensures Comes(n.log[..j], n.log[j]) {
        assert n.log[..j] == s.log[..j];
        assert n.log[..|s.log|] == s.log == s.log[..|s.log|];
      }
    }
  }

  lemma NextKeepsInv(s: State, n: State)
    requires Inv(s) && Next(s, n)
    ensures Inv(n)
  {
    var t: Tid :| StepOf(t, s, n);
    StepHasEffect(t, s, n);
    StepKeepsLocks(t, s, n);
    StepKeepsMidst(t, s, n);
    StepKeepsOrder(t, s, n);
    MoverKeepsFit(t, s, n);
    forall u: Tid ensures LogFits(n, u) {
      if u != t { OthersKeepFit(t, s, n, u); }
    }
  }

  lemma {:induction false} Reaches(tr: seq<State>, i: nat)
    requires Run(tr) && i < |tr|
    ensures Inv(tr[i])
  {
    if i == 0 {
    } else {
      Reaches(tr, i - 1);
      NextKeepsInv(tr[i - 1], tr[i]);
    }
  }

  // ---- Main results, for every run and every number of API threads ----

  // The log of every run takes the course of `Comes`, entry by entry.
  lemma SwitchesAreOrderly(tr: seq<State>, i: nat, j: nat)
    requires Run(tr) && i < |tr| && j < |tr[i].log|
    ensures Comes(tr[i].log[..j], tr[i].log[j])
  {
    Reaches(tr, i);
  }

  // Until its verdict, a role that has been written is the last word but for partner events.
  lemma {:induction false} WriteIsLast(log: seq<Entry>, w: nat, j: nat)
    requires Orderly(log) && w < j <= |log| && log[w].Wrote? && Open(log, w, j)
    ensures LastOwn(log[..j]) == w
  {
    assert log[..j][..j - 1] == log[..j - 1];
    if j == w + 1 {
    } else {
      WriteIsLast(log, w, j - 1);
      assert Comes(log[..j - 1], log[j - 1]);
    }
  }

  lemma SuccessAnswersAWrite(log: seq<Entry>, j: nat) returns (w: nat)
    requires Orderly(log) && j < |log| && log[j].Verdict? && log[j].ok
    ensures 0 < w < j && Answers(log, w, j)
  {
    assert Comes(log[..j], log[j]);
    w := LastOwn(log[..j]);
    assert log[..j][w] == log[w] && log[..j][..w] == log[..w];
    assert Comes(log[..w], log[w]);
    assert log[w + 1] == PartnerAdded;
  }

  lemma SuccessIsEarned(tr: seq<State>, i: nat, j: nat)
    requires Run(tr) && i < |tr| && j < |tr[i].log| && tr[i].log[j].Verdict?
    ensures var log, v := tr[i].log, tr[i].log[j];
            && (v.ok ==> exists w :: 0 < w < j && Answers(log, w, j))
            && (forall w :: 0 <= w < j && log[w] == Wrote(v.t) && Open(log, w, j) ==> v.ok == !v.timedOut)
  {
    var log, v := tr[i].log, tr[i].log[j];
    Reaches(tr, i);
    if v.ok {
      var w := SuccessAnswersAWrite(log, j);
    }
    forall w: nat | w < j && log[w] == Wrote(v.t) && Open(log, w, j) ensures v.ok == !v.timedOut {
      WriteIsLast(log, w, j);
      assert Comes(log[..j], v);
    }
  }

  // No thread, not even another switch, writes port_type between a role and its verdict.
  lemma PortTypeIsExclusive(tr: seq<State>, i: nat, w: nat, j: nat)
    requires Run(tr) && i < |tr| && w < j < |tr[i].log|
    requires tr[i].log[w].Wrote? && Open(tr[i].log, w, j)
    ensures tr[i].log[j] == PartnerAdded || (tr[i].log[j].Verdict? && tr[i].log[j].t == tr[i].log[w].t)
  {
    Reaches(tr, i);
    WriteIsLast(tr[i].log, w, j);
    assert Comes(tr[i].log[..j], tr[i].log[j]);
  }

  // After a verdict nothing is logged, by any thread, before what follows from it: after a failure
  // the return to dual, after a success the notification.
  lemma VerdictIsCarriedOut(tr: seq<State>, i: nat, j: nat, k: nat)
    requires Run(tr) && i < |tr| && j < k < |tr[i].log| && tr[i].log[j].Verdict?
    requires forall m :: j < m < k ==> tr[i].log[m] == PartnerAdded
    ensures var log, v := tr[i].log, tr[i].log[j];
            || log[k] == PartnerAdded
            || (v.ok && log[k] == Told(v.t, true, true))
            || (!v.ok && log[k].Dual? && log[k].t == v.t)
  {
    var log := tr[i].log;
    Reaches(tr, i);
    LastOwnIs(log[..k], j);
    assert Comes(log[..k], log[k]);
    assert Comes(log[..j], log[j]);
  }

  lemma LastOwnIs(log: seq<Entry>, j: nat)
    requires j < |log| && log[j] != PartnerAdded && forall m :: j < m < |log| ==> log[m] == PartnerAdded
    ensures LastOwn(log) == j
  {
  }

  // So a failed switch does not get to its notification before it has tried to go back to dual, nor
  // a successful one without its verdict; and no thread is done in the midst of a switch.
  lemma DualBeforeNotifying(tr: seq<State>, i: nat, t: Tid)
    requires Run(tr) && i < |tr|
    ensures tr[i].At(t) == LockNotify(true, false) ==>
              Last(tr[i].log) in {Some(Dual(t, true)), Some(Dual(t, false))} && t != WORKER
    ensures tr[i].At(t) == LockNotify(true, true) ==> Last(tr[i].log) == Some(Verdict(t, true, false))
    ensures tr[i].At(t) in {UnlockRole, Idle} ==> !OpenOf(tr[i].log, t)
  {
    Reaches(tr, i);
    assert LogFits(tr[i], t);
  }

  // One thread at a time calls the framework, and one at a time switches or returns to dual.
  lemma OneAtATime(tr: seq<State>, i: nat, t: Tid, u: Tid)
    requires Run(tr) && i < |tr| && t != u
    ensures var a, b := tr[i].At(t), tr[i].At(u);
            && !((a.Notify? || a.InMain? || a.WorkerInMain?) && (b.Notify? || b.InMain? || b.WorkerInMain?))
            && !((InMidst(a) || a.OtherRole? || a.WorkerDual?) && (InMidst(b) || b.OtherRole? || b.WorkerDual?))
  {
    Reaches(tr, i);
    assert LocksAgreeFor(tr[i], t) && LocksAgreeFor(tr[i], u);
  }

  // Nothing is handled unnoticed: from the write on, the flag is up exactly if a partner
  // event has been handled, and before the first wait none can have been.
  lemma NoPartnerEventIsMissed(tr: seq<State>, i: nat, t: Tid)
    requires Run(tr) && i < |tr|
    requires var pc := tr[i].At(t); pc.CallWait? || pc.Waiting? || pc.Relock? || pc.Check?
    ensures var log, w := tr[i].log, LastOwn(tr[i].log);
            && w > 0 && log[w] == Wrote(t) && log[w - 1] == Cleared(t)
            && (tr[i].partnerUp <==> exists k :: w < k < |log| && log[k] == PartnerAdded)
            && (tr[i].At(t) == CallWait ==> w == |log| - 1 && !tr[i].partnerUp)
  {
    Reaches(tr, i);
    assert LogFits(tr[i], t);
    var log, w := tr[i].log, LastOwn(tr[i].log);
    assert Comes(log[..w], log[w]);
    assert AddsSince(log) > 0 ==> log[w + 1] == PartnerAdded;
  }

  // ---- Waiting ----

  predicate CanStep(s: State, t: Tid) {
    match s.At(t)
    case LockRole(_) => s.roleLock == None
    case LockPartner => s.partnerLock == None
    case Relock(_) => s.partnerLock == None
    case WorkerLockPartner => s.partnerLock == None
    case LockNotify(_, _) => s.mainLock == None
    case LockMain => s.mainLock == None
    case WorkerLockMain => s.mainLock == None
    case _ => true
  }

  // Some step of a thread that can take one.
  function Advance(t: Tid, s: State): State {
    match s.At(t)
    case Idle => if t == WORKER then s.Go(t, WorkerLockMain) else s.Go(t, LockMain)
    case LockRole(mode) => s.Go(t, if mode then OpenType else OtherRole).(roleLock := Some(t))
    case OpenType => s.Go(t, LockPartner)
    case LockPartner => s.Go(t, ClearUp).(partnerLock := Some(t))
    case ClearUp => s.Go(t, WriteRole).(partnerUp := false).Log(Cleared(t))
    case WriteRole => s.Go(t, CallWait).Log(Wrote(t))
    case CallWait => s.Go(t, Waiting).(partnerLock := None)
    case Waiting => s.Go(t, Relock(true))
    case Relock(timedOut) => s.Go(t, Check(timedOut)).(partnerLock := Some(t))
    case Check(timedOut) =>
      s.Go(t, if timedOut then UnlockPartner(false, true)
              else if !s.partnerUp then CallWait
              else UnlockPartner(true, false))
    case UnlockPartner(ok, timedOut) => s.Go(t, Decide(ok, timedOut)).(partnerLock := None)
    case Decide(ok, timedOut) =>
      s.Go(t, if ok then LockNotify(true, true) else SwitchBack).Log(Verdict(t, ok, timedOut))
    case SwitchBack => s.Go(t, LockNotify(true, false)).Log(Dual(t, true))
    case OtherRole => s.Go(t, LockNotify(false, true))
    case LockNotify(mode, ok) => s.Go(t, Notify(mode, ok)).(mainLock := Some(t))
    case Notify(mode, ok) => s.Go(t, UnlockRole).(mainLock := None).Log(Told(t, mode, ok))
    case UnlockRole => s.Go(t, Idle).(roleLock := None)
    case LockMain => s.Go(t, InMain).(mainLock := Some(t))
    case InMain => s.Go(t, Idle).(mainLock := None)
    case WorkerLockPartner => s.Go(t, WorkerSetUp).(partnerLock := Some(t))
    case WorkerSetUp => s.Go(t, WorkerUnlockPartner).(partnerUp := true).Log(PartnerAdded)
    case WorkerUnlockPartner => s.Go(t, Idle).(partnerLock := None)
    case WorkerLockMain => s.Go(t, WorkerInMain).(mainLock := Some(t))
    case WorkerInMain => s.Go(t, WorkerTryRole).(mainLock := None)
    case WorkerTryRole =>
      if s.roleLock == None then s.Go(t, WorkerDual).(roleLock := Some(t)) else s.Go(t, Idle)
    case WorkerDual => s.Go(t, Idle).(roleLock := None)
  }

  lemma AdvanceIsAStep(s: State, t: Tid)
    requires CanStep(s, t)
    ensures StepOf(t, s, Advance(t, s))
  {
  }

  lemma CanStepMeansStep(s: State, t: Tid)
    ensures CanStep(s, t) <==> exists n :: StepOf(t, s, n)
  {
    if CanStep(s, t) {
      AdvanceIsAStep(s, t);
    }
  }

  lemma HolderOfInnerLockRuns(s: State, h: Tid)
    requires Inv(s) && (s.partnerLock == Some(h) || s.mainLock == Some(h))
    ensures CanStep(s, h) && s.At(h) != Waiting && s.At(h) != Idle
  {
    assert LocksAgreeFor(s, h);
  }

  // Whenever the uevent thread is blocked, the thread in its way can run on its own: it
  // is not blocked itself, and it is not waiting for the partner event.
  lemma WorkerNeverWaitsForAWaiter(tr: seq<State>, i: nat)
    requires Run(tr) && i < |tr| && !CanStep(tr[i], WORKER)
    ensures exists h: Tid ::
              && h != WORKER
              && CanStep(tr[i], h) && tr[i].At(h) != Waiting
              && (tr[i].partnerLock == Some(h) || tr[i].mainLock == Some(h))
  {
    Reaches(tr, i);
    var s := tr[i];
    assert LocksAgreeFor(s, WORKER);
    var h := if s.At(WORKER) == WorkerLockPartner then s.partnerLock.value else s.mainLock.value;
    HolderOfInnerLockRuns(s, h);
  }

  // The thread that holds the lock t is blocked on, if t is blocked.
  function Needs(s: State, t: Tid): Option<Tid> {
    match s.At(t)
    case LockRole(_) => s.roleLock
    case LockPartner => s.partnerLock
    case Relock(_) => s.partnerLock
    case WorkerLockPartner => s.partnerLock
    case LockNotify(_, _) => s.mainLock
    case LockMain => s.mainLock
    case WorkerLockMain => s.mainLock
    case _ => None
  }

  // Hence no cycle of waits: every chain of blocked threads ends, after two steps at most, with
  // a thread that can run.
  lemma BlockedBehindARunner(tr: seq<State>, i: nat, t: Tid)
    requires Run(tr) && i < |tr|
    ensures !CanStep(tr[i], t) <==> Needs(tr[i], t).Some?
    ensures !CanStep(tr[i], t) ==>
              var h := Needs(tr[i], t).value;
              && h != t && tr[i].At(h) != Idle
              && (|| CanStep(tr[i], h)
                  || (&& Needs(tr[i], h).Some?
                      && var g := Needs(tr[i], h).value;
                         g != t && g != h && CanStep(tr[i], g) && tr[i].At(g) != Idle))
  {
    Reaches(tr, i);
    var s := tr[i];
    if !CanStep(s, t) {
      var h := Needs(s, t).value;
      assert LocksAgreeFor(s, t) && LocksAgreeFor(s, h);
      if !CanStep(s, h) {
        HolderOfInnerLockRuns(s, Needs(s, h).value);
      }
    }
  }

  // ---- The results are not vacuous ----

  lemma Extend(tr: seq<State>, t: Tid, n: State) returns (longer: seq<State>)
    requires Run(tr) && StepOf(t, tr[|tr| - 1], n)
    ensures longer == tr + [n] && Run(longer) && longer[|longer| - 1] == n
  {
    longer := tr + [n];
    assert Next(tr[|tr| - 1], n);
  }

  lemma Move(tr: seq<State>, t: Tid) returns (longer: seq<State>)
    requires Run(tr) && CanStep(tr[|tr| - 1], t)
    ensures Run(longer) && longer[|longer| - 1] == Advance(t, tr[|tr| - 1])
  {
    AdvanceIsAStep(tr[|tr| - 1], t);
    longer := Extend(tr, t, Advance(t, tr[|tr| - 1]));
  }

  // Thread 1 gets as far as writing its role...
  lemma WriteIsReachable() returns (tr: seq<State>)
    ensures Run(tr)
    ensures tr[|tr| - 1] == State(Some(1), None, Some(1), false, map[1 := WriteRole], [Cleared(1)])
  {
    tr := Extend([INITIAL], 1, INITIAL.Go(1, LockRole(true)));
    tr := Move(tr, 1);
    tr := Move(tr, 1);
    tr := Move(tr, 1);
    tr := Move(tr, 1);
  }

  // ... and as waiting for its partner.
  lemma WaitIsReachable() returns (tr: seq<State>)
    ensures Run(tr)
    ensures tr[|tr| - 1] == State(Some(1), None, None, false, map[1 := Waiting], [Cleared(1), Wrote(1)])
  {
    tr := WriteIsReachable();
    tr := Move(tr, 1);
    tr := Move(tr, 1);
  }

  // Meanwhile the uevent thread handles a partner event.
  lemma PartnerIsHandled() returns (tr: seq<State>)
    ensures Run(tr)
    ensures tr[|tr| - 1] == State(Some(1), None, None, true, map[1 := Waiting, WORKER := Idle],
                                  [Cleared(1), Wrote(1), PartnerAdded])
  {
    tr := WaitIsReachable();
    var s := tr[|tr| - 1].Go(WORKER, WorkerLockPartner);
    tr := Extend(tr, WORKER, s);
    tr := Move(tr, WORKER);
    tr := Move(tr, WORKER);
    tr := Move(tr, WORKER);
  }

  // But if the wait runs out before the lock is free again, the switch fails all the same.
  lemma TimeoutBeatsPartner() returns (tr: seq<State>)
    ensures Run(tr)
    ensures tr[|tr| - 1].log == [Cleared(1), Wrote(1), PartnerAdded, Verdict(1, false, true)]
  {
    tr := PartnerIsHandled();
    var s := tr[|tr| - 1].Go(1, Relock(true));
    tr := Extend(tr, 1, s);
    tr := Move(tr, 1);
    tr := Move(tr, 1);
    tr := Move(tr, 1);
    tr := Move(tr, 1);
  }

  // Woken in time, it succeeds.
  lemma SuccessIsReachable() returns (tr: seq<State>)
    ensures Run(tr)
    ensures tr[|tr| - 1] == State(Some(1), None, None, true, map[1 := LockNotify(true, true), WORKER := Idle],
                                  [Cleared(1), Wrote(1), PartnerAdded, Verdict(1, true, false)])
  {
    tr := PartnerIsHandled();
    var s := tr[|tr| - 1].Go(1, Relock(false));
    tr := Extend(tr, 1, s);
    tr := Move(tr, 1);
    tr := Move(tr, 1);
    tr := Move(tr, 1);
    tr := Move(tr, 1);
  }

  // A switch no partner answers is a failure, and the port goes back to dual.
  lemma FailureIsReachable() returns (tr: seq<State>)
    ensures Run(tr)
    ensures tr[|tr| - 1].log == [Cleared(1), Wrote(1), Verdict(1, false, true), Dual(1, true)]
  {
    tr := WaitIsReachable();
    tr := Move(tr, 1);
    tr := Move(tr, 1);
    tr := Move(tr, 1);
    tr := Move(tr, 1);
    tr := Move(tr, 1);
    tr := Move(tr, 1);
  }

  // The framework is then told.
  lemma TellingIsReachable() returns (tr: seq<State>)
    ensures Run(tr) && tr[|tr| - 1].roleLock == None
    ensures tr[|tr| - 1].log ==
              [Cleared(1), Wrote(1), PartnerAdded, Verdict(1, true, false), Told(1, true, true)]
  {
    tr := SuccessIsReachable();
    tr := Move(tr, 1);
    tr := Move(tr, 1);
    tr := Move(tr, 1);
  }

  // The uevent thread too puts ports back to dual.
  lemma WorkerDualIsReachable() returns (tr: seq<State>)
    ensures Run(tr) && tr[|tr| - 1].log == [Dual(WORKER, true)]
  {
    tr := [INITIAL];
    tr := Move(tr, WORKER);
    tr := Move(tr, WORKER);
    tr := Move(tr, WORKER);
    tr := Move(tr, WORKER);
    tr := Extend(tr, WORKER, tr[|tr| - 1].Log(Dual(WORKER, true)));
  }
}
