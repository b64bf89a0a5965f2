/** What the migration guarantees over every run, given a `Safe` setup. */
module MigrationSafety {
  import opened Flash
  import opened Migration

  lemma FilesSurvive(env: Env, setup: Setup, files: Files, tr: seq<State>, i: nat)
    requires Safe(setup) && Execution(env, setup, files, tr) && i < |tr|
    ensures NoLoss(env, tr[i], files)
  {
    Reaches(env, setup, files, tr, i);
    InvGivesNoLoss(env, setup, tr[i], files);
  }

  // All of it for one run.
  lemma RunKeepsFiles(env: Env, setup: Setup, files: Files, tr: seq<State>)
    requires Safe(setup) && Execution(env, setup, files, tr)
    ensures forall i :: 0 <= i < |tr| ==> NoLoss(env, tr[i], files)
    ensures var s := tr[|tr| - 1];
            s.pc == Exited(Migrated) ==> HoldsExt4(env, s.persist.durable, files) && GetFsType(s.efs.cache) != Ext4
  {
    forall i | 0 <= i < |tr| ensures NoLoss(env, tr[i], files) {
      FilesSurvive(env, setup, files, tr, i);
    }
    Reaches(env, setup, files, tr, |tr| - 1);
  }

  // Whatever the two magics say at boot, the branch taken reads from a valid source.
  lemma BootDecodesTheRightSource(env: Env, setup: Setup, files: Files, tr: seq<State>, i: nat)
    requires Safe(setup) && Execution(env, setup, files, tr) && i < |tr| && tr[i].pc == Off
    ensures var p, e := tr[i].persist.cache, tr[i].efs.cache;
            match (GetFsType(p), GetFsType(e))
            case (F2fs, _) => HoldsF2fs(env, p, files)
            case (Ext4, Ext4) => HoldsExt4(env, e, files)
            case (Ext4, _) => HoldsExt4(env, p, files)
            case (Unknown, _) => HoldsExt4(env, e, files)
  {
    Reaches(env, setup, files, tr, i);
  }

  // The step that logs success: persist is the efs image that was just erased.
  lemma CompletionIsExact(env: Env, setup: Setup, files: Files, tr: seq<State>, i: nat)
    requires Safe(setup) && Execution(env, setup, files, tr) && i + 1 < |tr|
    requires Command(env, tr[i], tr[i + 1]) && tr[i + 1].pc == Exited(Migrated)
    ensures tr[i + 1].persist == Flushed(tr[i].efs.cache)
    ensures setup.persistBlocks == setup.efsBlocks
    ensures OnExt4(env, tr[i + 1].persist, files)
    ensures GetFsType(tr[i + 1].efs.cache) != Ext4
  {
    Reaches(env, setup, files, tr, i);
    Reaches(env, setup, files, tr, i + 1);
  }

  // The two ways in which a boot ends before the loop.
  predicate Exits(p: Device, e: Device) {
    GetFsType(p) == Unknown || (GetFsType(p) == Ext4 && GetFsType(e) != Ext4)
  }

  // Once a boot exits before the loop, so does every later one, and both devices stay as they
  // are, in any environment: for a finished migration as for one stranded without a magic.
  lemma {:induction false} ExitsForever(env: Env, tr: seq<State>, k: nat, i: nat)
    requires Run(env, tr) && k <= i < |tr| && tr[k].pc == Off
    requires tr[k].persist == Flushed(tr[k].persist.cache) && tr[k].efs == Flushed(tr[k].efs.cache)
    requires Exits(tr[k].persist.cache, tr[k].efs.cache)
    ensures tr[i].pc in {Off, Exited(AlreadyDone), Exited(Uninitialized)}
    ensures tr[i].persist == tr[k].persist && tr[i].efs == tr[k].efs
  {
    if i == k {
    } else {
      ExitsForever(env, tr, k, i - 1);
      var s, t := tr[i - 1], tr[i];
      assert StepAt(env, tr, i - 1);
      if Writeback(env, s, t) {
        SurvivorFacts(false, s.persist, t.persist.durable);
        SurvivorFacts(env.promises.efsOrdered, s.efs, t.efs.durable);
      } else if PowerCut(env, s, t) {
        SurvivorFacts(false, s.persist, t.persist.cache);
        SurvivorFacts(env.promises.efsOrdered, s.efs, t.efs.cache);
      }
    }
  }

  // The boot after a success finds persist as it was left.  The zeroing is not synced: if its
  // first block was lost, efs is still the whole copy and the last step is done again;
  // otherwise no later boot, however often the power fails, changes either device.
  lemma DoneStaysDone(env: Env, setup: Setup, files: Files, tr: seq<State>, k: nat, i: nat)
    requires Safe(setup) && Execution(env, setup, files, tr) && k + 1 <= i < |tr|
    requires tr[k].pc == Exited(Migrated) && tr[k + 1].pc == Off
    ensures tr[k + 1].persist == tr[k].persist && OnExt4(env, tr[k].persist, files)
    ensures if GetFsType(tr[k + 1].efs.cache) == Ext4
            then tr[k + 1].efs == tr[k + 1].persist
            else tr[i].persist == tr[k].persist && tr[i].efs == tr[k + 1].efs
  {
    Reaches(env, setup, files, tr, k);
    assert StepAt(env, tr, k);
    SurvivorFacts(false, tr[k].persist, tr[k + 1].persist.cache);
    SurvivorFacts(env.promises.efsOrdered, tr[k].efs, tr[k + 1].efs.cache);
    if GetFsType(tr[k + 1].efs.cache) != Ext4 {
      ExitsForever(env, tr, k + 1, i);
    }
  }

  /** The durable phase: 0 original, 1 files on efs, 2 efs erased. */
  function Progress(s: State): nat {
    if GetFsType(s.persist.durable) == F2fs then 0
    else if GetFsType(s.efs.durable) == Ext4 then 1
    else 2
  }

  lemma NextNeverGoesBack(env: Env, setup: Setup, s: State, t: State, files: Files)
    requires Safe(setup) && Inv(env, setup, s, files) && Next(env, s, t)
    ensures Progress(s) <= Progress(t)
  {
    if Command(env, s, t) {
      CommandNeverGoesBack(env, setup, s, t, files);
    } else if Writeback(env, s, t) {
      SurvivorFacts(false, s.persist, t.persist.durable);
      SurvivorFacts(env.promises.efsOrdered, s.efs, t.efs.durable);
    } else {
      CutNeverGoesBack(env, setup, s, t, files);
    }
  }

  lemma CommandNeverGoesBack(env: Env, setup: Setup, s: State, t: State, files: Files)
    requires Safe(setup) && Inv(env, setup, s, files) && Command(env, s, t)
    ensures Progress(s) <= Progress(t)
  {
    CommandKeepsInv(env, setup, s, t, files);
  }

  // With nothing going on, what survives has the type of the durable or of the cached contents.
  lemma IdleCutNeverGoesBack(env: Env, s: State, t: State, files: Files)
    requires Stranded(env, s, files) || Complete(env, s, files)
    requires PowerCut(env, s, t)
    requires Survives(false, s.persist, t.persist.cache)
    requires Survives(env.promises.efsOrdered, s.efs, t.efs.cache)
    ensures Progress(s) <= Progress(t)
  {
    SurvivorFacts(false, s.persist, t.persist.cache);
    SurvivorFacts(env.promises.efsOrdered, s.efs, t.efs.cache);
  }

  lemma CutNeverGoesBack(env: Env, setup: Setup, s: State, t: State, files: Files)
    requires Safe(setup) && Inv(env, setup, s, files) && PowerCut(env, s, t)
    ensures Progress(s) <= Progress(t)
  {
    var p, e := t.persist.cache, t.efs.cache;
    if s.pc == Off {
      SurvivorFacts(false, s.persist, p);
      SurvivorFacts(env.promises.efsOrdered, s.efs, e);
    } else if Original(env, s, files) {
      assert Progress(s) == 0;
    } else if s.pc == ZeroEfs {
      CutWhileZeroing(env, s, p, e, files);
    } else if Rebuilding(env, s, files) && !(s.pc.Exited? && s.pc.reason != GaveUp) {
      CutWhileRebuilding(env, s, p, e, files);
    } else {
      IdleCutNeverGoesBack(env, s, t, files);
    }
  }

  lemma StepNeverGoesBack(env: Env, setup: Setup, files: Files, tr: seq<State>, j: nat)
    requires Safe(setup) && Execution(env, setup, files, tr) && 0 < j < |tr|
    ensures Progress(tr[j - 1]) <= Progress(tr[j])
  {
    var s, t := tr[j - 1], tr[j];
    Reaches(env, setup, files, tr, j - 1);
    assert StepAt(env, tr, j - 1);
    NextNeverGoesBack(env, setup, s, t, files);
  }

  lemma {:induction false} PhaseNeverGoesBack(
      env: Env, setup: Setup, files: Files, tr: seq<State>, i: nat, j: nat)
    requires Safe(setup) && Execution(env, setup, files, tr) && i <= j < |tr|
    ensures Progress(tr[i]) <= Progress(tr[j])
  {
    if i == j {
    } else {
      PhaseNeverGoesBack(env, setup, files, tr, i, j - 1);
      StepNeverGoesBack(env, setup, files, tr, j);
    }
  }

  // Work left in this boot: every iteration is at most 13 commands from loop head to loop head.
  function WorkLeft(s: State): nat {
    match s.pc
    case Off => 13 * MAX_RETRIES + 2
    case Exited(_) => 0
    case _ => 13 * s.retries + Position(s.pc)
  }

  function Position(pc: Pc): nat {
    match pc
    case FormatEfs => 13
    case MkdirOld => 12
    case MkdirNew => 11
    case MountPersist => 10
    case MountEfs => 9
    case CopyFiles => 8
    case Compare => 7
    case FormatPersist => 6
    case CopyBack => 5
    case SyncAll => 4
    case Verify => 3
    case ZeroEfs => 2
    case Head => 1
    case _ => 0
  }

  // A step of a boot that goes on: a command, or blocks written back in the background.
  ghost predicate UncutStep(env: Env, tr: seq<State>, i: int)
    requires 0 <= i < |tr| - 1
  {
    Command(env, tr[i], tr[i + 1]) || Writeback(env, tr[i], tr[i + 1])
  }

  ghost predicate Uncut(env: Env, tr: seq<State>) {
    && |tr| > 0
    && forall i :: 0 <= i < |tr| - 1 ==> UncutStep(env, tr, i)
  }

  lemma UncutFront(env: Env, tr: seq<State>)
    requires Uncut(env, tr) && |tr| > 1
    ensures Uncut(env, tr[..|tr| - 1]) && UncutStep(env, tr, |tr| - 2)
  {
    var front := tr[..|tr| - 1];
    forall i | 0 <= i < |front| - 1 ensures UncutStep(env, front, i) {
      assert UncutStep(env, tr, i);
    }
  }

  ghost function Commands(env: Env, tr: seq<State>): nat {
    if |tr| < 2 then 0
    else Commands(env, tr[..|tr| - 1]) + if Command(env, tr[|tr| - 2], tr[|tr| - 1]) then 1 else 0
  }

  // Between two power cuts the script runs at most 132 commands, in any environment and
  // whatever is written back meanwhile.
  lemma {:induction false} BoundedWork(env: Env, tr: seq<State>)
    requires Uncut(env, tr)
    ensures Commands(env, tr) + WorkLeft(tr[|tr| - 1]) <= WorkLeft(tr[0])
    ensures tr[0].pc == Off ==> Commands(env, tr) <= 132
  {
    if |tr| == 1 {
    } else {
      UncutFront(env, tr);
      BoundedWork(env, tr[..|tr| - 1]);
      var s, t := tr[|tr| - 2], tr[|tr| - 1];
      if Command(env, s, t) { CommandUsesWork(env, s, t); }
    }
  }

  lemma CommandUsesWork(env: Env, s: State, t: State)
    requires Command(env, s, t)
    ensures WorkLeft(t) < WorkLeft(s)
  {
  }

  // Times the loop body is entered.
  function Iterations(tr: seq<State>): nat {
    if |tr| < 2 then 0
    else Iterations(tr[..|tr| - 1]) + if EntersLoop(tr[|tr| - 2], tr[|tr| - 1]) then 1 else 0
  }

  predicate EntersLoop(s: State, t: State) {
    s.pc == Head && t.pc != Head && !t.pc.Exited?
  }

  // One boot goes round the loop at most ten times.
  lemma {:induction false} AtMostTenIterations(env: Env, tr: seq<State>)
    requires Uncut(env, tr) && tr[0].pc == Off
    ensures Iterations(tr) <= MAX_RETRIES
    ensures tr[|tr| - 1].pc == Off ==> Iterations(tr) == 0
    ensures tr[|tr| - 1].pc != Off && !tr[|tr| - 1].pc.Exited? ==>
              Iterations(tr) + tr[|tr| - 1].retries == MAX_RETRIES
  {
    if |tr| == 1 {
    } else {
      UncutFront(env, tr);
      AtMostTenIterations(env, tr[..|tr| - 1]);
    }
  }
}
