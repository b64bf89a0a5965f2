/** The script itself: a loop over two block devices in which every command may fail.
    The ghost trace ties each command to a step of the state machine, so whatever is
    proved of runs holds of the script, at every point at which it can be cut. */
module Converter {
  import opened Flash
  import opened Migration
  import opened MigrationSafety

  /** What the world decides about one command: the status it reports, the images it
      would leave, and how many blocks of a failing dd get through. */
  datatype Outcome = Outcome(ok: bool, persist: Device, efs: Device, blocks: nat)

  // Success is followed by this command; every failure goes back to the loop head.
  function After(pc: Pc): Pc {
    match pc
    case FormatEfs => MkdirOld
    case MkdirOld => MkdirNew
    case MkdirNew => MountPersist
    case MountPersist => MountEfs
    case MountEfs => CopyFiles
    case CopyFiles => Compare
    case Compare => FormatPersist
    case FormatPersist => CopyBack
    case CopyBack => SyncAll
    case SyncAll => Verify
    case Verify => ZeroEfs
    case ZeroEfs => Exited(Migrated)
    case _ => Head
  }

  predicate Runnable(pc: Pc) {
    !pc.Off? && !pc.Head? && !pc.Exited?
  }

  // The command reports success, and that is possible.
  predicate Passes(env: Env, s: State, o: Outcome) {
    match s.pc
    case FormatEfs => o.ok && |o.efs| == |s.efs.cache| && Formatted(env, o.efs)
    case MkdirOld => o.ok
    case MkdirNew => o.ok
    case MountPersist => o.ok && SameF2fs(env, s.persist.cache, o.persist)
    case MountEfs => o.ok
    case CopyFiles =>
      && o.ok && SameF2fs(env, s.persist.cache, o.persist)
      && |o.efs| == |s.efs.cache| && GetFsType(o.efs) == Ext4
    case FormatPersist => o.ok && |o.persist| == |s.persist.cache| && Formatted(env, o.persist)
    case CopyBack => o.ok && |s.efs.cache| <= |s.persist.cache|
    case SyncAll => o.ok
    case ZeroEfs => o.ok && |s.efs.cache| >= ZERO_BLOCKS
    case _ => false
  }

  // Three commands in a row report success.
  predicate Ok3(world: nat -> Outcome, c: nat) {
    world(c).ok && world(c + 1).ok && world(c + 2).ok
  }

  // A device written over from its start with d.
  function Over(d: Device, device: Device): Device {
    if |d| <= |device| then d + device[|d|..] else device
  }

  // What success leaves on the devices.
  function PersistAfter(s: State, o: Outcome): Disk {
    match s.pc
    case MountPersist => Flushed(o.persist)
    case CopyFiles => Flushed(o.persist)
    case FormatPersist => Flushed(o.persist)
    case CopyBack => Disk(Over(s.efs.cache, s.persist.cache), s.persist.durable)
    case SyncAll => Flushed(s.persist.cache)
    case _ => s.persist
  }

  function EfsAfter(s: State, o: Outcome): Disk {
    match s.pc
    case FormatEfs => Flushed(o.efs)
    case CopyFiles => Flushed(o.efs)
    case SyncAll => Flushed(s.efs.cache)
    case ZeroEfs => Disk(Over(Zeros(ZERO_BLOCKS), s.efs.cache), s.efs.durable)
    case _ => s.efs
  }

  // One command under a given outcome; an outcome no such command can have is a clean failure.
  function Perform(env: Env, s: State, o: Outcome): (t: State)
    requires Runnable(s.pc)
    ensures Command(env, s, t)
    ensures t.pc == After(s.pc) || t.pc == Head
    ensures t.retries == s.retries
    ensures |t.persist.cache| == |s.persist.cache| && |t.efs.cache| == |s.efs.cache|
  {
    var failed := s.(pc := Head);
    var passed := s.(pc := After(s.pc));
    match s.pc
    case FormatEfs =>
      if |o.efs| != |s.efs.cache| then failed.(efs := Flushed(s.efs.cache))
      else (if o.ok && Formatted(env, o.efs) then passed else failed).(efs := Flushed(o.efs))
    case MountPersist =>
      if o.ok && SameF2fs(env, s.persist.cache, o.persist) then passed.(persist := Flushed(o.persist)) else failed
    case CopyFiles =>
      if SameF2fs(env, s.persist.cache, o.persist) && |o.efs| == |s.efs.cache| && GetFsType(o.efs) == Ext4
      then (if o.ok then passed else failed).(persist := Flushed(o.persist), efs := Flushed(o.efs))
      else failed
    case Compare => if ListingsAgree(env, s) then passed else failed
    case FormatPersist =>
      var fits := |o.persist| == |s.persist.cache|;
      if o.ok && fits && Formatted(env, o.persist) then passed.(fs := Ext4, persist := Flushed(o.persist))
      else if fits && !env.promises.formatAtomic then failed.(persist := Flushed(o.persist))
      else failed
    case CopyBack =>
      var room := if |s.efs.cache| <= |s.persist.cache| then |s.efs.cache| else |s.persist.cache|;
      var k := if o.ok || o.blocks > room then room else o.blocks;
      (if o.ok && k == |s.efs.cache| then passed else failed).(
        persist := s.persist.(cache := Copied(s.efs.cache, s.persist.cache, k)))
    case SyncAll =>
      if o.ok then passed.(persist := Flushed(s.persist.cache), efs := Flushed(s.efs.cache)) else failed
    case Verify => if s.persist.cache == s.efs.cache then passed else failed
    case ZeroEfs =>
      var n := |s.efs.cache|;
      var done := o.ok && n >= ZERO_BLOCKS;
      var k := if done then ZERO_BLOCKS
               else if n < ZERO_BLOCKS && (o.ok || o.blocks >= n) then n
               else if env.promises.zeroAtomic || o.blocks > ZERO_BLOCKS then 0
               else o.blocks;
      if k > n then failed
      else (if done then passed else failed).(efs := s.efs.(cache := Zeroed(s.efs.cache, k)))
    case _ => if o.ok then passed else failed
  }

  // Where control goes, and with which status.  No error is passed over.
  ghost predicate StatusDecides(env: Env, s: State, o: Outcome, t: State) {
    && (t.pc == After(s.pc) || t.pc == Head)
    && (!o.ok && s.pc !in {Compare, Verify} ==> t.pc == Head)
    && (Passes(env, s, o) ==> t.pc == After(s.pc))
    && (s.pc == Compare ==> (t.pc == FormatPersist <==> ListingsAgree(env, s)))
    && (s.pc == Verify ==> (t.pc == ZeroEfs <==> s.persist.cache == s.efs.cache))
  }

  lemma PerformGoes(env: Env, s: State, o: Outcome)
    requires Runnable(s.pc)
    ensures StatusDecides(env, s, o, Perform(env, s, o))
  {
  }

  lemma PerformLeaves(env: Env, s: State, o: Outcome)
    requires Runnable(s.pc)
    ensures var t := Perform(env, s, o);
            t.pc != Head ==> t.persist == PersistAfter(s, o) && t.efs == EfsAfter(s, o)
  {
  }

  lemma CopyBackOutcome(env: Env, s: State, t: State)
    requires s.pc == CopyBack && CopyBackStep(s, t)
    ensures exists o: Outcome :: Perform(env, s, o) == t
  {
    var k: nat :| k <= |s.efs.cache| && k <= |s.persist.cache| &&
      t.persist == s.persist.(cache := Copied(s.efs.cache, s.persist.cache, k)) &&
      (t.pc == SyncAll ==> k == |s.efs.cache|);
    var o := Outcome(t.pc == SyncAll, [], [], k);
    assert Perform(env, s, o) == t;
  }

  lemma ZeroEfsOutcome(env: Env, s: State, t: State)
    requires s.pc == ZeroEfs && ZeroEfsStep(env, s, t)
    ensures exists o: Outcome :: Perform(env, s, o) == t
  {
    var k: nat := ZERO_BLOCKS;
    if t.pc == Head {
      k :| k <= |s.efs.cache| && k <= ZERO_BLOCKS &&
        (k == 0 || !env.promises.zeroAtomic || k == |s.efs.cache| < ZERO_BLOCKS) &&
        t == s.(pc := Head, efs := s.efs.(cache := Zeroed(s.efs.cache, k)));
    }
    if k == 0 { ZeroedHasNoMagic(s.efs.cache, 0); }
    var o := Outcome(t.pc != Head, [], [], k);
    assert Perform(env, s, o) == t;
  }

  // No step of the state machine is out of reach: some outcome produces it.
  lemma EveryCommandHasAnOutcome(env: Env, s: State, t: State)
    requires Runnable(s.pc) && Command(env, s, t)
    ensures exists o: Outcome :: Perform(env, s, o) == t
  {
    if s.pc == CopyBack {
      CopyBackOutcome(env, s, t);
    } else if s.pc == ZeroEfs {
      ZeroEfsOutcome(env, s, t);
    } else {
      // An image of the wrong size is an outcome no format or copy can have.
      var o := if t == s.(pc := Head)
               then Outcome(false, s.persist.cache + [ZERO_BLOCK], s.efs.cache + [ZERO_BLOCK], 0)
               else Outcome(t.pc != Head, t.persist.cache, t.efs.cache, 0);
      assert Perform(env, s, o) == t;
    }
  }

  // ---- The script as a function of what the world decides ----

  // The commands of one round, from s on, up to the next loop head or the end; and how many
  // commands have then been run.
  function Rest(env: Env, s: State, world: nat -> Outcome, c: nat): (State, nat)
    decreases Position(s.pc)
  {
    if Runnable(s.pc) then Rest(env, Perform(env, s, world(c)), world, c + 1) else (s, c)
  }

  function Begun(s: State): State
    requires s.retries > 0
  {
    s.(retries := s.retries - 1, pc := if s.fs == F2fs then FormatEfs else CopyBack)
  }

  lemma {:induction false} RestEnds(env: Env, s: State, world: nat -> Outcome, c: nat)
    ensures var t := Rest(env, s, world, c).0;
            !Runnable(t.pc) && t.retries == s.retries && (Runnable(s.pc) ==> t.pc in {Head, Exited(Migrated)})
    decreases Position(s.pc)
  {
    if !Runnable(s.pc) {
    } else {
      RestEnds(env, Perform(env, s, world(c)), world, c + 1);
    }
  }

  // The loop (lines 64 to 178).
  function Looped(env: Env, s: State, world: nat -> Outcome, c: nat): State
    decreases s.retries
  {
    if s.retries == 0 then s.(pc := Exited(GaveUp))
    else
      var (t, d) := Rest(env, Begun(s), world, c);
      RestEnds(env, Begun(s), world, c);
      if t.pc == Head then Looped(env, t, world, d) else t
  }

  // A boot (lines 48 to 178).
  function Booted(env: Env, s: State, world: nat -> Outcome, c: nat): State {
    var t := Decide(s);
    if t.pc == Head then Looped(env, t, world, c) else t
  }

  // ---- When all goes well ----

  ghost predicate RoomToErase(s: State) {
    |s.persist.cache| == |s.efs.cache| >= ZERO_BLOCKS
  }

  // From the comparison on.
  lemma VerifyMigrates(env: Env, s: State, world: nat -> Outcome, c: nat)
    requires s.pc == Verify && RoomToErase(s) && s.persist.cache == s.efs.cache
    requires world(c + 1).ok
    ensures var t := Rest(env, s, world, c).0;
            t.pc == Exited(Migrated) && t.persist == s.persist && GetFsType(t.efs.cache) == Unknown
  {
    var verified := Perform(env, s, world(c));
    var erased := Perform(env, verified, world(c + 1));
    ZeroedHasNoMagic(s.efs.cache, ZERO_BLOCKS);
    assert Rest(env, erased, world, c + 2).0 == erased;
    assert Rest(env, verified, world, c + 1).0 == erased;
  }

  lemma CopyMigrates(env: Env, s: State, world: nat -> Outcome, c: nat)
    requires s.pc == CopyBack && RoomToErase(s)
    requires forall k :: c <= k < c + 4 ==> world(k).ok
    ensures var t := Rest(env, s, world, c).0;
            t.pc == Exited(Migrated) && t.persist == Flushed(s.efs.cache) && GetFsType(t.efs.cache) == Unknown
  {
    var copied := Perform(env, s, world(c));
    assert copied.persist.cache == s.efs.cache;
    var synced := Perform(env, copied, world(c + 1));
    VerifyMigrates(env, synced, world, c + 2);
    assert Rest(env, copied, world, c + 1).0 == Rest(env, synced, world, c + 2).0;
  }

  // From the copy of the files on.
  lemma FillMigrates(env: Env, s: State, world: nat -> Outcome, c: nat)
    requires s.pc == CopyFiles && RoomToErase(s)
    requires forall k :: c <= k < c + 7 ==> world(k).ok
    requires FillFits(env, s.persist.cache, |s.efs.cache|, world, c)
    ensures var t := Rest(env, s, world, c).0;
            && t.pc == Exited(Migrated) && t.persist == Flushed(world(c).efs)
            && GetFsType(t.efs.cache) == Unknown
  {
    var filled := Perform(env, s, world(c));
    var compared := Perform(env, filled, world(c + 1));
    var formatted := Perform(env, compared, world(c + 2));
    CopyMigrates(env, formatted, world, c + 3);
    assert Rest(env, compared, world, c + 2) == Rest(env, formatted, world, c + 3);
    assert Rest(env, filled, world, c + 1) == Rest(env, compared, world, c + 2);
  }

  // The copy leaves an image with the files of persist, the format of persist a blank one.
  ghost predicate FillFits(env: Env, persist: Device, n: nat, world: nat -> Outcome, c: nat) {
    && SameF2fs(env, persist, world(c).persist)
    && |world(c).efs| == n && GetFsType(world(c).efs) == Ext4
    && persist in env.f2fs && world(c).efs in env.ext4
    && env.ext4[world(c).efs] == env.f2fs[persist]
    && |world(c + 2).persist| == n && Formatted(env, world(c + 2).persist)
  }

  // From the first mkdir on.
  lemma MountMigrates(env: Env, s: State, world: nat -> Outcome, c: nat)
    requires s.pc == MkdirOld && RoomToErase(s)
    requires forall k :: c <= k < c + 11 ==> world(k).ok
    requires SameF2fs(env, s.persist.cache, world(c + 2).persist)
    requires FillFits(env, world(c + 2).persist, |s.efs.cache|, world, c + 4)
    ensures var t := Rest(env, s, world, c).0;
            && t.pc == Exited(Migrated) && t.persist == Flushed(world(c + 4).efs)
            && GetFsType(t.efs.cache) == Unknown
  {
    var first := Perform(env, s, world(c));
    var second := Perform(env, first, world(c + 1));
    var mounted := Perform(env, second, world(c + 2));
    var both := Perform(env, mounted, world(c + 3));
    FillMigrates(env, both, world, c + 4);
    assert Rest(env, mounted, world, c + 3) == Rest(env, both, world, c + 4);
    assert Rest(env, second, world, c + 2) == Rest(env, mounted, world, c + 3);
    assert Rest(env, first, world, c + 1) == Rest(env, second, world, c + 2);
  }

  // A boot on an original persist, in which every command reports success and leaves images that
  // fit, ends in success after the first round's twelve commands, with the files on persist.
  lemma AllWellMigrates(env: Env, s: State, world: nat -> Outcome, c: nat)
    requires s.pc == Off && GetFsType(s.persist.cache) == F2fs && RoomToErase(s) && s.persist.cache in env.f2fs
    requires forall k :: c <= k < c + 12 ==> world(k).ok
    requires |world(c).efs| == |s.efs.cache| && Formatted(env, world(c).efs)
    requires SameF2fs(env, s.persist.cache, world(c + 3).persist)
    requires FillFits(env, world(c + 3).persist, |s.efs.cache|, world, c + 5)
    ensures var t := Booted(env, s, world, c);
            && t.pc == Exited(Migrated) && t.retries == MAX_RETRIES - 1
            && t.persist == Flushed(world(c + 5).efs)
            && env.ext4[world(c + 5).efs] == env.f2fs[s.persist.cache]
            && GetFsType(t.efs.cache) == Unknown
  {
    var begun := Begun(Decide(s));
    var formatted := Perform(env, begun, world(c));
    MountMigrates(env, formatted, world, c + 1);
    RestEnds(env, begun, world, c);
    assert Rest(env, begun, world, c) == Rest(env, formatted, world, c + 1);
  }

  // So does a boot on two ext4 devices, after four commands.
  lemma AllWellCopies(env: Env, s: State, world: nat -> Outcome, c: nat)
    requires s.pc == Off && GetFsType(s.persist.cache) == GetFsType(s.efs.cache) == Ext4 && RoomToErase(s)
    requires forall k :: c <= k < c + 4 ==> world(k).ok
    ensures var t := Booted(env, s, world, c);
            && t.pc == Exited(Migrated) && t.retries == MAX_RETRIES - 1
            && t.persist == Flushed(s.efs.cache) && GetFsType(t.efs.cache) == Unknown
  {
    CopyMigrates(env, Begun(Decide(s)), world, c);
    RestEnds(env, Begun(Decide(s)), world, c);
  }

  // And one in which every command reports an error gives up with persist as it was.
  lemma {:induction false} AllFailing(env: Env, s: State, world: nat -> Outcome, c: nat)
    requires s.pc == Head && s.fs == F2fs && forall k :: !world(k).ok
    ensures Looped(env, s, world, c).pc == Exited(GaveUp)
    ensures Looped(env, s, world, c).retries == 0
    ensures Looped(env, s, world, c).persist == s.persist
    decreases s.retries
  {
    if s.retries == 0 {
    } else {
      var t := Perform(env, Begun(s), world(c));
      assert Rest(env, t, world, c + 1) == (t, c + 1);
      AllFailing(env, t, world, c + 1);
    }
  }

  class Converter {
    var persist: Disk
    var efs: Disk
    var retries: nat
    var persistFs: FsType
    var pc: Pc
    const env: Env
    const world: nat -> Outcome
    var commands: nat
    ghost var trace: seq<State>

    function Now(): State
      reads this
    {
      State(pc, retries, persistFs, persist, efs)
    }

    // Where the round will end, and after how many commands.
    ghost function End(): (State, nat)
      reads this
    {
      Rest(env, Now(), world, commands)
    }

    ghost predicate Valid()
      reads this
    {
      Run(env, trace) && trace[|trace| - 1] == Now()
    }

    constructor (persist: Device, efs: Device, env: Env, world: nat -> Outcome)
      ensures Valid() && trace == [Now()] && pc == Off
      ensures this.persist == Flushed(persist) && this.efs == Flushed(efs)
      ensures this.env == env && this.world == world && commands == 0
    {
      this.persist, this.efs := Flushed(persist), Flushed(efs);
      this.retries, this.persistFs, this.pc := 0, Unknown, Off;
      this.env, this.world, this.commands := env, world, 0;
      this.trace := [State(Off, 0, Unknown, Flushed(persist), Flushed(efs))];
    }

    method Record(next: Pc)
      requires Run(env, trace) && Command(env, trace[|trace| - 1], Now().(pc := next))
      modifies `pc, `trace
      ensures Valid() && pc == next && trace == old(trace) + [Now()]
    {
      pc := next;
      ExtendRun(env, trace, Now());
      trace := trace + [Now()];
    }

    // One command and its check_success.
    method Try() returns (ok: bool)
      requires Valid() && Runnable(pc)
      modifies this
      ensures Valid() && trace == old(trace) + [Now()]
      ensures End() == old(End())
      ensures pc == if ok then After(old(pc)) else Head
      ensures old(pc !in {Compare, Verify} && !world(commands).ok) ==> !ok
      ensures retries == old(retries) && commands == old(commands) + 1
    {
      var t := Perform(env, Now(), world(commands));
      commands := commands + 1;
      persist, efs, persistFs := t.persist, t.efs, t.fs;
      Record(t.pc);
      ok := pc != Head;
    }

    // A whole boot: lines 48 to 178.
    method Script() returns (rounds: nat)
      requires pc == Off && Valid()
      modifies this
      ensures Valid() && pc.Exited?
      ensures Now() == old(Booted(env, Now(), world, commands))
      ensures rounds <= MAX_RETRIES
      ensures old(trace) <= trace
    {
      rounds := 0;
      var proceed := Boot();
      if proceed { rounds := Loop(); }
    }

    // It is safe, at every point.
    method Migrate(ghost setup: Setup, ghost files: Files) returns (rounds: nat)
      requires pc == Off && Valid()
      modifies this
      ensures Valid() && pc.Exited?
      ensures Now() == old(Booted(env, Now(), world, commands))
      ensures rounds <= MAX_RETRIES
      ensures old(trace) <= trace
      ensures Safe(setup) && old(Execution(env, setup, files, trace)) ==>
                forall i :: 0 <= i < |trace| ==> NoLoss(env, trace[i], files)
      ensures Safe(setup) && old(Execution(env, setup, files, trace)) && pc == Exited(Migrated) ==>
                HoldsExt4(env, persist.durable, files) && GetFsType(efs.cache) != Ext4
    {
      rounds := Script();
      ghost var tr := trace;
      if Safe(setup) && Execution(env, setup, files, old(trace)) {
        RunKeepsFiles(env, setup, files, tr);
      }
    }

    // Lines 48 to 63.
    method Boot() returns (proceed: bool)
      requires Valid() && pc == Off
      modifies this
      ensures Valid() && trace == old(trace) + [Now()]
      ensures Now() == Decide(old(Now())) && commands == old(commands)
      ensures proceed == (pc == Head) && (proceed ==> retries == MAX_RETRIES)
    {
      var efsFs := GetFsType(efs.cache);
      persistFs := GetFsType(persist.cache);
      proceed := false;
      if persistFs == Ext4 && efsFs != Ext4 {
        Record(Exited(AlreadyDone));
      } else if persistFs == Unknown {
        Record(Exited(Uninitialized));
      } else {
        retries := MAX_RETRIES;
        proceed := true;
        Record(Head);
      }
    }

    method Loop() returns (rounds: nat)
      requires Valid() && pc == Head
      modifies this
      ensures Valid() && pc.Exited?
      ensures Now() == old(Looped(env, Now(), world, commands))
      ensures rounds <= old(retries)
      ensures old(trace) <= trace
    {
      rounds := 0;
      while retries > 0
        invariant Valid() && pc == Head
        invariant rounds + retries == old(retries)
        invariant Looped(env, Now(), world, commands) == old(Looped(env, Now(), world, commands))
        invariant old(trace) <= trace
        decreases retries
      {
        rounds := rounds + 1;
        var migrated := Round();
        if migrated { return; }
      }
      Record(Exited(GaveUp));
    }

    // The loop body, up to the next `continue`.
    method Round() returns (migrated: bool)
      requires Valid() && pc == Head && retries > 0
      modifies this
      ensures Valid() && pc == (if migrated then Exited(Migrated) else Head)
      ensures (Now(), commands) == old(Rest(env, Begun(Now()), world, commands))
      ensures retries == old(retries) - 1
      ensures old(trace) <= trace
    {
      BeginRound();
      migrated := false;
      if persistFs == F2fs {
        var moved := MoveToEfs();
        if !moved { return; }
      }
      migrated := CopyHome();
    }

    method BeginRound()
      requires Valid() && pc == Head && retries > 0
      modifies `retries, `pc, `trace
      ensures Valid() && trace == old(trace) + [Now()]
      ensures Now() == Begun(old(Now()))
    {
      retries := retries - 1;
      Record(if persistFs == F2fs then FormatEfs else CopyBack);
    }

    // Lines 72 to 91.
    method FormatAndMkdir() returns (ok: bool)
      requires Valid() && pc == FormatEfs
      modifies this
      ensures Valid() && pc == (if ok then MountPersist else Head)
      ensures End() == old(End())
      ensures ok ==> commands == old(commands) + 3 && Ok3(world, old(commands))
      ensures retries == old(retries)
      ensures old(trace) <= trace
    {
      ok := Try();
      if !ok { return; }
      ok := Try();
      if !ok { return; }
      ok := Try();
    }

    // Lines 94 to 121.
    method MountAndCopy() returns (ok: bool)
      requires Valid() && pc == MountPersist
      modifies this
      ensures Valid() && pc == (if ok then Compare else Head)
      ensures End() == old(End())
      ensures ok ==> commands == old(commands) + 3 && Ok3(world, old(commands))
      ensures retries == old(retries)
      ensures old(trace) <= trace
    {
      ok := Try();
      if !ok { return; }
      ok := Try();
      if !ok { return; }
      ok := Try();
    }

    // Lines 72 to 138.
    method FillEfs() returns (ok: bool)
      requires Valid() && pc == FormatEfs
      modifies this
      ensures Valid() && pc == (if ok then FormatPersist else Head)
      ensures End() == old(End())
      ensures ok ==> commands == old(commands) + 7
      ensures retries == old(retries)
      ensures old(trace) <= trace
    {
      ok := FormatAndMkdir();
      if !ok { return; }
      ok := MountAndCopy();
      if !ok { return; }
      ok := Try();
    }

    // Lines 71 to 146.
    method MoveToEfs() returns (ok: bool)
      requires Valid() && pc == FormatEfs
      modifies this
      ensures Valid() && pc == (if ok then CopyBack else Head)
      ensures End() == old(End())
      ensures ok ==> commands == old(commands) + 8
      ensures retries == old(retries)
      ensures old(trace) <= trace
    {
      ok := FillEfs();
      if !ok { return; }
      ok := Try();
    }

    // Lines 150 to 177.
    method CopyHome() returns (ok: bool)
      requires Valid() && pc == CopyBack
      modifies this
      ensures Valid() && pc == (if ok then Exited(Migrated) else Head)
      ensures End() == old(End())
      ensures ok ==> commands == old(commands) + 4
      ensures retries == old(retries)
      ensures old(trace) <= trace
    {
      ok := Try();
      if !ok { return; }
      ok := Try();
      if !ok { return; }
      ok := Try();
      if !ok { return; }
      ok := Try();
    }
  }
}
