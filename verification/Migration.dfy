/** The persist migration as a state machine: one step per command of the script, plus
    background write-back and power cuts at every point. */
module Migration {
  import opened Flash

  const MAX_RETRIES: nat := 10
  // 64 MiB: bs=1M count=64, in 4096-byte blocks.
  const ZERO_BLOCKS: nat := 16384

  lemma ZeroingIs64MiB()
    ensures ZERO_BLOCKS * BLOCK_SIZE == 64 * 1024 * 1024
  {
  }

  /** What the hardware and the tools may or may not promise: that a format of persist, or a
      zeroing of efs, that reports an error has left its device alone; that a power cut during the format of
      persist leaves it as it was or without the f2fs magic; that of efs block 0 is written back first. */
  datatype Promises = Promises(formatAtomic: bool, zeroAtomic: bool, formatCutClean: bool, efsOrdered: bool)

  // `ext4` and `f2fs` say which images mount and with which regular files.
  datatype Env = Env(ext4: map<Device, Files>, f2fs: map<Device, Files>, promises: Promises)

  datatype Reason = AlreadyDone | Uninitialized | Migrated | GaveUp

  // The command about to run.  `Off` is the start of a boot, before the magics are read.
  datatype Pc =
    | Off
    | Head
    | FormatEfs
    | MkdirOld
    | MkdirNew
    | MountPersist
    | MountEfs
    | CopyFiles
    | Compare
    | FormatPersist
    | CopyBack
    | SyncAll
    | Verify
    | ZeroEfs
    | Exited(reason: Reason)

  // `retries` and `fs` (RETRIES, PERSIST_FS) are volatile; the disks are not.
  datatype State = State(pc: Pc, retries: nat, fs: FsType, persist: Disk, efs: Disk)

  // Lines 48-63: read both magics and decide.
  function Decide(s: State): State {
    var p := GetFsType(s.persist.cache);
    var e := GetFsType(s.efs.cache);
    if p == Ext4 && e != Ext4 then s.(pc := Exited(AlreadyDone), fs := p)
    else if p == Unknown then s.(pc := Exited(Uninitialized), fs := p)
    else s.(pc := Head, fs := p, retries := MAX_RETRIES)
  }

  // A mounted f2fs may rewrite its own blocks, never its files.
  predicate SameF2fs(env: Env, a: Device, b: Device) {
    && |a| == |b|
    && GetFsType(b) == F2fs
    && (a in env.f2fs ==> b in env.f2fs && env.f2fs[b] == env.f2fs[a])
  }

  ghost predicate Command(env: Env, s: State, t: State) {
    match s.pc
    case Off => t == Decide(s)
    case Head =>
      t == if s.retries > 0
           then s.(pc := if s.fs == F2fs then FormatEfs else CopyBack, retries := s.retries - 1)
           else s.(pc := Exited(GaveUp))
    case FormatEfs => FormatEfsStep(env, s, t)
    case MkdirOld => t == s.(pc := MkdirNew) || t == s.(pc := Head)
    case MkdirNew => t == s.(pc := MountPersist) || t == s.(pc := Head)
    case MountPersist => MountPersistStep(env, s, t)
    case MountEfs => t == s.(pc := CopyFiles) || t == s.(pc := Head)
    case CopyFiles => CopyFilesStep(env, s, t)
    case Compare => t == s.(pc := if ListingsAgree(env, s) then FormatPersist else Head)
    case FormatPersist => FormatPersistStep(env, s, t)
    case CopyBack => CopyBackStep(s, t)
    case SyncAll =>
      || t == s.(pc := Verify, persist := Flushed(s.persist.cache), efs := Flushed(s.efs.cache))
      || t == s.(pc := Head)
    case Verify => t == s.(pc := if s.persist.cache == s.efs.cache then ZeroEfs else Head)
    case ZeroEfs => ZeroEfsStep(env, s, t)
    case Exited(_) => false
  }

  // What a successful mke2fs leaves: an ext4 image without files.
  predicate Formatted(env: Env, d: Device) {
    GetFsType(d) == Ext4 && (d in env.ext4 ==> env.ext4[d] == map[])
  }

  // Line 72: failure leaves anything.
  ghost predicate FormatEfsStep(env: Env, s: State, t: State) {
    && |t.efs.cache| == |s.efs.cache|
    && t.efs == Flushed(t.efs.cache)
    && ((t == s.(pc := MkdirOld, efs := t.efs) && Formatted(env, t.efs.cache))
        || t == s.(pc := Head, efs := t.efs))
  }

  ghost predicate MountPersistStep(env: Env, s: State, t: State) {
    || t == s.(pc := Head)
    || (t == s.(pc := MountEfs, persist := Flushed(t.persist.cache))
        && SameF2fs(env, s.persist.cache, t.persist.cache))
  }

  // Lines 112-120: whatever cp writes, efs stays an ext4 image of the same size.
  ghost predicate CopyFilesStep(env: Env, s: State, t: State) {
    || t == s.(pc := Head)
    || (&& (t.pc == Compare || t.pc == Head)
        && t == s.(pc := t.pc, efs := Flushed(t.efs.cache), persist := Flushed(t.persist.cache))
        && |t.efs.cache| == |s.efs.cache|
        && GetFsType(t.efs.cache) == Ext4
        && SameF2fs(env, s.persist.cache, t.persist.cache))
  }

  // Lines 124-126: both directions of the md5 listings, hence exactly the same files.
  predicate ListingsAgree(env: Env, s: State) {
    && s.efs.cache in env.ext4
    && s.persist.cache in env.f2fs
    && env.ext4[s.efs.cache] == env.f2fs[s.persist.cache]
  }

  // Lines 140-146: success also sets PERSIST_FS and falls through to the copy.
  ghost predicate FormatPersistStep(env: Env, s: State, t: State) {
    || t == s.(pc := Head)
    || (&& |t.persist.cache| == |s.persist.cache|
        && t.persist == Flushed(t.persist.cache)
        && (|| (t == s.(pc := CopyBack, fs := Ext4, persist := t.persist) && Formatted(env, t.persist.cache))
            || (t == s.(pc := Head, persist := t.persist) && !env.promises.formatAtomic)))
  }

  // Line 150: a full copy needs room for all of efs; a failed one wrote some prefix.
  ghost predicate CopyBackStep(s: State, t: State) {
    || (|s.efs.cache| <= |s.persist.cache|
        && t == s.(pc := SyncAll, persist := s.persist.(cache := Copied(s.efs.cache, s.persist.cache, |s.efs.cache|))))
    || exists k: nat | k <= |s.efs.cache| && k <= |s.persist.cache| ::
         t == s.(pc := Head, persist := s.persist.(cache := Copied(s.efs.cache, s.persist.cache, k)))
  }

  // Line 170: an efs smaller than 64 MiB is zeroed to its end, and dd then reports failure.
  ghost predicate ZeroEfsStep(env: Env, s: State, t: State) {
    || (|s.efs.cache| >= ZERO_BLOCKS
        && t == s.(pc := Exited(Migrated), efs := s.efs.(cache := Zeroed(s.efs.cache, ZERO_BLOCKS))))
    || exists k: nat | k <= |s.efs.cache| && k <= ZERO_BLOCKS ::
         && (k == 0 || !env.promises.zeroAtomic || k == |s.efs.cache| < ZERO_BLOCKS)
         && t == s.(pc := Head, efs := s.efs.(cache := Zeroed(s.efs.cache, k)))
  }

  // Some dirty blocks reach the flash on their own.
  ghost predicate Writeback(env: Env, s: State, t: State) {
    && t == s.(persist := s.persist.(durable := t.persist.durable), efs := s.efs.(durable := t.efs.durable))
    && Survives(false, s.persist, t.persist.durable)
    && Survives(env.promises.efsOrdered, s.efs, t.efs.durable)
  }

  // What a power cut during the command at s.pc leaves on persist (p) and efs (e).
  ghost predicate Cut(env: Env, s: State, p: Device, e: Device) {
    && |p| == |s.persist.cache|
    && |e| == |s.efs.cache|
    && match s.pc
       case FormatEfs => Survives(false, s.persist, p)
       case MountPersist => SameF2fs(env, s.persist.cache, p)
       case MountEfs => SameF2fs(env, s.persist.cache, p)
       case CopyFiles => SameF2fs(env, s.persist.cache, p)
       case Compare => SameF2fs(env, s.persist.cache, p)
       case FormatPersist =>
         && (Survives(false, s.persist, p) || GetFsType(p) != F2fs || !env.promises.formatCutClean)
         && Survives(env.promises.efsOrdered, s.efs, e)
       case CopyBack =>
         && Survives(env.promises.efsOrdered, s.efs, e)
         && exists k: nat | k <= |s.efs.cache| && k <= |s.persist.cache| ::
              Torn(false, s.persist.durable, Copied(s.efs.cache, s.persist.cache, k), p)
       case ZeroEfs =>
         && Survives(false, s.persist, p)
         && exists k: nat | k <= |s.efs.cache| && k <= ZERO_BLOCKS ::
              Torn(env.promises.efsOrdered, s.efs.durable, Zeroed(s.efs.cache, k), e)
       case _ => Survives(false, s.persist, p) && Survives(env.promises.efsOrdered, s.efs, e)
  }

  ghost predicate PowerCut(env: Env, s: State, t: State) {
    && t == s.(pc := Off, persist := Flushed(t.persist.cache), efs := Flushed(t.efs.cache))
    && Cut(env, s, t.persist.cache, t.efs.cache)
  }

  ghost predicate Next(env: Env, s: State, t: State) {
    Command(env, s, t) || Writeback(env, s, t) || PowerCut(env, s, t)
  }

  ghost predicate StepAt(env: Env, tr: seq<State>, i: int)
    requires 0 <= i < |tr| - 1
  {
    Next(env, tr[i], tr[i + 1])
  }

  ghost predicate Run(env: Env, tr: seq<State>) {
    && |tr| > 0
    && forall i :: 0 <= i < |tr| - 1 ==> StepAt(env, tr, i)
  }

  lemma ExtendRun(env: Env, tr: seq<State>, t: State)
    requires Run(env, tr) && Next(env, tr[|tr| - 1], t)
    ensures Run(env, tr + [t])
  {
    forall i | 0 <= i < |tr| ensures StepAt(env, tr + [t], i) {
      if i < |tr| - 1 { assert StepAt(env, tr, i); }
    }
  }

  lemma Extend(env: Env, tr: seq<State>, t: State) returns (longer: seq<State>)
    requires Run(env, tr) && Next(env, tr[|tr| - 1], t)
    ensures longer == tr + [t] && Run(env, longer) && longer[0] == tr[0] && longer[|longer| - 1] == t
  {
    ExtendRun(env, tr, t);
    longer := tr + [t];
  }

  /** Where the files are.  Both the cached and the durable contents must hold them. */
  ghost predicate HoldsF2fs(env: Env, d: Device, files: Files) {
    GetFsType(d) == F2fs && d in env.f2fs && env.f2fs[d] == files
  }

  ghost predicate HoldsExt4(env: Env, d: Device, files: Files) {
    GetFsType(d) == Ext4 && d in env.ext4 && env.ext4[d] == files
  }

  ghost predicate OnF2fs(env: Env, disk: Disk, files: Files) {
    HoldsF2fs(env, disk.cache, files) && HoldsF2fs(env, disk.durable, files)
  }

  ghost predicate OnExt4(env: Env, disk: Disk, files: Files) {
    HoldsExt4(env, disk.cache, files) && HoldsExt4(env, disk.durable, files)
  }

  ghost predicate NoLoss(env: Env, s: State, files: Files) {
    OnF2fs(env, s.persist, files) || OnExt4(env, s.efs, files) || OnExt4(env, s.persist, files)
  }

  /** Device sizes in blocks, and what is promised. */
  datatype Setup = Setup(persistBlocks: nat, efsBlocks: nat, promises: Promises)

  ghost predicate Start(env: Env, setup: Setup, files: Files, s: State) {
    && s.pc == Off
    && s.persist == Flushed(s.persist.cache)
    && s.efs == Flushed(s.efs.cache)
    && |s.persist.cache| == setup.persistBlocks
    && |s.efs.cache| == setup.efsBlocks
    && env.promises == setup.promises
    && OnF2fs(env, s.persist, files)
  }

  ghost predicate Execution(env: Env, setup: Setup, files: Files, tr: seq<State>) {
    Run(env, tr) && Start(env, setup, files, tr[0])
  }

  /** When the script can be trusted with the files.  Unequal sizes are harmless only
      because the checksums then never match and the zeroing is never reached. */
  predicate Safe(setup: Setup) {
    && setup.promises.formatAtomic
    && setup.promises.formatCutClean
    && (setup.persistBlocks == setup.efsBlocks ==>
          setup.promises.zeroAtomic && setup.promises.efsOrdered && setup.efsBlocks >= ZERO_BLOCKS)
  }

  // ---- The invariant ----

  ghost predicate Sizes(setup: Setup, s: State) {
    && |s.persist.cache| == |s.persist.durable| == setup.persistBlocks
    && |s.efs.cache| == |s.efs.durable| == setup.efsBlocks
  }

  // Phase one: persist is the untouched original.
  ghost predicate Original(env: Env, s: State, files: Files) {
    s.persist.cache == s.persist.durable && OnF2fs(env, s.persist, files)
  }

  ghost predicate EfsImage(s: State) {
    s.efs.cache == s.efs.durable && GetFsType(s.efs.cache) == Ext4
  }

  ghost predicate EfsComplete(env: Env, s: State, files: Files) {
    s.efs.cache == s.efs.durable && OnExt4(env, s.efs, files)
  }

  // Phase two: efs holds everything and persist is being rebuilt.
  ghost predicate Rebuilding(env: Env, s: State, files: Files) {
    && EfsComplete(env, s, files)
    && GetFsType(s.persist.cache) == GetFsType(s.persist.durable) == Ext4
  }

  // Phase three: persist holds everything; efs is a full copy or has lost its magic.
  ghost predicate Complete(env: Env, s: State, files: Files) {
    && env.promises.efsOrdered
    && s.persist.cache == s.persist.durable
    && OnExt4(env, s.persist, files)
    && (s.efs.cache == s.efs.durable || GetFsType(s.efs.cache) != Ext4)
    && (s.efs.durable == s.persist.cache || GetFsType(s.efs.durable) != Ext4)
  }

  ghost predicate Stranded(env: Env, s: State, files: Files) {
    && EfsComplete(env, s, files)
    && GetFsType(s.persist.cache) != F2fs
    && GetFsType(s.persist.durable) != F2fs
  }

  ghost predicate Phase(env: Env, s: State, files: Files) {
    match s.pc
    case Off =>
      && s.persist == Flushed(s.persist.cache)
      && s.efs == Flushed(s.efs.cache)
      && BootPhase(env, s.persist.cache, s.efs.cache, files)
    case Head =>
      || (s.fs == F2fs && Original(env, s, files))
      || (s.fs == Ext4 && Rebuilding(env, s, files))
    case Compare => s.fs == F2fs && Original(env, s, files) && EfsImage(s)
    case FormatPersist => s.fs == F2fs && Original(env, s, files) && EfsComplete(env, s, files)
    case CopyBack => s.fs == Ext4 && Rebuilding(env, s, files)
    case SyncAll => s.fs == Ext4 && Rebuilding(env, s, files)
    case Verify =>
      s.fs == Ext4 && Rebuilding(env, s, files) && s.persist.cache == s.persist.durable
    case ZeroEfs =>
      && env.promises.efsOrdered
      && s.fs == Ext4
      && Rebuilding(env, s, files)
      && s.persist.cache == s.persist.durable == s.efs.cache
    case Exited(AlreadyDone) => Complete(env, s, files)
    case Exited(Migrated) =>
      Complete(env, s, files) && GetFsType(s.efs.cache) != Ext4 && |s.efs.cache| == |s.persist.cache|
    case Exited(Uninitialized) => Stranded(env, s, files)
    case Exited(GaveUp) => Original(env, s, files) || Rebuilding(env, s, files)
    case _ => s.fs == F2fs && Original(env, s, files)
  }

  ghost predicate Inv(env: Env, setup: Setup, s: State, files: Files) {
    && Sizes(setup, s)
    && env.promises == setup.promises
    && Phase(env, s, files)
  }

  lemma InvGivesNoLoss(env: Env, setup: Setup, s: State, files: Files)
    requires Inv(env, setup, s, files)
    ensures NoLoss(env, s, files)
  {
  }

  lemma CopyBackKeepsInv(env: Env, setup: Setup, s: State, t: State, files: Files)
    requires s.pc == CopyBack && Inv(env, setup, s, files) && Command(env, s, t)
    ensures Inv(env, setup, t, files)
  {
    var k: nat :| k <= |s.efs.cache| && k <= |s.persist.cache| &&
      t.persist == s.persist.(cache := Copied(s.efs.cache, s.persist.cache, k));
    CopiedType(s.efs.cache, s.persist.cache, k);
  }

  lemma ZeroEfsKeepsInv(env: Env, setup: Setup, s: State, t: State, files: Files)
    requires Safe(setup) && s.pc == ZeroEfs && Inv(env, setup, s, files) && Command(env, s, t)
    ensures Inv(env, setup, t, files)
  {
    forall k: nat | k <= |s.efs.cache| { ZeroedHasNoMagic(s.efs.cache, k); }
  }

  lemma FormatPersistKeepsInv(env: Env, setup: Setup, s: State, t: State, files: Files)
    requires Safe(setup) && s.pc == FormatPersist && Inv(env, setup, s, files) && Command(env, s, t)
    ensures Inv(env, setup, t, files)
  {
  }

  lemma DecideKeepsInv(env: Env, setup: Setup, s: State, t: State, files: Files)
    requires s.pc == Off && Inv(env, setup, s, files) && Command(env, s, t)
    ensures Inv(env, setup, t, files)
  {
  }

  lemma HeadKeepsInv(env: Env, setup: Setup, s: State, t: State, files: Files)
    requires s.pc == Head && Inv(env, setup, s, files) && Command(env, s, t)
    ensures Inv(env, setup, t, files)
  {
  }

  // Formatting efs and mounting both devices: persist keeps its files.
  lemma MountKeepsInv(env: Env, setup: Setup, s: State, t: State, files: Files)
    requires s.pc in {FormatEfs, MkdirOld, MkdirNew, MountPersist, MountEfs}
    requires Inv(env, setup, s, files) && Command(env, s, t)
    ensures Inv(env, setup, t, files)
  {
  }

  lemma CopyFilesKeepsInv(env: Env, setup: Setup, s: State, t: State, files: Files)
    requires s.pc == CopyFiles && Inv(env, setup, s, files) && Command(env, s, t)
    ensures Inv(env, setup, t, files)
  {
  }

  lemma CompareKeepsInv(env: Env, setup: Setup, s: State, t: State, files: Files)
    requires s.pc == Compare && Inv(env, setup, s, files) && Command(env, s, t)
    ensures Inv(env, setup, t, files)
  {
  }

  // From the sync on, persist equals what efs is checked to be.
  lemma CheckKeepsInv(env: Env, setup: Setup, s: State, t: State, files: Files)
    requires Safe(setup) && s.pc in {SyncAll, Verify} && Inv(env, setup, s, files) && Command(env, s, t)
    ensures Inv(env, setup, t, files)
  {
  }

  lemma CommandKeepsInv(env: Env, setup: Setup, s: State, t: State, files: Files)
    requires Safe(setup) && Inv(env, setup, s, files) && Command(env, s, t)
    ensures Inv(env, setup, t, files)
  {
    if s.pc == Off {
      DecideKeepsInv(env, setup, s, t, files);
    } else if s.pc == Head {
      HeadKeepsInv(env, setup, s, t, files);
    } else if s.pc == CopyFiles {
      CopyFilesKeepsInv(env, setup, s, t, files);
    } else if s.pc == Compare {
      CompareKeepsInv(env, setup, s, t, files);
    } else if s.pc == FormatPersist {
      FormatPersistKeepsInv(env, setup, s, t, files);
    } else if s.pc == CopyBack {
      CopyBackKeepsInv(env, setup, s, t, files);
    } else if s.pc == ZeroEfs {
      ZeroEfsKeepsInv(env, setup, s, t, files);
    } else if s.pc == SyncAll || s.pc == Verify {
      CheckKeepsInv(env, setup, s, t, files);
    } else {
      MountKeepsInv(env, setup, s, t, files);
    }
  }

  // A device without unsynced blocks stays as it is.
  lemma WritebackFacts(env: Env, s: State, t: State)
    requires Writeback(env, s, t)
    ensures s.persist.cache == s.persist.durable ==> t.persist == s.persist
    ensures s.efs.cache == s.efs.durable ==> t.efs == s.efs
  {
    SurvivorFacts(false, s.persist, t.persist.durable);
    SurvivorFacts(env.promises.efsOrdered, s.efs, t.efs.durable);
  }

  lemma WritebackKeepsRebuilding(env: Env, s: State, t: State, files: Files)
    requires Writeback(env, s, t) && Rebuilding(env, s, files)
    ensures Rebuilding(env, t, files)
  {
    WritebackFacts(env, s, t);
    SurvivorFacts(false, s.persist, t.persist.durable);
  }

  lemma WritebackKeepsStranded(env: Env, s: State, t: State, files: Files)
    requires Writeback(env, s, t) && Stranded(env, s, files)
    ensures Stranded(env, t, files)
  {
    WritebackFacts(env, s, t);
    SurvivorFacts(false, s.persist, t.persist.durable);
  }

  lemma WritebackKeepsComplete(env: Env, s: State, t: State, files: Files)
    requires Writeback(env, s, t) && Complete(env, s, files)
    ensures Complete(env, t, files)
  {
    WritebackFacts(env, s, t);
    SurvivorFacts(env.promises.efsOrdered, s.efs, t.efs.durable);
  }

  lemma WritebackKeepsInv(env: Env, setup: Setup, s: State, t: State, files: Files)
    requires Inv(env, setup, s, files) && Writeback(env, s, t)
    ensures Inv(env, setup, t, files)
  {
    WritebackFacts(env, s, t);
    if s.persist == t.persist && s.efs == t.efs {
      assert s == t;
    } else if s.pc == Exited(Uninitialized) {
      WritebackKeepsStranded(env, s, t, files);
    } else if s.pc == Exited(AlreadyDone) || s.pc == Exited(Migrated) {
      WritebackKeepsComplete(env, s, t, files);
    } else if Original(env, s, files) {
      assert Original(env, t, files);
    } else {
      WritebackKeepsRebuilding(env, s, t, files);
    }
  }

  // What a boot can find, phase by phase.
  ghost predicate BootPhase(env: Env, p: Device, e: Device, files: Files) {
    || HoldsF2fs(env, p, files)
    || (HoldsExt4(env, e, files) && GetFsType(p) != F2fs)
    || (env.promises.efsOrdered && HoldsExt4(env, p, files) && (e == p || GetFsType(e) != Ext4))
  }

  lemma CutWhileOriginal(env: Env, s: State, p: Device, e: Device, files: Files)
    requires Original(env, s, files) && Cut(env, s, p, e)
    requires s.pc !in {FormatPersist, CopyBack, ZeroEfs}
    ensures HoldsF2fs(env, p, files)
  {
    if Survives(false, s.persist, p) { SurvivorFacts(false, s.persist, p); }
  }

  lemma CutWhileRebuilding(env: Env, s: State, p: Device, e: Device, files: Files)
    requires Rebuilding(env, s, files) && Cut(env, s, p, e)
    requires s.pc in {Head, CopyBack, SyncAll, Verify} || s.pc.Exited?
    ensures HoldsExt4(env, e, files) && GetFsType(p) != F2fs
  {
    SurvivorFacts(env.promises.efsOrdered, s.efs, e);
    if s.pc == CopyBack {
      var k: nat :| k <= |s.efs.cache| && k <= |s.persist.cache| &&
        Torn(false, s.persist.durable, Copied(s.efs.cache, s.persist.cache, k), p);
      CopiedType(s.efs.cache, s.persist.cache, k);
      TornType(false, s.persist.durable, Copied(s.efs.cache, s.persist.cache, k), p);
    } else {
      SurvivorFacts(false, s.persist, p);
    }
  }

  lemma CutWhileZeroing(env: Env, s: State, p: Device, e: Device, files: Files)
    requires s.pc == ZeroEfs && env.promises.efsOrdered && Rebuilding(env, s, files) && Cut(env, s, p, e)
    requires s.persist.cache == s.persist.durable == s.efs.cache
    ensures HoldsExt4(env, p, files) && (e == p || GetFsType(e) != Ext4)
  {
    SurvivorFacts(false, s.persist, p);
    var k: nat :| k <= |s.efs.cache| && k <= ZERO_BLOCKS &&
      Torn(env.promises.efsOrdered, s.efs.durable, Zeroed(s.efs.cache, k), e);
    ZeroedHasNoMagic(s.efs.cache, k);
    TornType(env.promises.efsOrdered, s.efs.durable, Zeroed(s.efs.cache, k), e);
  }

  lemma CutWhenIdle(env: Env, s: State, p: Device, e: Device, files: Files)
    requires Stranded(env, s, files) || Complete(env, s, files)
    requires Survives(false, s.persist, p) && Survives(env.promises.efsOrdered, s.efs, e)
    ensures BootPhase(env, p, e, files)
  {
    SurvivorFacts(false, s.persist, p);
    SurvivorFacts(env.promises.efsOrdered, s.efs, e);
  }

  lemma CutWhileFormatting(env: Env, s: State, p: Device, e: Device, files: Files)
    requires s.pc == FormatPersist && env.promises.formatCutClean && Cut(env, s, p, e)
    requires Original(env, s, files) && EfsComplete(env, s, files)
    ensures BootPhase(env, p, e, files)
  {
    SurvivorFacts(env.promises.efsOrdered, s.efs, e);
    if Survives(false, s.persist, p) { SurvivorFacts(false, s.persist, p); }
  }

  lemma CutFindsPhase(env: Env, s: State, p: Device, e: Device, files: Files)
    requires env.promises.formatCutClean && Phase(env, s, files) && Cut(env, s, p, e)
    ensures BootPhase(env, p, e, files)
  {
    if s.pc == FormatPersist {
      CutWhileFormatting(env, s, p, e, files);
    } else if s.pc == Off {
      SurvivorFacts(false, s.persist, p);
      SurvivorFacts(env.promises.efsOrdered, s.efs, e);
    } else if Original(env, s, files) {
      CutWhileOriginal(env, s, p, e, files);
    } else if s.pc == ZeroEfs {
      CutWhileZeroing(env, s, p, e, files);
    } else if Rebuilding(env, s, files) {
      CutWhileRebuilding(env, s, p, e, files);
    } else {
      CutWhenIdle(env, s, p, e, files);
    }
  }

  lemma PowerCutKeepsInv(env: Env, setup: Setup, s: State, t: State, files: Files)
    requires Safe(setup) && Inv(env, setup, s, files) && PowerCut(env, s, t)
    ensures Inv(env, setup, t, files)
  {
    CutFindsPhase(env, s, t.persist.cache, t.efs.cache, files);
  }

  lemma NextKeepsInv(env: Env, setup: Setup, s: State, t: State, files: Files)
    requires Safe(setup) && Inv(env, setup, s, files) && Next(env, s, t)
    ensures Inv(env, setup, t, files)
  {
    if Command(env, s, t) {
      CommandKeepsInv(env, setup, s, t, files);
    } else if Writeback(env, s, t) {
      WritebackKeepsInv(env, setup, s, t, files);
    } else {
      PowerCutKeepsInv(env, setup, s, t, files);
    }
  }

  lemma {:induction false} ReachesFrom(env: Env, setup: Setup, files: Files, tr: seq<State>, i: nat)
    requires Safe(setup) && Run(env, tr) && Inv(env, setup, tr[0], files) && i < |tr|
    ensures Inv(env, setup, tr[i], files)
  {
    if i == 0 {
    } else {
      ReachesFrom(env, setup, files, tr, i - 1);
      assert StepAt(env, tr, i - 1);
      NextKeepsInv(env, setup, tr[i - 1], tr[i], files);
    }
  }

  lemma Reaches(env: Env, setup: Setup, files: Files, tr: seq<State>, i: nat)
    requires Safe(setup) && Execution(env, setup, files, tr) && i < |tr|
    ensures Inv(env, setup, tr[i], files)
  {
    ReachesFrom(env, setup, files, tr, i);
  }
}
