/** Where the migration can still go from a boot: when it is over for good, and when it can
    still be finished. */
module MigrationFinish {
  import opened Flash
  import opened Migration
  import opened MigrationSafety

  ghost predicate RunFrom(env: Env, s: State, run: seq<State>) {
    Run(env, run) && run[0] == s
  }

  ghost predicate SameDevices(s: State, t: State) {
    s.persist == t.persist && s.efs == t.efs
  }

  // However the run goes on, neither device ever changes.
  ghost predicate Settled(env: Env, s: State) {
    forall run, i | RunFrom(env, s, run) && 0 <= i < |run| :: SameDevices(s, run[i])
  }

  // Some way of going on ends in success.
  ghost predicate CanFinish(env: Env, s: State) {
    exists run: seq<State> :: RunFrom(env, s, run) && run[|run| - 1].pc == Exited(Migrated)
  }

  // An ext4 image of the size of efs can be made, and one has room for the files.
  ghost predicate FilesFit(env: Env, setup: Setup, files: Files) {
    && (exists d: Device :: |d| == setup.efsBlocks && HoldsExt4(env, d, map[]))
    && (exists d: Device :: |d| == setup.efsBlocks && HoldsExt4(env, d, files))
  }

  // ---- Runs without failures, from any boot ----

  // From an original persist: efs is formatted, which leaves it blank, and both are mounted.
  lemma MountFrom(env: Env, tr: seq<State>, files: Files, blank: Device) returns (longer: seq<State>)
    requires Run(env, tr) && tr[|tr| - 1].pc == Off
    requires tr[|tr| - 1].persist == Flushed(tr[|tr| - 1].persist.cache)
    requires HoldsF2fs(env, tr[|tr| - 1].persist.cache, files)
    requires HoldsExt4(env, blank, map[]) && |blank| == |tr[|tr| - 1].efs.cache|
    ensures Run(env, longer) && tr <= longer
    ensures longer[|longer| - 1] == State(CopyFiles, 9, F2fs, tr[|tr| - 1].persist, Flushed(blank))
  {
    var s := tr[|tr| - 1];
    s := s.(pc := Head, fs := F2fs, retries := 10);
    longer := Extend(env, tr, s);
    s := s.(pc := FormatEfs, retries := 9);
    longer := Extend(env, longer, s);
    s := s.(pc := MkdirOld, efs := Flushed(blank));
    longer := Extend(env, longer, s);
    s := s.(pc := MkdirNew);
    longer := Extend(env, longer, s);
    s := s.(pc := MountPersist);
    longer := Extend(env, longer, s);
    s := s.(pc := MountEfs);
    longer := Extend(env, longer, s);
    s := s.(pc := CopyFiles);
    longer := Extend(env, longer, s);
  }

  // And filled, with the image d, and verified.
  lemma FillFrom(env: Env, tr: seq<State>, files: Files, blank: Device, d: Device) returns (longer: seq<State>)
    requires Run(env, tr) && tr[|tr| - 1].pc == Off
    requires tr[|tr| - 1].persist == Flushed(tr[|tr| - 1].persist.cache)
    requires HoldsF2fs(env, tr[|tr| - 1].persist.cache, files)
    requires HoldsExt4(env, blank, map[]) && |blank| == |tr[|tr| - 1].efs.cache|
    requires HoldsExt4(env, d, files) && |d| == |tr[|tr| - 1].efs.cache|
    ensures Run(env, longer) && tr <= longer
    ensures longer[|longer| - 1] == State(FormatPersist, 9, F2fs, tr[|tr| - 1].persist, Flushed(d))
  {
    longer := MountFrom(env, tr, files, blank);
    var s := longer[|longer| - 1].(pc := Compare, efs := Flushed(d));
    longer := Extend(env, longer, s);
    s := s.(pc := FormatPersist);
    longer := Extend(env, longer, s);
  }

  // From the copy on: persist becomes what efs reads as, and is verified.
  lemma RebuildFrom(env: Env, tr: seq<State>) returns (longer: seq<State>)
    requires Run(env, tr) && tr[|tr| - 1].pc == CopyBack
    requires |tr[|tr| - 1].persist.cache| == |tr[|tr| - 1].efs.cache|
    ensures Run(env, longer) && tr <= longer
    ensures var d := tr[|tr| - 1].efs.cache;
            longer[|longer| - 1] == tr[|tr| - 1].(pc := ZeroEfs, persist := Flushed(d), efs := Flushed(d))
  {
    var s := tr[|tr| - 1];
    var d := s.efs.cache;
    assert Copied(d, s.persist.cache, |d|) == d;
    s := s.(pc := SyncAll, persist := s.persist.(cache := d));
    longer := Extend(env, tr, s);
    s := s.(pc := Verify, persist := Flushed(d), efs := Flushed(d));
    longer := Extend(env, longer, s);
    s := s.(pc := ZeroEfs);
    longer := Extend(env, longer, s);
  }

  lemma EraseFrom(env: Env, tr: seq<State>) returns (longer: seq<State>)
    requires Run(env, tr) && tr[|tr| - 1].pc == ZeroEfs
    requires |tr[|tr| - 1].efs.cache| >= ZERO_BLOCKS
    ensures Run(env, longer) && tr <= longer
    ensures var s := tr[|tr| - 1];
            longer[|longer| - 1] ==
              s.(pc := Exited(Migrated), efs := s.efs.(cache := Zeroed(s.efs.cache, ZERO_BLOCKS)))
    ensures GetFsType(longer[|longer| - 1].efs.cache) == Unknown
  {
    var s := tr[|tr| - 1];
    ZeroedHasNoMagic(s.efs.cache, ZERO_BLOCKS);
    longer := Extend(env, tr, s.(pc := Exited(Migrated), efs := s.efs.(cache := Zeroed(s.efs.cache, ZERO_BLOCKS))));
  }

  // With both devices ext4, the boot goes straight to the copy.
  lemma Redo(env: Env, tr: seq<State>) returns (longer: seq<State>)
    requires Run(env, tr) && tr[|tr| - 1].pc == Off
    requires tr[|tr| - 1].efs == Flushed(tr[|tr| - 1].efs.cache)
    requires |tr[|tr| - 1].persist.cache| == |tr[|tr| - 1].efs.cache| >= ZERO_BLOCKS
    requires GetFsType(tr[|tr| - 1].persist.cache) == GetFsType(tr[|tr| - 1].efs.cache) == Ext4
    ensures Run(env, longer) && tr <= longer
    ensures longer[|longer| - 1].pc == Exited(Migrated)
    ensures longer[|longer| - 1].persist == tr[|tr| - 1].efs
    ensures GetFsType(longer[|longer| - 1].efs.cache) == Unknown
  {
    var s := tr[|tr| - 1].(pc := Head, fs := Ext4, retries := 10);
    longer := Extend(env, tr, s);
    s := s.(pc := CopyBack, retries := 9);
    longer := Extend(env, longer, s);
    longer := RebuildFrom(env, longer);
    longer := EraseFrom(env, longer);
  }

  // The whole way from an original persist.
  lemma Finish(env: Env, tr: seq<State>, files: Files, blank: Device, d: Device) returns (longer: seq<State>)
    requires Run(env, tr) && tr[|tr| - 1].pc == Off
    requires tr[|tr| - 1].persist == Flushed(tr[|tr| - 1].persist.cache)
    requires HoldsF2fs(env, tr[|tr| - 1].persist.cache, files)
    requires HoldsExt4(env, blank, map[]) && HoldsExt4(env, d, files)
    requires |blank| == |d| == |tr[|tr| - 1].efs.cache| == |tr[|tr| - 1].persist.cache| >= ZERO_BLOCKS
    ensures Run(env, longer) && tr <= longer
    ensures longer[|longer| - 1].pc == Exited(Migrated)
  {
    longer := FillFrom(env, tr, files, blank, d);
    longer := Extend(env, longer, longer[|longer| - 1].(pc := CopyBack, fs := Ext4, persist := Flushed(blank)));
    longer := RebuildFrom(env, longer);
    longer := EraseFrom(env, longer);
  }

  // ---- Main results ----

  // After a success, the next boot finds the migration settled exactly if efs has lost its magic.
  lemma SettledExactly(env: Env, setup: Setup, files: Files, tr: seq<State>, k: nat)
    requires Safe(setup) && Execution(env, setup, files, tr) && k + 1 < |tr|
    requires tr[k].pc == Exited(Migrated) && tr[k + 1].pc == Off
    ensures Settled(env, tr[k + 1]) <==> GetFsType(tr[k + 1].efs.cache) != Ext4
  {
    Reaches(env, setup, files, tr, k + 1);
    DoneStaysDone(env, setup, files, tr, k, k + 1);
    var s := tr[k + 1];
    if GetFsType(s.efs.cache) == Ext4 {
      var run := Redo(env, [s]);
      assert RunFrom(env, s, run);
      assert !SameDevices(s, run[|run| - 1]);
    } else {
      forall run, i | RunFrom(env, s, run) && 0 <= i < |run| ensures SameDevices(s, run[i]) {
        ExitsForever(env, run, 0, i);
      }
    }
  }

  lemma FinishNeedsTheLoop(env: Env, setup: Setup, files: Files, tr: seq<State>, i: nat)
    requires Safe(setup) && Execution(env, setup, files, tr) && i < |tr| && tr[i].pc == Off
    requires CanFinish(env, tr[i])
    ensures !Exits(tr[i].persist.cache, tr[i].efs.cache) && setup.persistBlocks == setup.efsBlocks
  {
    Reaches(env, setup, files, tr, i);
    var run: seq<State> :| RunFrom(env, tr[i], run) && run[|run| - 1].pc == Exited(Migrated);
    ReachesFrom(env, setup, files, run, |run| - 1);
    if Exits(tr[i].persist.cache, tr[i].efs.cache) {
      ExitsForever(env, run, 0, |run| - 1);
    }
  }

  lemma TheLoopCanFinish(env: Env, setup: Setup, files: Files, tr: seq<State>, i: nat)
    requires Safe(setup) && Execution(env, setup, files, tr) && i < |tr| && tr[i].pc == Off
    requires FilesFit(env, setup, files) && setup.persistBlocks == setup.efsBlocks
    requires !Exits(tr[i].persist.cache, tr[i].efs.cache)
    ensures CanFinish(env, tr[i])
  {
    Reaches(env, setup, files, tr, i);
    BootDecodesTheRightSource(env, setup, files, tr, i);
    var s := tr[i];
    var run;
    if GetFsType(s.persist.cache) == F2fs {
      var blank: Device :| |blank| == setup.efsBlocks && HoldsExt4(env, blank, map[]);
      var d: Device :| |d| == setup.efsBlocks && HoldsExt4(env, d, files);
      run := Finish(env, [s], files, blank, d);
    } else {
      run := Redo(env, [s]);
    }
    assert RunFrom(env, s, run);
  }

  // At every boot: the migration can still end in success exactly if the boot gets as far as the
  // loop, on partitions of one size.
  lemma FinishesExactly(env: Env, setup: Setup, files: Files, tr: seq<State>, i: nat)
    requires Safe(setup) && Execution(env, setup, files, tr) && i < |tr| && tr[i].pc == Off
    requires FilesFit(env, setup, files)
    ensures CanFinish(env, tr[i]) <==>
              !Exits(tr[i].persist.cache, tr[i].efs.cache) && setup.persistBlocks == setup.efsBlocks
  {
    if CanFinish(env, tr[i]) {
      FinishNeedsTheLoop(env, setup, files, tr, i);
    } else if !Exits(tr[i].persist.cache, tr[i].efs.cache) && setup.persistBlocks == setup.efsBlocks {
      TheLoopCanFinish(env, setup, files, tr, i);
    }
  }
}
