/** The converse of `MigrationSafety.FilesSurvive`: whenever the setup is not `Safe`, some run loses the files. */
module MigrationLoss {
  import opened Flash
  import opened Migration
  import opened MigrationSafety
  import opened MigrationFinish

  const FILES: Files := map["./serial" := [7]]

  function Superblock(fs: FsType, tag: byte): Block {
    seq(BLOCK_SIZE, i =>
      if i == 0 then tag
      else if fs == Ext4 && i == EXT4_MAGIC_AT then 0x53
      else if fs == Ext4 && i == EXT4_MAGIC_AT + 1 then 0xEF
      else if fs == F2fs && i == F2FS_MAGIC_AT then 0x10
      else if fs == F2fs && i == F2FS_MAGIC_AT + 1 then 0x20
      else if fs == F2fs && i == F2FS_MAGIC_AT + 2 then 0xF5
      else if fs == F2fs && i == F2FS_MAGIC_AT + 3 then 0xF2
      else 0)
  }

  // An image of n blocks of the given type, none of them zero; different tags make different images.
  function Image(n: nat, fs: FsType, tag: byte): (d: Device)
    requires n > 0
    ensures |d| == n && GetFsType(d) == fs
    ensures forall i :: 0 <= i < n ==> d[i][0] == tag
  {
    var b: seq<byte> := Superblock(fs, tag);
    assert b[EXT4_MAGIC_AT] == if fs == Ext4 then 0x53 else 0;
    assert b[F2FS_MAGIC_AT] == if fs == F2fs then 0x10 else 0;
    seq(n, _ => Superblock(fs, tag))
  }

  function Blank(n: nat): Device requires n > 0 { Image(n, Ext4, 0) }
  function Full(n: nat): Device requires n > 0 { Image(n, Ext4, 1) }
  function Old(n: nat): Device requires n > 0 { Image(n, F2fs, 1) }

  predicate Present(setup: Setup) {
    setup.persistBlocks > 0 && setup.efsBlocks > 0
  }

  ghost function LossEnv(setup: Setup): Env
    requires Present(setup)
  {
    Env(map[Blank(setup.efsBlocks) := map[], Full(setup.efsBlocks) := FILES],
        map[Old(setup.persistBlocks) := FILES],
        setup.promises)
  }

  // No device holds the files in either form, neither cached nor durably.
  ghost predicate GoneForGood(env: Env, s: State, files: Files) {
    forall d | d in {s.persist.cache, s.persist.durable, s.efs.cache, s.efs.durable} ::
      !HoldsF2fs(env, d, files) && !HoldsExt4(env, d, files)
  }

  lemma OnlyCopies(setup: Setup, d: Device)
    requires Present(setup)
    ensures HoldsExt4(LossEnv(setup), d, FILES) ==> d == Full(setup.efsBlocks)
    ensures HoldsF2fs(LossEnv(setup), d, FILES) ==> d == Old(setup.persistBlocks)
  {
    assert "./serial" in FILES;
  }

  // Without failures so far: efs is filled and verified.
  lemma FillEfs(setup: Setup) returns (tr: seq<State>)
    requires Present(setup)
    ensures Execution(LossEnv(setup), setup, FILES, tr)
    ensures tr[|tr| - 1] ==
      State(FormatPersist, 9, F2fs, Flushed(Old(setup.persistBlocks)), Flushed(Full(setup.efsBlocks)))
  {
    tr := [State(Off, 0, Unknown, Flushed(Old(setup.persistBlocks)), Flushed(Blank(setup.efsBlocks)))];
    tr := FillFrom(LossEnv(setup), tr, FILES, Blank(setup.efsBlocks), Full(setup.efsBlocks));
  }

  // Another round, with nothing on persist: efs is formatted.
  lemma FormatEfsLoses(setup: Setup, tr: seq<State>) returns (longer: seq<State>)
    requires Present(setup) && Execution(LossEnv(setup), setup, FILES, tr)
    requires var s := tr[|tr| - 1];
             && s.pc == FormatEfs && s.persist == Flushed(s.persist.cache) && |s.efs.cache| == setup.efsBlocks
             && s.persist.cache !in {Old(setup.persistBlocks), Full(setup.efsBlocks)}
    ensures Execution(LossEnv(setup), setup, FILES, longer)
    ensures GoneForGood(LossEnv(setup), longer[|longer| - 1], FILES)
  {
    var blank := Blank(setup.efsBlocks);
    var s := tr[|tr| - 1].(pc := MkdirOld, efs := Flushed(blank));
    longer := Extend(LossEnv(setup), tr, s);
    OnlyCopies(setup, s.persist.cache);
    OnlyCopies(setup, blank);
    assert blank[0][0] != Full(setup.efsBlocks)[0][0];
  }

  // Another copy, with a damaged efs.
  lemma CopyLoses(setup: Setup, tr: seq<State>) returns (longer: seq<State>)
    requires Present(setup) && Execution(LossEnv(setup), setup, FILES, tr)
    requires var s := tr[|tr| - 1];
             && s.pc == CopyBack && |s.persist.cache| == |s.efs.cache|
             && s.efs.cache !in {Old(setup.persistBlocks), Full(setup.efsBlocks)}
    ensures Execution(LossEnv(setup), setup, FILES, longer)
    ensures GoneForGood(LossEnv(setup), longer[|longer| - 1], FILES)
  {
    longer := RebuildFrom(LossEnv(setup), tr);
    OnlyCopies(setup, tr[|tr| - 1].efs.cache);
  }

  // mke2fs damages persist and reports failure: the retry formats the only copy.
  lemma FailedFormatLoses(setup: Setup) returns (tr: seq<State>)
    requires Present(setup) && !setup.promises.formatAtomic
    ensures Execution(LossEnv(setup), setup, FILES, tr)
    ensures GoneForGood(LossEnv(setup), tr[|tr| - 1], FILES)
  {
    var env, damaged := LossEnv(setup), Zeros(setup.persistBlocks);
    assert damaged[0][0] == 0;
    tr := FillEfs(setup);
    var s := tr[|tr| - 1].(pc := Head, persist := Flushed(damaged));
    tr := Extend(env, tr, s);
    s := s.(pc := FormatEfs, retries := 8);
    tr := Extend(env, tr, s);
    tr := FormatEfsLoses(setup, tr);
  }

  // From there to the zeroing, still without failures.
  lemma CopyToPersist(setup: Setup, filled: seq<State>) returns (tr: seq<State>)
    requires Present(setup) && setup.persistBlocks == setup.efsBlocks
    requires Execution(LossEnv(setup), setup, FILES, filled)
    requires filled[|filled| - 1] ==
      State(FormatPersist, 9, F2fs, Flushed(Old(setup.persistBlocks)), Flushed(Full(setup.efsBlocks)))
    ensures Execution(LossEnv(setup), setup, FILES, tr)
    ensures tr[|tr| - 1] == State(ZeroEfs, 9, Ext4, Flushed(Full(setup.efsBlocks)), Flushed(Full(setup.efsBlocks)))
  {
    var s := filled[|filled| - 1].(pc := CopyBack, fs := Ext4, persist := Flushed(Blank(setup.efsBlocks)));
    tr := Extend(LossEnv(setup), filled, s);
    tr := RebuildFrom(LossEnv(setup), tr);
  }

  // The guarantees are not vacuous: with room for the zeroing, a run reaches the success message.
  lemma SuccessIsReachable(setup: Setup) returns (tr: seq<State>)
    requires Present(setup) && setup.persistBlocks == setup.efsBlocks >= ZERO_BLOCKS
    ensures Execution(LossEnv(setup), setup, FILES, tr)
    ensures var full := Full(setup.efsBlocks);
            tr[|tr| - 1] == State(Exited(Migrated), 9, Ext4, Flushed(full), Disk(Zeroed(full, ZERO_BLOCKS), full))
  {
    tr := FillEfs(setup);
    tr := CopyToPersist(setup, tr);
    tr := EraseFrom(LossEnv(setup), tr);
  }

  // The zeroing is lost with the power: the boot after a success finds efs whole, and does the
  // last step again.
  lemma RedoIsReachable(setup: Setup) returns (tr: seq<State>, k: nat)
    requires Present(setup) && setup.persistBlocks == setup.efsBlocks >= ZERO_BLOCKS
    ensures Execution(LossEnv(setup), setup, FILES, tr) && k + 1 < |tr|
    ensures tr[k].pc == Exited(Migrated) && tr[k + 1].pc == Off
    ensures tr[|tr| - 1].pc == Exited(Migrated)
    ensures tr[|tr| - 1].efs.cache != tr[k + 1].efs.cache
  {
    tr := SuccessIsReachable(setup);
    k := |tr| - 1;
    var s := tr[k].(pc := Off, efs := Flushed(Full(setup.efsBlocks)));
    tr := Extend(LossEnv(setup), tr, s);
    tr := Redo(LossEnv(setup), tr);
  }

  // A power cut in the middle of formatting persist can leave it without a magic: the files
  // are then safe on efs, but by `MigrationSafety.ExitsForever` no later boot moves them.
  lemma StrandingIsReachable(setup: Setup) returns (tr: seq<State>)
    requires Present(setup)
    ensures Execution(LossEnv(setup), setup, FILES, tr)
    ensures var s := tr[|tr| - 1];
            s.pc == Off && GetFsType(s.persist.cache) == Unknown && OnExt4(LossEnv(setup), s.efs, FILES)
  {
    tr := FillEfs(setup);
    var s := tr[|tr| - 1].(pc := Off, persist := Flushed(Zeros(setup.persistBlocks)));
    tr := Extend(LossEnv(setup), tr, s);
  }

  // Zeroing reports failure after erasing something: the retry copies the erased efs.
  lemma FailedZeroingLoses(setup: Setup) returns (tr: seq<State>)
    requires Present(setup) && setup.persistBlocks == setup.efsBlocks
    requires !setup.promises.zeroAtomic || setup.efsBlocks < ZERO_BLOCKS
    ensures Execution(LossEnv(setup), setup, FILES, tr)
    ensures GoneForGood(LossEnv(setup), tr[|tr| - 1], FILES)
  {
    tr := FillEfs(setup);
    tr := CopyToPersist(setup, tr);
    var env, n := LossEnv(setup), setup.efsBlocks;
    var k := if n < ZERO_BLOCKS then n else 1;
    var damaged := Zeroed(Full(n), k);
    ZeroedHasNoMagic(Full(n), k);
    var s := tr[|tr| - 1].(pc := Head, efs := Disk(damaged, Full(n)));
    tr := Extend(env, tr, s);
    s := s.(pc := CopyBack, retries := 8);
    tr := Extend(env, tr, s);
    tr := CopyLoses(setup, tr);
  }

  // A power cut during the format of persist spoils it but spares the f2fs magic: the next boot
  // takes it for the original, and formats efs.
  lemma CutFormatLoses(setup: Setup) returns (tr: seq<State>)
    requires Present(setup) && !setup.promises.formatCutClean
    ensures Execution(LossEnv(setup), setup, FILES, tr)
    ensures GoneForGood(LossEnv(setup), tr[|tr| - 1], FILES)
  {
    var env, spoilt := LossEnv(setup), Image(setup.persistBlocks, F2fs, 2);
    assert spoilt[0][0] == 2;
    tr := FillEfs(setup);
    var s := tr[|tr| - 1].(pc := Off, persist := Flushed(spoilt));
    tr := Extend(env, tr, s);
    s := s.(pc := Head, retries := 10);
    tr := Extend(env, tr, s);
    s := s.(pc := FormatEfs, retries := 9);
    tr := Extend(env, tr, s);
    tr := FormatEfsLoses(setup, tr);
  }

  // A zeroed block reaches efs before block 0 does, and the power fails: the next boot copies
  // the damaged efs over persist.
  lemma UnorderedWritebackLoses(setup: Setup) returns (tr: seq<State>)
    requires Present(setup) && setup.persistBlocks == setup.efsBlocks >= ZERO_BLOCKS
    requires !setup.promises.efsOrdered
    ensures Execution(LossEnv(setup), setup, FILES, tr)
    ensures GoneForGood(LossEnv(setup), tr[|tr| - 1], FILES)
  {
    var env, n := LossEnv(setup), setup.efsBlocks;
    var damaged: Device := Full(n)[1 := ZERO_BLOCK];
    assert damaged[1][0] != Full(n)[1][0];
    assert damaged[0] == Full(n)[0];
    tr := SuccessIsReachable(setup);
    var s := tr[|tr| - 1].(pc := Off, efs := Flushed(damaged));
    tr := Extend(env, tr, s);
    s := s.(pc := Head, retries := 10);
    tr := Extend(env, tr, s);
    s := s.(pc := CopyBack, retries := 9);
    tr := Extend(env, tr, s);
    tr := CopyLoses(setup, tr);
  }

  ghost predicate NeverLoses(setup: Setup) {
    forall env: Env, files: Files, tr: seq<State> | Execution(env, setup, files, tr) ::
      NoLoss(env, tr[|tr| - 1], files)
  }

  lemma SafeExactly(setup: Setup)
    requires Present(setup)
    ensures NeverLoses(setup) <==> Safe(setup)
  {
    if Safe(setup) {
      forall env: Env, files: Files, tr: seq<State> | Execution(env, setup, files, tr)
        ensures NoLoss(env, tr[|tr| - 1], files)
      {
        FilesSurvive(env, setup, files, tr, |tr| - 1);
      }
    } else if !setup.promises.formatAtomic {
      var tr := FailedFormatLoses(setup);
    } else if !setup.promises.formatCutClean {
      var tr := CutFormatLoses(setup);
    } else if !setup.promises.zeroAtomic || setup.efsBlocks < ZERO_BLOCKS {
      var tr := FailedZeroingLoses(setup);
    } else {
      var tr := UnorderedWritebackLoses(setup);
    }
  }
}
