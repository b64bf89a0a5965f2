/** Block devices as the migration script sees them: raw blocks, the two superblock
    magics that `get_fs_type` reads, and what a power cut can leave of unsynced writes. */
module Flash {

  newtype byte = x: int | 0 <= x < 256

  const BLOCK_SIZE: nat := 4096

  type Block = b: seq<byte> | |b| == BLOCK_SIZE witness seq(BLOCK_SIZE, _ => 0)
  type Device = seq<Block>

  // Regular files only: path (as `find . -type f` lists it) to contents.
  type Files = map<string, seq<byte>>

  datatype FsType = Ext4 | F2fs | Unknown

  const EXT4_MAGIC_AT: nat := 0x438
  const F2FS_MAGIC_AT: nat := 0x400

  predicate HasExt4Magic(b: Block) {
    b[EXT4_MAGIC_AT] == 0x53 && b[EXT4_MAGIC_AT + 1] == 0xEF
  }

  predicate HasF2fsMagic(b: Block) {
    && b[F2FS_MAGIC_AT] == 0x10 && b[F2FS_MAGIC_AT + 1] == 0x20
    && b[F2FS_MAGIC_AT + 2] == 0xF5 && b[F2FS_MAGIC_AT + 3] == 0xF2
  }

  // The ext4 magic is looked at first; a device too short to read has neither magic.
  function GetFsType(d: Device): FsType {
    if |d| == 0 then Unknown
    else if HasExt4Magic(d[0]) then Ext4
    else if HasF2fsMagic(d[0]) then F2fs
    else Unknown
  }

  // The type by the bytes: ext4 first, whatever else the block holds.
  lemma TypeIsExact(d: Device)
    ensures GetFsType(d) == Ext4 <==> |d| > 0 && d[0][0x438..0x43A] == [0x53, 0xEF]
    ensures GetFsType(d) == F2fs <==>
              |d| > 0 && d[0][0x438..0x43A] != [0x53, 0xEF] && d[0][0x400..0x404] == [0x10, 0x20, 0xF5, 0xF2]
  {
    if |d| > 0 {
      var b := d[0];
      assert b[0x438..0x43A] == [b[0x438], b[0x439]];
      assert b[0x400..0x404] == [b[0x400], b[0x401], b[0x402], b[0x403]];
    }
  }

  lemma CopiedType(from: Device, to: Device, k: nat)
    requires k <= |from| && k <= |to|
    ensures |Copied(from, to, k)| == |to|
    ensures GetFsType(Copied(from, to, k)) == if k == 0 then GetFsType(to) else GetFsType(from)
  {
    if k > 0 { assert Copied(from, to, k)[0] == from[0]; }
  }

  const ZERO_BLOCK: Block := seq(BLOCK_SIZE, _ => 0)

  // What `dd` leaves on the target after writing its first k blocks.
  function Copied(from: Device, to: Device, k: nat): (d: Device)
    requires k <= |from| && k <= |to|
  {
    from[..k] + to[k..]
  }

  function Zeros(n: nat): Device {
    seq(n, _ => ZERO_BLOCK)
  }

  function Zeroed(d: Device, k: nat): (r: Device)
    requires k <= |d|
  {
    Copied(Zeros(k), d, k)
  }

  // Block by block.
  lemma CopiedBlocks(from: Device, to: Device, k: nat, i: nat)
    requires k <= |from| && k <= |to| && i < |to|
    ensures Copied(from, to, k)[i] == if i < k then from[i] else to[i]
  {
  }

  lemma ZeroedBlocks(d: Device, k: nat, i: nat, j: nat)
    requires k <= |d| && i < |d| && j < 4096
    ensures Zeroed(d, k)[i][j] == if i < k then 0 else d[i][j]
  {
  }

  lemma ZeroedHasNoMagic(d: Device, k: nat)
    requires k <= |d|
    ensures |Zeroed(d, k)| == |d|
    ensures k == 0 ==> Zeroed(d, k) == d
    ensures k > 0 ==> Zeroed(d, k)[0] == ZERO_BLOCK && GetFsType(Zeroed(d, k)) == Unknown
  {
  }

  /** `cache` is what reads see, `durable` what survives a power cut. */
  datatype Disk = Disk(cache: Device, durable: Device)

  function Flushed(d: Device): Disk {
    Disk(d, d)
  }

  // A partly written-back device: any mix of old and new blocks.  On an ordered one, block 0
  // is the first of the changed blocks to arrive.
  ghost predicate Torn(ordered: bool, before: Device, after: Device, mid: Device) {
    && |before| == |after| == |mid|
    && (forall i :: 0 <= i < |mid| ==> mid[i] == before[i] || mid[i] == after[i])
    && (ordered ==> mid == before || mid[0] == after[0])
  }

  ghost predicate Survives(ordered: bool, disk: Disk, d: Device) {
    Torn(ordered, disk.durable, disk.cache, d)
  }

  // The type of a torn device is the type of the old or of the new contents.
  lemma TornType(ordered: bool, before: Device, after: Device, mid: Device)
    requires Torn(ordered, before, after, mid)
    ensures GetFsType(mid) == GetFsType(before) || GetFsType(mid) == GetFsType(after)
    ensures ordered ==> mid == before || GetFsType(mid) == GetFsType(after)
  {
  }

  lemma SurvivorFacts(ordered: bool, disk: Disk, d: Device)
    requires Survives(ordered, disk, d)
    ensures |d| == |disk.cache|
    ensures GetFsType(d) == GetFsType(disk.durable) || GetFsType(d) == GetFsType(disk.cache)
    ensures ordered ==> d == disk.durable || GetFsType(d) == GetFsType(disk.cache)
    ensures disk.cache == disk.durable ==> d == disk.cache
  {
    if disk.cache == disk.durable {
      assert d == disk.cache;
    }
  }
}
