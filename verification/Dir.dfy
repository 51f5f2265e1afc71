/**
 Directories (fs/dir.c): 24-byte entries in the sectors of the direct blocks of an inode.

 The image of a directory is the sequence of its 12 * 21 slots.  Adding and deleting an entry are both
 updates of one slot of the image, also when a block is allocated or given back on the way.
 */
module Dir {
  import opened Sectors
  import opened Volume

  predicate Live(e: Entry) {
    e.ftype != FT_UNKNOWN
  }

  // ----- images

  function EmptyRow(): (es: seq<Entry>)
    ensures |es| == 21
  {
    seq(21, _ => NO_ENTRY)
  }

  /** The slots of the block at `lba`; a block that is not there has empty slots. */
  function Row(disk: Disk, lba: nat): (es: seq<Entry>)
    ensures |es| == 21
  {
    if lba == 0 then EmptyRow() else EntriesOf(Read(disk, lba))
  }

  /** All slots of a directory, block by block. */
  ghost function Image(disk: Disk, ino: Inode): (rows: seq<seq<Entry>>)
    requires |ino.sectors| == 13
    ensures |rows| == 12 && forall k :: 0 <= k < 12 ==> rows[k] == Row(disk, ino.sectors[k])
  {
    seq(12, k requires 0 <= k < 12 => Row(disk, ino.sectors[k]))
  }

  /** Twelve rows of 21 slots. */
  ghost predicate Grid(rows: seq<seq<Entry>>) {
    |rows| == 12 && forall k :: 0 <= k < 12 ==> |rows[k]| == 21
  }

  /** The rows with slot `j` of row `k` replaced. */
  function Put(rows: seq<seq<Entry>>, k: nat, j: nat, e: Entry): (r: seq<seq<Entry>>)
    requires k < |rows| && j < |rows[k]|
  {
    rows[k := rows[k][j := e]]
  }

  /** A change of one row by one slot is a change of the image by one slot. */
  lemma ImageUpdate(disk: Disk, ino: Inode, disk1: Disk, ino1: Inode, k0: nat, j0: nat, e: Entry)
    requires |ino.sectors| == 13 == |ino1.sectors| && k0 < 12 && j0 < 21
    requires forall k :: 0 <= k < 12 && k != k0 ==> Row(disk1, ino1.sectors[k]) == Row(disk, ino.sectors[k])
    requires Row(disk1, ino1.sectors[k0]) == Row(disk, ino.sectors[k0])[j0 := e]
    ensures Image(disk1, ino1) == Put(Image(disk, ino), k0, j0, e)
  {
  }

  // ----- sector buffers

  /** Entry `j` of a sector buffer. */
  method Load(s: Sector, j: nat) returns (e: Entry)
    requires j < 21
    ensures e == EntriesOf(s)[j]
  {
    EntriesAt(s, j);
    e := EntryAt(s, j);
  }

  /** memcpy of an entry over slot `j` of a sector buffer. */
  method Store(s: Sector, j: nat, e: Entry) returns (t: Sector)
    requires j < 21 && FitsEntry(e)
    ensures EntriesOf(t) == EntriesOf(s)[j := e]
  {
    EntriesPut(s, j, e);
    t := PutEntry(s, j, e);
  }

  /** A cleared sector buffer with one entry in its first slot. */
  method StoreFresh(e: Entry) returns (t: Sector)
    requires FitsEntry(e)
    ensures EntriesOf(t) == EmptyRow()[0 := e]
  {
    var s: Sector := Zeros(512);
    EntriesZero(s);
    t := Store(s, 0, e);
  }

  /** memset of slot `j` of a sector buffer. */
  method Clear(s: Sector, j: nat) returns (t: Sector)
    requires j < 21
    ensures EntriesOf(t) == EntriesOf(s)[j := NO_ENTRY]
  {
    ClearEntry(s, j);
    EntriesPut(s, j, NO_ENTRY);
    t := Patch(s, 24 * j, Zeros(24));
  }

  // ----- listings

  /** The live entries of a sequence of slots, in order. */
  ghost function Filter(es: seq<Entry>): (r: seq<Entry>)
    ensures |r| <= |es|
  {
    if es == [] then [] else
      Filter(es[..|es| - 1]) + if Live(es[|es| - 1]) then [es[|es| - 1]] else []
  }

  /** The live entries of a directory, in order. */
  ghost function Listing(rows: seq<seq<Entry>>): (r: seq<Entry>) {
    if rows == [] then [] else Listing(rows[..|rows| - 1]) + Filter(rows[|rows| - 1])
  }

  lemma {:induction false} FilterMember(es: seq<Entry>, e: Entry)
    ensures e in Filter(es) <==> Live(e) && e in es
  {
    if es != [] {
      var n := |es| - 1;
      FilterMember(es[..n], e);
      assert es == es[..n] + [es[n]];
    }
  }

  lemma {:induction false} ListingMember(rows: seq<seq<Entry>>, e: Entry)
    ensures e in Listing(rows) <==> Live(e) && exists k :: 0 <= k < |rows| && e in rows[k]
  {
    if rows != [] {
      var n := |rows| - 1;
      ListingMember(rows[..n], e);
      FilterMember(rows[n], e);
    }
  }

  lemma {:induction false} FilterUpdate(es: seq<Entry>, s: nat, e: Entry)
    requires s < |es| && Live(es[s]) != Live(e)
    ensures |Filter(es[s := e])| == |Filter(es)| + if Live(e) then 1 else -1
  {
    var n := |es| - 1;
    if s < n {
      FilterUpdate(es[..n], s, e);
      assert es[s := e][..n] == es[..n][s := e];
    } else {
      assert es[s := e][..n] == es[..n];
    }
  }

  lemma {:induction false} ListingUpdate(rows: seq<seq<Entry>>, k: nat, j: nat, e: Entry)
    requires k < |rows| && j < |rows[k]| && Live(rows[k][j]) != Live(e)
    ensures |Listing(Put(rows, k, j, e))| == |Listing(rows)| + if Live(e) then 1 else -1
  {
    var n := |rows| - 1;
    if k < n {
      ListingUpdate(rows[..n], k, j, e);
      assert Put(rows, k, j, e)[..n] == Put(rows[..n], k, j, e);
    } else {
      FilterUpdate(rows[n], j, e);
      assert Put(rows, k, j, e)[..n] == rows[..n];
    }
  }

  // ----- well-formed directories

  /** A name that a path component can have, other than "." and "..". */
  predicate GoodName(n: string) {
    FitsName(n) && n != "" && n != "." && n != ".." && '/' !in n
  }

  /** The slots of "." and "..". */
  predicate DotSlot(k: nat, j: nat) {
    k == 0 && j < 2
  }

  /** "." and ".." first, then entries with good names, no name twice, and clean empty slots. */
  ghost predicate Proper(rows: seq<seq<Entry>>) {
    && Grid(rows)
    && rows[0][0].name == "." && rows[0][0].ftype == FT_DIRECTORY
    && rows[0][1].name == ".." && rows[0][1].ftype == FT_DIRECTORY
    && (forall k, j :: 0 <= k < 12 && 0 <= j < 21 ==> SlotOk(rows, k, j))
    && NamesOnce(rows)
  }

  /** A slot other than those of "." and ".." has a good name or is clean. */
  ghost predicate SlotOk(rows: seq<seq<Entry>>, k: nat, j: nat)
    requires Grid(rows) && k < 12 && j < 21
  {
    if Live(rows[k][j]) then DotSlot(k, j) || GoodName(rows[k][j].name) else rows[k][j] == NO_ENTRY
  }

  /** Live entries in different slots have different names. */
  ghost predicate NamesOnce(rows: seq<seq<Entry>>)
    requires Grid(rows)
  {
    forall k, j, m, n :: 0 <= k < 12 && 0 <= j < 21 && 0 <= m < 12 && 0 <= n < 21 ==> NamesDiffer(rows, k, j, m, n)
  }

  ghost predicate NamesDiffer(rows: seq<seq<Entry>>, k: nat, j: nat, m: nat, n: nat)
    requires Grid(rows) && k < 12 && j < 21 && m < 12 && n < 21
  {
    Live(rows[k][j]) && Live(rows[m][n]) && rows[k][j].name == rows[m][n].name ==> k == m && j == n
  }

  /** Only the first two slots have the names "." and "..". */
  lemma NameAt(rows: seq<seq<Entry>>, k: nat, j: nat)
    requires Proper(rows) && k < 12 && j < 21
    ensures rows[k][j].name == "." <==> k == 0 && j == 0
    ensures rows[k][j].name == ".." <==> k == 0 && j == 1
    ensures rows[k][j].name != "" <==> Live(rows[k][j])
  {
    assert SlotOk(rows, k, j);
  }

  /** Entries with the same name are the same. */
  lemma SameSlot(rows: seq<seq<Entry>>, k: nat, j: nat, m: nat, n: nat)
    requires Proper(rows) && k < 12 && j < 21 && m < 12 && n < 21
    requires Live(rows[k][j]) && Live(rows[m][n]) && rows[k][j].name == rows[m][n].name
    ensures k == m && j == n
  {
    assert NamesDiffer(rows, k, j, m, n);
  }

  /** A row has a live entry. */
  ghost predicate HasLive(row: seq<Entry>) {
    exists j :: 0 <= j < |row| && Live(row[j])
  }

  /** A directory at rest, in its direct blocks. */
  ghost predicate DirShape(disk: Disk, ino: Inode) {
    && |ino.sectors| == 13 && ino.sectors[0] != 0 && ino.sectors[12] == 0
    && Proper(Image(disk, ino))
    && ino.size == 24 * |Listing(Image(disk, ino))|
    && (forall k :: 1 <= k < 12 && ino.sectors[k] != 0 ==> HasLive(Image(disk, ino)[k]))
  }

  // ----- search_dir_entry

  datatype Found = None | Some(e: Entry)

  /** One sector: the first slot whose name is `name`, or 21. */
  method SearchSector(s: Sector, name: string) returns (j: nat)
    ensures j <= 21 && (j < 21 ==> EntriesOf(s)[j].name == name)
    ensures forall m :: 0 <= m < j ==> EntriesOf(s)[m].name != name
  {
    j := 0;
    while j < 21
      invariant j <= 21
      invariant forall m :: 0 <= m < j ==> EntriesOf(s)[m].name != name
    {
      var e := Load(s, j);
      if e.name == name {
        return;
      }
      j := j + 1;
    }
  }

  /** No slot before block `k` has the name. */
  ghost predicate NotIn(rows: seq<seq<Entry>>, k: nat, name: string) {
    forall m, j :: 0 <= m < k && m < |rows| && 0 <= j < |rows[m]| ==> rows[m][j].name != name
  }

  /** Block `k`, which may be absent. */
  method SearchBlock(disk: Disk, ino: Inode, k: nat, lba: nat, name: string) returns (r: Found)
    requires |ino.sectors| == 13 && k < 12 && lba == ino.sectors[k] && name != ""
    requires NotIn(Image(disk, ino), k, name)
    ensures r.Some? ==> r.e in Image(disk, ino)[k] && r.e.name == name
    ensures r.None? ==> NotIn(Image(disk, ino), k + 1, name)
  {
    if lba == 0 {
      return None;
    }
    var j := SearchSector(Read(disk, lba), name);
    if j == 21 {
      return None;
    }
    var e := Load(Read(disk, lba), j);
    r := Some(e);
  }

  /** The loop of search_dir_entry over the blocks. */
  method SearchBlocks(disk: Disk, ino: Inode, name: string) returns (r: Found, ghost k: nat)
    requires |ino.sectors| == 13 && name != ""
    ensures r.Some? ==> k < 12 && r.e in Image(disk, ino)[k] && r.e.name == name
    ensures r.None? ==> NotIn(Image(disk, ino), 12, name)
  {
    var all: seq<nat> := ino.sectors[..12] + seq(128, _ => 0);
    r, k := None, 0;
    var idx := 0;
    while idx < 140
      invariant 0 <= idx <= 140 && r == None
      invariant NotIn(Image(disk, ino), idx, name)
    {
      if idx < 12 {
        r := SearchBlock(disk, ino, idx, all[idx], name);
        if r.Some? {
          k := idx;
          return;
        }
      } else {
        assert all[idx] == 0;
      }
      idx := idx + 1;
    }
  }

  /** search_dir_entry: the entry with this name, if there is one. */
  method Search(disk: Disk, ino: Inode, name: string) returns (r: Found)
    requires DirShape(disk, ino) && name != ""
    ensures r.Some? ==> r.e.name == name && r.e in Listing(Image(disk, ino))
    ensures r.None? ==> forall e :: e in Listing(Image(disk, ino)) ==> e.name != name
  {
    ghost var k;
    r, k := SearchBlocks(disk, ino, name);
    if r.Some? {
      FoundListed(Image(disk, ino), k, r.e);
    } else {
      NotListed(Image(disk, ino), name);
    }
  }

  lemma FoundListed(rows: seq<seq<Entry>>, k: nat, e: Entry)
    requires Proper(rows) && k < 12 && e in rows[k] && e.name != ""
    ensures e in Listing(rows)
  {
    var j :| 0 <= j < 21 && rows[k][j] == e;
    NameAt(rows, k, j);
    ListingMember(rows, e);
  }

  lemma NotListed(rows: seq<seq<Entry>>, name: string)
    requires NotIn(rows, |rows|, name)
    ensures forall e :: e in Listing(rows) ==> e.name != name
  {
    forall e | e in Listing(rows) ensures e.name != name {
      ListingMember(rows, e);
    }
  }

  // ----- writing one sector of a directory

  /** Writing sector `s` to block `k` of inode `d` changes row `k` only. */
  lemma RowWrite(disk: Disk, ino: Inode, owner: Owner, d: nat, k: nat, s: Sector, m: nat)
    requires |ino.sectors| == 13 && OwnedBy(disk, ino, owner, d) && k < 12 && ino.sectors[k] != 0 && m < 12
    ensures Row(Write(disk, ino.sectors[k], s), ino.sectors[m]) == if m == k then EntriesOf(s)
            else Row(disk, ino.sectors[m])
  {
    assert Addr(disk, ino, k) == ino.sectors[k] && Addr(disk, ino, m) == ino.sectors[m];
  }

  /** ide_write of sector `s` as block `k` of directory `d`, whose size becomes `size`. */
  method PutSector(v: Vol, ghost owner: Owner, d: nat, k: nat, s: Sector, size: nat) returns (v1: Vol)
    requires BlocksOk(v, owner) && d in v.inodes && k < 12 && v.inodes[d].sectors[k] != 0
    ensures BlocksOk(v1, owner)
    ensures OnlyInode(v.g, v.disk, v.inodes, owner, v1.disk, v1.inodes, owner, d)
    ensures v1 == v.(disk := v1.disk, inodes := v.inodes[d := v.inodes[d].(size := size)])
    ensures forall m :: 0 <= m < 12 && m != k ==>
            Row(v1.disk, v.inodes[d].sectors[m]) == Row(v.disk, v.inodes[d].sectors[m])
    ensures Row(v1.disk, v.inodes[d].sectors[k]) == EntriesOf(s)
  {
    var ino := v.inodes[d];
    var disk := Write(v.disk, ino.sectors[k], s);
    assert OwnedBy(v.disk, ino, owner, d);
    assert Addr(v.disk, ino, k) == ino.sectors[k];
    DataOnlyChunk(v.disk, v.disk, ino, owner, d, k, s);
    WrittenOwned(v.g, v.disk, v.inodes, owner, disk, d, size);
    WriteOnly(v.g, v.disk, disk, v.inodes, owner, d, size);
    v1 := v.(disk := disk, inodes := v.inodes[d := ino.(size := size)]);
    RowWrite(v.disk, ino, owner, d, k, s, k);
    forall m | 0 <= m < 12 && m != k ensures Row(v1.disk, ino.sectors[m]) == Row(v.disk, ino.sectors[m]) {
      RowWrite(v.disk, ino, owner, d, k, s, m);
    }
  }

  // ----- sync_dir_entry

  /** One sector: the first empty slot, or 21. */
  method FindFree(s: Sector) returns (j: nat)
    ensures j <= 21 && (j < 21 ==> !Live(EntriesOf(s)[j]))
    ensures forall m :: 0 <= m < j ==> Live(EntriesOf(s)[m])
  {
    j := 0;
    while j < 21
      invariant j <= 21
      invariant forall m :: 0 <= m < j ==> Live(EntriesOf(s)[m])
    {
      var e := Load(s, j);
      if e.ftype == FT_UNKNOWN {
        return;
      }
      j := j + 1;
    }
  }

  /** The entry goes to an existing block. */
  method PutEntryInBlock(v: Vol, ghost owner: Owner, d: nat, k: nat, j: nat, e: Entry) returns (v1: Vol)
    requires BlocksOk(v, owner) && d in v.inodes && k < 12 && v.inodes[d].sectors[k] != 0 && j < 21 && FitsEntry(e)
    ensures BlocksOk(v1, owner)
    ensures OnlyInode(v.g, v.disk, v.inodes, owner, v1.disk, v1.inodes, owner, d)
    ensures v1 == v.(disk := v1.disk, inodes := v.inodes[d := v.inodes[d].(size := v.inodes[d].size + 24)])
    ensures Image(v1.disk, v1.inodes[d]) == Put(Image(v.disk, v.inodes[d]), k, j, e)
  {
    var ino := v.inodes[d];
    var s := Store(Read(v.disk, ino.sectors[k]), j, e);
    v1 := PutSector(v, owner, d, k, s, ino.size + 24);
    assert v1.inodes[d].sectors == ino.sectors;
    ImageUpdate(v.disk, ino, v1.disk, v1.inodes[d], k, j, e);
  }

  /** The entry goes to the first slot of a new block. */
  method PutEntryInNewBlock(v: Vol, ghost owner: Owner, d: nat, k: nat, e: Entry)
    returns (f: Fate, v1: Vol, ghost owner1: Owner)
    requires BlocksOk(v, owner) && d in v.inodes && k < 12 && v.inodes[d].sectors[k] == 0 && FitsEntry(e)
    ensures f == BlockFate(v, 1)
    ensures f == Done ==> BlocksOk(v1, owner1) && v1 == v.(disk := v1.disk, bits := v1.bits, inodes := v1.inodes)
    ensures f == Done ==> OnlyInode(v.g, v.disk, v.inodes, owner, v1.disk, v1.inodes, owner1, d)
    ensures f == Done ==> v1.inodes[d].size == v.inodes[d].size + 24 && v1.inodes[d].sectors[k] != 0
    ensures f == Done ==> v1.inodes[d].sectors == v.inodes[d].sectors[k := v1.inodes[d].sectors[k]]
    ensures f == Done ==> Image(v1.disk, v1.inodes[d]) == Put(Image(v.disk, v.inodes[d]), k, 0, e)
  {
    var w, lba;
    f, w, lba, owner1 := AllocBlock(v, owner, d, k);
    if f != Done {
      return f, v, owner;
    }
    GainSlot(v.g, v.disk, v.inodes, owner, d, k, lba);
    var s := StoreFresh(e);
    v1 := PutSector(w, owner1, d, k, s, w.inodes[d].size + 24);
    OnlyInodeTrans(v.g, v.disk, v.inodes, owner, w.disk, w.inodes, owner1, v1.disk, v1.inodes, owner1, d);
    ImageUpdate(v.disk, v.inodes[d], v1.disk, v1.inodes[d], k, 0, e);
  }

  /** Slot (`k`, `j`) is the first empty one. */
  ghost predicate FirstFree(rows: seq<seq<Entry>>, k: nat, j: nat) {
    && Grid(rows) && k < 12 && j < 21 && !Live(rows[k][j])
    && (forall m, n :: 0 <= m < k && 0 <= n < 21 ==> Live(rows[m][n]))
    && (forall n :: 0 <= n < j ==> Live(rows[k][n]))
  }

  /** Every slot before block `k` is taken. */
  ghost predicate FullTo(rows: seq<seq<Entry>>, k: nat) {
    forall m, n :: 0 <= m < k && m < |rows| && 0 <= n < |rows[m]| ==> Live(rows[m][n])
  }

  /** The outcome of adding entry `e` to directory `d` in slot (`k`, `j`). */
  ghost predicate Added(v: Vol, owner: Owner, v1: Vol, owner1: Owner, d: nat, k: nat, j: nat, e: Entry) {
    && BlocksOk(v1, owner1) && v1 == v.(disk := v1.disk, bits := v1.bits, inodes := v1.inodes)
    && OnlyInode(v.g, v.disk, v.inodes, owner, v1.disk, v1.inodes, owner1, d)
    && |v.inodes[d].sectors| == 13 == |v1.inodes[d].sectors| && k < 12 && j < 21
    && v1.inodes[d].size == v.inodes[d].size + 24 && v1.inodes[d].sectors[k] != 0
    && v1.inodes[d].sectors == v.inodes[d].sectors[k := v1.inodes[d].sectors[k]]
    && (v.inodes[d].sectors[k] != 0 ==> v1.inodes[d].sectors[k] == v.inodes[d].sectors[k])
    && Image(v1.disk, v1.inodes[d]) == Put(Image(v.disk, v.inodes[d]), k, j, e)
  }

  lemma FirstFreeOnce(rows: seq<seq<Entry>>, k: nat, j: nat, m: nat, n: nat)
    requires FirstFree(rows, k, j) && FirstFree(rows, m, n)
    ensures k == m && j == n
  {
  }

  /** The first empty slot lies in a block that is not there yet. */
  ghost predicate NeedsBlock(rows: seq<seq<Entry>>, ino: Inode)
    requires |ino.sectors| == 13
  {
    exists k: nat, j: nat :: FirstFree(rows, k, j) && ino.sectors[k] == 0
  }

  /** What becomes of a new entry, when `before` blocks are taken before it. */
  ghost function EntryFate(v: Vol, rows: seq<seq<Entry>>, ino: Inode, before: nat): (f: Fate)
    requires |ino.sectors| == 13 && v.g.blocks <= |v.bits|
  {
    if FullTo(rows, 12) then FullDirectory else BlockFate(v, before + if NeedsBlock(rows, ino) then 1 else 0)
  }

  /** The entry goes to slot (`k`, `j`), which may be the first one of a block to be allocated. */
  method InstallEntry(v: Vol, ghost owner: Owner, d: nat, k: nat, j: nat, e: Entry)
    returns (f: Fate, v1: Vol, ghost owner1: Owner)
    requires BlocksOk(v, owner) && d in v.inodes && FitsEntry(e) && k < 12 && j < 21
    requires v.inodes[d].sectors[k] == 0 ==> j == 0
    ensures f == BlockFate(v, if v.inodes[d].sectors[k] == 0 then 1 else 0)
    ensures f == Done ==> Added(v, owner, v1, owner1, d, k, j, e)
  {
    f, v1, owner1 := Done, v, owner;
    if v.inodes[d].sectors[k] != 0 {
      v1 := PutEntryInBlock(v, owner, d, k, j, e);
    } else {
      f, v1, owner1 := PutEntryInNewBlock(v, owner, d, k, e);
    }
  }

  /** The loop of sync_dir_entry over the direct blocks: the first empty slot, or block 12. */
  method FirstSlot(disk: Disk, ino: Inode) returns (k: nat, j: nat)
    requires |ino.sectors| == 13
    ensures k == 12 ==> FullTo(Image(disk, ino), 12)
    ensures k != 12 ==> FirstFree(Image(disk, ino), k, j) && !FullTo(Image(disk, ino), 12)
                        && (ino.sectors[k] == 0 ==> j == 0)
  {
    k, j := 0, 0;
    while k < 12
      invariant 0 <= k <= 12
      invariant FullTo(Image(disk, ino), k)
    {
      j := 0;
      if ino.sectors[k] != 0 {
        j := FindFree(Read(disk, ino.sectors[k]));
      }
      if j < 21 {
        FreeSlotAt(disk, ino, k, j);
        return;
      }
      k := k + 1;
    }
  }

  /** sync_dir_entry: the entry goes to the first empty slot, in a new block if need be. */
  method SyncEntry(v: Vol, ghost owner: Owner, d: nat, e: Entry)
    returns (f: Fate, v1: Vol, ghost owner1: Owner, ghost k: nat, ghost j: nat)
    requires BlocksOk(v, owner) && d in v.inodes && FitsEntry(e)
    ensures f == EntryFate(v, Image(v.disk, v.inodes[d]), v.inodes[d], 0)
    ensures f == Done ==> FirstFree(Image(v.disk, v.inodes[d]), k, j) && Added(v, owner, v1, owner1, d, k, j, e)
  {
    var m, n := FirstSlot(v.disk, v.inodes[d]);
    k, j := m, n;
    if m == 12 {
      return FullDirectory, v, owner, k, j;
    }
    SlotNeeds(Image(v.disk, v.inodes[d]), v.inodes[d], m, n);
    f, v1, owner1 := InstallEntry(v, owner, d, m, n, e);
  }

  lemma SlotNeeds(rows: seq<seq<Entry>>, ino: Inode, k: nat, j: nat)
    requires |ino.sectors| == 13 && FirstFree(rows, k, j)
    ensures NeedsBlock(rows, ino) <==> ino.sectors[k] == 0
  {
    if NeedsBlock(rows, ino) {
      var m: nat, n: nat :| FirstFree(rows, m, n) && ino.sectors[m] == 0;
      FirstFreeOnce(rows, k, j, m, n);
    }
  }

  /** The first empty slot of block `k`, when all blocks before are full. */
  lemma FreeSlotAt(disk: Disk, ino: Inode, k: nat, j: nat)
    requires |ino.sectors| == 13 && k < 12 && j < 21 && FullTo(Image(disk, ino), k)
    requires ino.sectors[k] == 0 ==> j == 0
    requires ino.sectors[k] != 0 ==> !Live(EntriesOf(Read(disk, ino.sectors[k]))[j])
    requires ino.sectors[k] != 0 ==> forall m :: 0 <= m < j ==> Live(EntriesOf(Read(disk, ino.sectors[k]))[m])
    ensures FirstFree(Image(disk, ino), k, j) && !FullTo(Image(disk, ino), 12)
  {
    assert !Live(Image(disk, ino)[k][j]);
  }

  // ----- delete_dir_entry

  /** A live entry other than "." and "..". */
  predicate Plain(e: Entry) {
    Live(e) && e.name != "." && e.name != ".."
  }

  function CountPlain(row: seq<Entry>, n: nat): (c: nat)
    requires n <= |row|
    ensures c <= n
  {
    if n == 0 then 0 else CountPlain(row, n - 1) + if Plain(row[n - 1]) then 1 else 0
  }

  lemma {:induction false} NoPlain(row: seq<Entry>, n: nat)
    requires n <= |row|
    ensures CountPlain(row, n) == 0 <==> forall m :: 0 <= m < n ==> !Plain(row[m])
  {
    if n > 0 { NoPlain(row, n - 1); }
  }

  lemma {:induction false} OnePlain(row: seq<Entry>, n: nat, f: nat)
    requires f < n <= |row| && Plain(row[f])
    ensures 1 <= CountPlain(row, n)
    ensures CountPlain(row, n) == 1 <==> forall m :: 0 <= m < n && m != f ==> !Plain(row[m])
  {
    if f < n - 1 {
      OnePlain(row, n - 1, f);
    } else {
      NoPlain(row, n - 1);
    }
  }

  /** At most one plain entry of a row names inode `n`. */
  ghost predicate InoOnce(row: seq<Entry>, n: nat) {
    forall j, m :: 0 <= j < |row| && 0 <= m < |row| && IsFor(row[j], n) && IsFor(row[m], n) ==> j == m
  }

  predicate IsFor(e: Entry, n: nat) {
    Plain(e) && e.ino == n
  }

  /** One sector: the number of plain entries, the slot of the one for inode `n` (or 21), and whether
      the sector has the entry ".". */
  method ScanSector(s: Sector, n: nat) returns (cnt: nat, found: nat, first: bool)
    requires InoOnce(EntriesOf(s), n)
    ensures cnt == CountPlain(EntriesOf(s), 21)
    ensures found <= 21 && (found < 21 ==> Plain(EntriesOf(s)[found]) && EntriesOf(s)[found].ino == n)
    ensures found == 21 ==> forall m :: 0 <= m < 21 && Plain(EntriesOf(s)[m]) ==> EntriesOf(s)[m].ino != n
    ensures first <==> exists m :: 0 <= m < 21 && Live(EntriesOf(s)[m]) && EntriesOf(s)[m].name == "."
  {
    cnt, found, first := 0, 21, false;
    var j := 0;
    while j < 21
      invariant 0 <= j <= 21 && cnt == CountPlain(EntriesOf(s), j)
      invariant found < 21 ==> found < j && Plain(EntriesOf(s)[found]) && EntriesOf(s)[found].ino == n
      invariant found <= 21
      invariant found == 21 ==> forall m :: 0 <= m < j && Plain(EntriesOf(s)[m]) ==> EntriesOf(s)[m].ino != n
      invariant first <==> exists m :: 0 <= m < j && Live(EntriesOf(s)[m]) && EntriesOf(s)[m].name == "."
    {
      var e := Load(s, j);
      if e.ftype != FT_UNKNOWN {
        if e.name == "." {
          first := true;
        } else if e.name != ".." {
          cnt := cnt + 1;
          if e.ino == n {
            assert found == 21;
            found := j;
          }
        }
      }
      j := j + 1;
    }
  }

  /** Direct block `k` of directory `d` goes back to the bitmap. */
  method DropBlock(v: Vol, ghost owner: Owner, d: nat, k: nat, size: nat) returns (v1: Vol, ghost owner1: Owner)
    requires BlocksOk(v, owner) && d in v.inodes && k < 12 && v.inodes[d].sectors[k] != 0
    ensures BlocksOk(v1, owner1) && OnlyInode(v.g, v.disk, v.inodes, owner, v.disk, v1.inodes, owner1, d)
    ensures v1 == v.(bits := v1.bits, inodes := v.inodes[d := v.inodes[d].(sectors := v.inodes[d].sectors[k := 0],
            size := size)])
  {
    var ino := v.inodes[d];
    var lba := ino.sectors[k];
    LoseSlot(v.g, v.disk, v.inodes, owner, d, k);
    UnmarkOne(v.g, v.bits, owner, lba);
    owner1 := owner - {lba};
    ghost var inodes1 := v.inodes[d := WithSlot(ino, k, 0)];
    DataOnlyRefl(v.disk, inodes1[d], owner1, d);
    WrittenOwned(v.g, v.disk, inodes1, owner1, v.disk, d, size);
    WriteOnly(v.g, v.disk, v.disk, inodes1, owner1, d, size);
    OnlyInodeTrans(v.g, v.disk, v.inodes, owner, v.disk, inodes1, owner1, v.disk,
      inodes1[d := inodes1[d].(size := size)], owner1, d);
    var ino1 := ino.(sectors := ino.sectors[k := 0], size := size);
    assert inodes1[d := inodes1[d].(size := size)] == v.inodes[d := ino1];
    v1 := v.(bits := v.bits[lba - v.g.dataStart := false], inodes := v.inodes[d := ino1]);
  }

  lemma DataOnlyRefl(disk: Disk, ino: Inode, owner: Owner, i: nat)
    requires |ino.sectors| == 13 && OwnedBy(disk, ino, owner, i)
    ensures DataOnly(disk, disk, ino, owner, i)
  {
  }

  /** The outcome of taking the entry in slot (`k`, `j`) out of directory `d`: the block goes with it
      when nothing else is left in it, except for the first block. */
  ghost predicate Removed(v: Vol, owner: Owner, v1: Vol, owner1: Owner, d: nat, k: nat, j: nat) {
    && BlocksOk(v1, owner1) && v1 == v.(disk := v1.disk, bits := v1.bits, inodes := v1.inodes)
    && OnlyInode(v.g, v.disk, v.inodes, owner, v1.disk, v1.inodes, owner1, d)
    && |v.inodes[d].sectors| == 13 == |v1.inodes[d].sectors| && k < 12 && j < 21
    && v1.inodes[d].size == v.inodes[d].size - 24
    && Image(v1.disk, v1.inodes[d]) == Put(Image(v.disk, v.inodes[d]), k, j, NO_ENTRY)
    && v1.inodes[d].sectors ==
       (if k == 0 || HasLive(Image(v1.disk, v1.inodes[d])[k]) then v.inodes[d].sectors else v.inodes[d].sectors[k := 0])
  }

  /** The sector that holds the entry: drop the block or clear the slot. */
  method DeleteInBlock(v: Vol, ghost owner: Owner, d: nat, k: nat, j: nat, cnt: nat, first: bool)
    returns (v1: Vol, ghost owner1: Owner)
    requires BlocksOk(v, owner) && d in v.inodes && DirShape(v.disk, v.inodes[d]) && k < 12
    requires v.inodes[d].sectors[k] != 0
    requires j < 21 && Plain(Image(v.disk, v.inodes[d])[k][j])
    requires cnt == CountPlain(Image(v.disk, v.inodes[d])[k], 21) && first == (k == 0)
    ensures Removed(v, owner, v1, owner1, d, k, j)
  {
    var ino := v.inodes[d];
    ghost var rows := Image(v.disk, ino);
    SizeOf(rows, k, j);
    assert cnt >= 1 by { OnePlain(rows[k], 21, j); }
    if cnt == 1 && !first {
      v1, owner1 := DropBlock(v, owner, d, k, ino.size - 24);
      OnlyEntry(rows, k, j);
      ImageUpdate(v.disk, ino, v1.disk, v1.inodes[d], k, j, NO_ENTRY);
    } else {
      var s := Clear(Read(v.disk, ino.sectors[k]), j);
      v1 := PutSector(v, owner, d, k, s, ino.size - 24);
      owner1 := owner;
      OtherEntry(rows, k, j);
      ImageUpdate(v.disk, ino, v1.disk, v1.inodes[d], k, j, NO_ENTRY);
    }
  }

  lemma SizeOf(rows: seq<seq<Entry>>, k: nat, j: nat)
    requires Grid(rows) && k < 12 && j < 21 && Live(rows[k][j])
    ensures |Listing(rows)| >= 1
  {
    ListingMember(rows, rows[k][j]);
  }

  /** When the only plain entry of a later block is cleared, nothing is left. */
  lemma OnlyEntry(rows: seq<seq<Entry>>, k: nat, j: nat)
    requires Proper(rows) && 1 <= k < 12 && j < 21 && Plain(rows[k][j]) && CountPlain(rows[k], 21) == 1
    ensures rows[k][j := NO_ENTRY] == EmptyRow() && !HasLive(EmptyRow())
  {
    OnePlain(rows[k], 21, j);
    forall m | 0 <= m < 21 && m != j ensures rows[k][m] == NO_ENTRY {
      assert !Plain(rows[k][m]);
      NameAt(rows, k, m);
      assert SlotOk(rows, k, m);
    }
  }

  lemma OtherEntry(rows: seq<seq<Entry>>, k: nat, j: nat)
    requires Proper(rows) && k < 12 && j < 21 && Plain(rows[k][j])
    ensures CountPlain(rows[k], 21) != 1 ==> HasLive(rows[k][j := NO_ENTRY])
  {
    OnePlain(rows[k], 21, j);
    if CountPlain(rows[k], 21) != 1 {
      var m :| 0 <= m < 21 && m != j && Plain(rows[k][m]);
      assert Live(rows[k][j := NO_ENTRY][m]);
    }
  }

  /** At most one plain entry of a directory names inode `n`. */
  ghost predicate NamedOnce(rows: seq<seq<Entry>>, n: nat) {
    && Grid(rows)
    && forall k, j, m, i ::
         0 <= k < 12 && 0 <= j < 21 && 0 <= m < 12 && 0 <= i < 21 && IsFor(rows[k][j], n) && IsFor(rows[m][i], n) ==>
         k == m && j == i
  }

  /** No entry before block `k` is for inode `n`. */
  ghost predicate NoneFor(rows: seq<seq<Entry>>, k: nat, n: nat) {
    forall m, j :: 0 <= m < k && m < |rows| && 0 <= j < |rows[m]| ==> !IsFor(rows[m][j], n)
  }

  /** Block `k` of the loop of delete_dir_entry: `found` is the slot of the entry for inode `n`, or 21. */
  method ScanBlock(disk: Disk, ino: Inode, k: nat, n: nat) returns (cnt: nat, found: nat, first: bool)
    requires DirShape(disk, ino) && NamedOnce(Image(disk, ino), n) && k < 12 && NoneFor(Image(disk, ino), k, n)
    ensures found <= 21 && (found < 21 ==> ino.sectors[k] != 0 && IsFor(Image(disk, ino)[k][found], n))
    ensures found < 21 ==> cnt == CountPlain(Image(disk, ino)[k], 21) && first == (k == 0)
    ensures found == 21 ==> NoneFor(Image(disk, ino), k + 1, n)
  {
    cnt, found, first := 0, 21, false;
    ghost var rows := Image(disk, ino);
    if ino.sectors[k] != 0 {
      assert rows[k] == EntriesOf(Read(disk, ino.sectors[k]));
      cnt, found, first := ScanSector(Read(disk, ino.sectors[k]), n);
      DotOnlyFirst(rows, k);
    } else {
      assert rows[k] == EmptyRow();
    }
  }

  lemma DotOnlyFirst(rows: seq<seq<Entry>>, k: nat)
    requires Proper(rows) && k < 12
    ensures k == 0 <==> exists m :: 0 <= m < 21 && Live(rows[k][m]) && rows[k][m].name == "."
  {
    if k == 0 {
      assert Live(rows[0][0]) && rows[0][0].name == ".";
    } else {
      forall m | 0 <= m < 21 ensures rows[k][m].name != "." {
        NameAt(rows, k, m);
      }
    }
  }

  /** delete_dir_entry: take out the entry that names inode `n`. */
  method DeleteEntry(v: Vol, ghost owner: Owner, d: nat, n: nat)
    returns (ok: bool, v1: Vol, ghost owner1: Owner, ghost k: nat, ghost j: nat)
    requires BlocksOk(v, owner) && d in v.inodes && DirShape(v.disk, v.inodes[d])
    requires NamedOnce(Image(v.disk, v.inodes[d]), n)
    ensures ok ==> k < 12 && j < 21 && IsFor(Image(v.disk, v.inodes[d])[k][j], n)
                   && Removed(v, owner, v1, owner1, d, k, j)
    ensures !ok ==> NoneFor(Image(v.disk, v.inodes[d]), 12, n) && v1 == v && owner1 == owner
  {
    var ino := v.inodes[d];
    var all: seq<nat> := ino.sectors[..12] + seq(128, _ => 0);
    ok, v1, owner1, k, j := false, v, owner, 0, 0;
    var idx := 0;
    while idx < 140
      invariant 0 <= idx <= 140 && !ok && v1 == v && owner1 == owner
      invariant NoneFor(Image(v.disk, v.inodes[d]), idx, n)
    {
      if idx < 12 {
        var cnt, found, first := ScanBlock(v.disk, ino, idx, n);
        if found < 21 {
          v1, owner1 := DeleteInBlock(v, owner, d, idx, found, cnt, first);
          ok, k, j := true, idx, found;
          return;
        }
      } else {
        assert all[idx] == 0;
      }
      idx := idx + 1;
    }
  }

  // ----- a directory is a finite map

  /** Adding an entry with a new good name keeps the shape. */
  lemma AddedShape(v: Vol, owner: Owner, v1: Vol, owner1: Owner, d: nat, k: nat, j: nat, e: Entry)
    requires Added(v, owner, v1, owner1, d, k, j, e) && DirShape(v.disk, v.inodes[d])
    requires !Live(Image(v.disk, v.inodes[d])[k][j]) && Live(e) && GoodName(e.name)
    requires forall o :: o in Listing(Image(v.disk, v.inodes[d])) ==> o.name != e.name
    ensures DirShape(v1.disk, v1.inodes[d])
  {
    var ino, ino1 := v.inodes[d], v1.inodes[d];
    var rows := Image(v.disk, ino);
    ListingUpdate(rows, k, j, e);
    AddProper(rows, k, j, e);
    forall m | 1 <= m < 12 && ino1.sectors[m] != 0 ensures HasLive(Put(rows, k, j, e)[m]) {
      if m == k {
        assert Live(Put(rows, k, j, e)[k][j]);
      }
    }
  }

  lemma AddProper(rows: seq<seq<Entry>>, k: nat, j: nat, e: Entry)
    requires Proper(rows) && k < 12 && j < 21 && !Live(rows[k][j]) && Live(e) && GoodName(e.name)
    requires forall o :: o in Listing(rows) ==> o.name != e.name
    ensures Proper(Put(rows, k, j, e))
  {
    var rows1 := Put(rows, k, j, e);
    forall m, n | 0 <= m < 12 && 0 <= n < 21 ensures SlotOk(rows1, m, n) {
      assert SlotOk(rows, m, n);
    }
    forall m, n | 0 <= m < 12 && 0 <= n < 21 && Live(rows[m][n]) ensures rows[m][n].name != e.name {
      ListingMember(rows, rows[m][n]);
    }
    forall m, n, p, q | 0 <= m < 12 && 0 <= n < 21 && 0 <= p < 12 && 0 <= q < 21
      ensures NamesDiffer(rows1, m, n, p, q) {
      assert NamesDiffer(rows, m, n, p, q);
    }
    assert SlotOk(rows, 0, 0) && SlotOk(rows, 0, 1);
  }

  /** The listing gains exactly the entry that was put in an empty slot. */
  lemma AddListed(rows: seq<seq<Entry>>, k: nat, j: nat, e: Entry, o: Entry)
    requires Grid(rows) && k < 12 && j < 21 && !Live(rows[k][j]) && Live(e)
    ensures o in Listing(Put(rows, k, j, e)) <==> o == e || o in Listing(rows)
  {
    ListingMember(rows, o);
    ListingMember(Put(rows, k, j, e), o);
    SlotsOfPut(rows, k, j, e, o);
  }

  /** Where a live entry is after slot (`k`, `j`) was replaced. */
  lemma SlotsOfPut(rows: seq<seq<Entry>>, k: nat, j: nat, e: Entry, o: Entry)
    requires Grid(rows) && k < 12 && j < 21
    ensures (exists m :: 0 <= m < 12 && o in Put(rows, k, j, e)[m]) <==>
            o == e || exists m, n :: 0 <= m < 12 && 0 <= n < 21 && (m != k || n != j) && rows[m][n] == o
  {
    var rows1 := Put(rows, k, j, e);
    if o == e {
      assert rows1[k][j] == o;
    }
    if m, n :| 0 <= m < 12 && 0 <= n < 21 && (m != k || n != j) && rows[m][n] == o {
      assert rows1[m][n] == o;
    }
    if m :| 0 <= m < 12 && o in rows1[m] {
      var n :| 0 <= n < 21 && rows1[m][n] == o;
      if m != k || n != j {
        assert rows[m][n] == o;
      }
    }
  }

  /** Taking out a plain entry keeps the shape. */
  lemma RemovedShape(v: Vol, owner: Owner, v1: Vol, owner1: Owner, d: nat, k: nat, j: nat)
    requires Removed(v, owner, v1, owner1, d, k, j) && DirShape(v.disk, v.inodes[d])
    requires Plain(Image(v.disk, v.inodes[d])[k][j])
    ensures DirShape(v1.disk, v1.inodes[d])
  {
    LessShape(v.disk, v.inodes[d], v1.disk, v1.inodes[d], k, j, Image(v.disk, v.inodes[d]),
      Image(v1.disk, v1.inodes[d]));
  }

  lemma LessShape(disk: Disk, ino: Inode, disk1: Disk, ino1: Inode, k: nat, j: nat, rows: seq<seq<Entry>>,
      rows1: seq<seq<Entry>>)
    requires DirShape(disk, ino) && |ino1.sectors| == 13 && k < 12 && j < 21 && rows == Image(disk, ino)
    requires rows1 == Image(disk1, ino1)
    requires Plain(rows[k][j]) && rows1 == Put(rows, k, j, NO_ENTRY) && ino1.size == ino.size - 24
    requires ino1.sectors == if k == 0 || HasLive(rows1[k]) then ino.sectors else ino.sectors[k := 0]
    ensures DirShape(disk1, ino1)
  {
    LessListed(rows, rows1, k, j);
    RemoveProper(rows, k, j);
    RemovedBlocks(rows, ino.sectors, k, j);
  }

  lemma LessListed(rows: seq<seq<Entry>>, rows1: seq<seq<Entry>>, k: nat, j: nat)
    requires Grid(rows) && k < 12 && j < 21 && Live(rows[k][j]) && rows1 == Put(rows, k, j, NO_ENTRY)
    ensures |Listing(rows1)| == |Listing(rows)| - 1
  {
    ListingUpdate(rows, k, j, NO_ENTRY);
  }

  /** The blocks that are left after the first still have something in them. */
  lemma RemovedBlocks(rows: seq<seq<Entry>>, sectors: seq<nat>, k: nat, j: nat)
    requires Grid(rows) && |sectors| == 13 && k < 12 && j < 21
    requires forall m :: 1 <= m < 12 && sectors[m] != 0 ==> HasLive(rows[m])
    ensures var rows1 := Put(rows, k, j, NO_ENTRY);
            var sectors1 := if k == 0 || HasLive(rows1[k]) then sectors else sectors[k := 0];
            forall m :: 1 <= m < 12 && sectors1[m] != 0 ==> HasLive(rows1[m])
  {
  }

  lemma RemoveProper(rows: seq<seq<Entry>>, k: nat, j: nat)
    requires Proper(rows) && k < 12 && j < 21 && Plain(rows[k][j])
    ensures Proper(Put(rows, k, j, NO_ENTRY))
  {
    var rows1 := Put(rows, k, j, NO_ENTRY);
    forall m, n | 0 <= m < 12 && 0 <= n < 21 ensures SlotOk(rows1, m, n) {
      assert SlotOk(rows, m, n);
    }
    forall m, n, p, q | 0 <= m < 12 && 0 <= n < 21 && 0 <= p < 12 && 0 <= q < 21
      ensures NamesDiffer(rows1, m, n, p, q) {
      assert NamesDiffer(rows, m, n, p, q);
    }
  }

  /** The listing loses exactly the entry whose slot was cleared. */
  lemma RemoveListed(rows: seq<seq<Entry>>, k: nat, j: nat, o: Entry)
    requires Proper(rows) && k < 12 && j < 21 && Plain(rows[k][j])
    ensures o in Listing(Put(rows, k, j, NO_ENTRY)) <==> o != rows[k][j] && o in Listing(rows)
  {
    ListingMember(rows, o);
    ListingMember(Put(rows, k, j, NO_ENTRY), o);
    SlotsOfPut(rows, k, j, NO_ENTRY, o);
    if o == rows[k][j] {
      forall m, n | 0 <= m < 12 && 0 <= n < 21 && rows[m][n] == o ensures m == k && n == j {
        SameSlot(rows, k, j, m, n);
      }
    }
  }

  // ----- dir_read

  lemma {:induction false} FilterPrefix(es: seq<Entry>, n: nat)
    requires n <= |es|
    ensures Filter(es[..n]) <= Filter(es)
  {
    if n < |es| {
      FilterPrefix(es[..|es| - 1], n);
      assert es[..|es| - 1][..n] == es[..n];
    } else {
      assert es[..n] == es;
    }
  }

  lemma {:induction false} ListingPrefix(rows: seq<seq<Entry>>, n: nat)
    requires n <= |rows|
    ensures Listing(rows[..n]) <= Listing(rows)
  {
    if n < |rows| {
      ListingPrefix(rows[..|rows| - 1], n);
      assert rows[..|rows| - 1][..n] == rows[..n];
    } else {
      assert rows[..n] == rows;
    }
  }

  /** Live entries before slot (`k`, `j`). */
  ghost function Seen(rows: seq<seq<Entry>>, k: nat, j: nat): (n: nat)
    requires k < |rows| && j <= |rows[k]|
  {
    |Listing(rows[..k])| + |Filter(rows[k][..j])|
  }

  /** A live entry is listed behind the live entries before it. */
  lemma SeenAt(rows: seq<seq<Entry>>, k: nat, j: nat)
    requires k < |rows| && j < |rows[k]|
    ensures Seen(rows, k, j + 1) == Seen(rows, k, j) + if Live(rows[k][j]) then 1 else 0
    ensures Live(rows[k][j]) ==> Seen(rows, k, j) < |Listing(rows)| && Listing(rows)[Seen(rows, k, j)] == rows[k][j]
  {
    assert rows[k][..j + 1][..j] == rows[k][..j];
    assert rows[..k + 1][..k] == rows[..k];
    FilterPrefix(rows[k], j + 1);
    ListingPrefix(rows, k + 1);
    if Live(rows[k][j]) {
      var f, l := Filter(rows[k]), Listing(rows[..k + 1]);
      assert l == Listing(rows[..k]) + f;
      assert Filter(rows[k][..j + 1])[|Filter(rows[k][..j])|] == rows[k][j];
    }
  }

  /** At the end of a row the count moves on to the next one. */
  lemma SeenNext(rows: seq<seq<Entry>>, k: nat)
    requires k < |rows|
    ensures Seen(rows, k, |rows[k]|) == |Listing(rows[..k + 1])|
    ensures k + 1 < |rows| ==> Seen(rows, k + 1, 0) == Seen(rows, k, |rows[k]|)
  {
    assert rows[..k + 1][..k] == rows[..k] && rows[k][..|rows[k]|] == rows[k];
    if k + 1 < |rows| {
      assert rows[k + 1][..0] == [];
    }
  }

  /** One sector of dir_read: skip the entries already returned. */
  method ReadRow(s: Sector, cur0: nat, pos: nat, ghost rows: seq<seq<Entry>>, ghost k: nat) returns (r: Found, cur: nat)
    requires k < |rows| && rows[k] == EntriesOf(s) && pos % 24 == 0
    requires cur0 == 24 * Seen(rows, k, 0) <= pos
    ensures r.Some? ==> pos < 24 * |Listing(rows)| && r.e == Listing(rows)[pos / 24]
    ensures r.None? ==> cur == 24 * Seen(rows, k, 21) <= pos
  {
    cur := cur0;
    var j := 0;
    while j < 21
      invariant 0 <= j <= 21 && cur == 24 * Seen(rows, k, j) <= pos
    {
      var e := Load(s, j);
      SeenAt(rows, k, j);
      if e.ftype != FT_UNKNOWN {
        if cur < pos {
          cur := cur + 24;
        } else {
          assert cur == pos;
          return Some(e), cur;
        }
      }
      j := j + 1;
    }
    r := None;
  }

  /** The blocks that dir_read looks at: the direct ones, and those of the table if there is one. */
  function BlockCount(ino: Inode): (n: nat)
    requires |ino.sectors| == 13
    ensures n == 12 || n == 140
  {
    if ino.sectors[12] == 0 then 12 else 140
  }

  /** All slots of those blocks. */
  ghost function WholeImage(disk: Disk, ino: Inode): (rows: seq<seq<Entry>>)
    requires |ino.sectors| == 13
    ensures |rows| == BlockCount(ino)
    ensures forall k :: 0 <= k < |rows| ==> rows[k] == Row(disk, Addr(disk, ino, k)) && |rows[k]| == 21
  {
    seq(BlockCount(ino), k requires 0 <= k < BlockCount(ino) => Row(disk, Addr(disk, ino, k)))
  }

  /** Without a table these are the slots of the directory. */
  lemma WholeIsImage(disk: Disk, ino: Inode)
    requires |ino.sectors| == 13 && ino.sectors[12] == 0
    ensures WholeImage(disk, ino) == Image(disk, ino)
  {
  }

  /** The addresses that dir_read collects. */
  method AllBlocks(disk: Disk, ino: Inode) returns (all: seq<nat>)
    requires |ino.sectors| == 13
    ensures |all| == BlockCount(ino) && forall k :: 0 <= k < |all| ==> all[k] == Addr(disk, ino, k)
  {
    all := ino.sectors[..12];
    if ino.sectors[12] != 0 {
      var table := Read(disk, ino.sectors[12]);
      all := all + seq(128, k requires 0 <= k < 128 => TableAt(table, k));
    }
  }

  /** One block of dir_read. */
  method ReadBlock(disk: Disk, ghost ino: Inode, lba: nat, cur0: nat, pos: nat, ghost rows: seq<seq<Entry>>,
      ghost k: nat)
    returns (r: Found, cur: nat)
    requires |ino.sectors| == 13 && rows == WholeImage(disk, ino) && k < |rows| && lba == Addr(disk, ino, k)
    requires pos % 24 == 0
    requires cur0 == 24 * Seen(rows, k, 0) <= pos
    ensures r.Some? ==> pos < 24 * |Listing(rows)| && r.e == Listing(rows)[pos / 24]
    ensures r.None? ==> k + 1 < |rows| ==> cur == 24 * Seen(rows, k + 1, 0) <= pos
    ensures r.None? ==> k + 1 == |rows| ==> 24 * |Listing(rows)| <= pos
  {
    r, cur := None, cur0;
    if lba == 0 {
      NothingSeen(rows, k);
    } else {
      r, cur := ReadRow(Read(disk, lba), cur0, pos, rows, k);
    }
    SeenNext(rows, k);
    assert rows[..|rows|] == rows;
  }

  /** dir_read: the entry at directory position `pos`, and the next position. */
  method DirRead(disk: Disk, ino: Inode, pos: nat) returns (r: Found, pos1: nat)
    requires |ino.sectors| == 13 && ino.size == 24 * |Listing(WholeImage(disk, ino))| && pos % 24 == 0
    ensures pos < ino.size ==> r == Some(Listing(WholeImage(disk, ino))[pos / 24]) && pos1 == pos + 24
    ensures pos >= ino.size ==> r == None && pos1 == pos
  {
    ghost var rows := WholeImage(disk, ino);
    var all := AllBlocks(disk, ino);
    pos1 := pos;
    var cur := 0;
    var k := 0;
    assert rows[..0] == [] && rows[0][..0] == [];
    while k < |all|
      invariant 0 <= k <= |all| && pos1 == pos
      invariant k < |all| ==> cur == 24 * Seen(rows, k, 0) <= pos
      invariant k == |all| ==> 24 * |Listing(rows)| <= pos
    {
      if pos >= ino.size {
        return None, pos;
      }
      r, cur := ReadBlock(disk, ino, all[k], cur, pos, rows, k);
      if r.Some? {
        return r, pos + 24;
      }
      k := k + 1;
    }
    r := None;
  }

  lemma NothingSeen(rows: seq<seq<Entry>>, k: nat)
    requires k < |rows| && rows[k] == EmptyRow()
    ensures Seen(rows, k, 21) == Seen(rows, k, 0)
  {
    NoLive(rows[k]);
    assert rows[k][..21] == rows[k] && rows[k][..0] == [];
  }

  lemma {:induction false} NoLive(es: seq<Entry>)
    requires forall j :: 0 <= j < |es| ==> !Live(es[j])
    ensures Filter(es) == []
  {
    if es != [] {
      NoLive(es[..|es| - 1]);
    }
  }

  /** Reading from position 0 until the end gives the listing. */
  method ReadAll(disk: Disk, ino: Inode) returns (out: seq<Entry>)
    requires |ino.sectors| == 13 && ino.size == 24 * |Listing(WholeImage(disk, ino))|
    ensures out == Listing(WholeImage(disk, ino)) && (ino.sectors[12] == 0 ==> out == Listing(Image(disk, ino)))
  {
    out := [];
    var pos := 0;
    ghost var all := Listing(WholeImage(disk, ino));
    if ino.sectors[12] == 0 {
      WholeIsImage(disk, ino);
    }
    while true
      invariant pos == 24 * |out| && out <= all
      decreases |all| - |out|
    {
      var r;
      r, pos := DirRead(disk, ino, pos);
      if r.None? {
        return;
      }
      out := out + [r.e];
    }
  }

  /** No two entries of a listing have the same name. */
  ghost predicate DistinctNames(es: seq<Entry>) {
    forall a, b :: 0 <= a < b < |es| ==> es[a].name != es[b].name
  }

  lemma {:induction false} FilterDistinct(es: seq<Entry>)
    requires forall a,
             b :: 0 <= a < |es| && 0 <= b < |es| && Live(es[a]) && Live(es[b]) && es[a].name == es[b].name ==> a == b
    ensures DistinctNames(Filter(es))
  {
    if es != [] {
      var n := |es| - 1;
      FilterDistinct(es[..n]);
      forall a | 0 <= a < |Filter(es[..n])| && Live(es[n]) ensures Filter(es[..n])[a].name != es[n].name {
        FilterMember(es[..n], Filter(es[..n])[a]);
      }
    }
  }

  /** dir_read lists every entry once: the names in a listing are distinct. */
  lemma {:induction false} ListingDistinct(rows: seq<seq<Entry>>, n: nat)
    requires Grid(rows) && NamesOnce(rows) && n <= 12
    ensures DistinctNames(Listing(rows[..n]))
  {
    if n > 0 {
      ListingDistinct(rows, n - 1);
      var row := rows[n - 1];
      forall a, b | 0 <= a < 21 && 0 <= b < 21 && Live(row[a]) && Live(row[b]) && row[a].name == row[b].name
        ensures a == b {
        assert NamesDiffer(rows, n - 1, a, n - 1, b);
      }
      FilterDistinct(rows[n - 1]);
      assert rows[..n][..n - 1] == rows[..n - 1];
      var a, b := Listing(rows[..n - 1]), Filter(rows[n - 1]);
      forall x, y | 0 <= x < |a| && 0 <= y < |b| ensures a[x].name != b[y].name {
        ListingMember(rows[..n - 1], a[x]);
        FilterMember(rows[n - 1], b[y]);
        var m :| 0 <= m < n - 1 && a[x] in rows[m];
        var p :| 0 <= p < 21 && rows[m][p] == a[x];
        var q :| 0 <= q < 21 && rows[n - 1][q] == b[y];
        assert NamesDiffer(rows, m, p, n - 1, q);
      }
    }
  }

  // ----- empty directories

  /** Only "." and ".." are there. */
  ghost predicate OnlyDots(rows: seq<seq<Entry>>) {
    Grid(rows) && forall k, j :: 0 <= k < 12 && 0 <= j < 21 && Live(rows[k][j]) ==> DotSlot(k, j)
  }

  lemma {:induction false} NothingListed(rows: seq<seq<Entry>>)
    requires forall k, j :: 0 <= k < |rows| && 0 <= j < |rows[k]| ==> !Live(rows[k][j])
    ensures Listing(rows) == []
  {
    if rows != [] {
      NothingListed(rows[..|rows| - 1]);
      NoLive(rows[|rows| - 1]);
    }
  }

  lemma OnlyDotsListed(rows: seq<seq<Entry>>)
    requires Proper(rows) && OnlyDots(rows)
    ensures |Listing(rows)| == 2
  {
    var rows1 := Put(rows, 0, 0, NO_ENTRY);
    var rows2 := Put(rows1, 0, 1, NO_ENTRY);
    ListingUpdate(rows, 0, 0, NO_ENTRY);
    ListingUpdate(rows1, 0, 1, NO_ENTRY);
    forall k, j | 0 <= k < 12 && 0 <= j < |rows2[k]| ensures !Live(rows2[k][j]) {
      if !DotSlot(k, j) {
        assert rows2[k][j] == rows[k][j];
      }
    }
    NothingListed(rows2);
  }

  lemma MoreThanDots(rows: seq<seq<Entry>>, k: nat, j: nat)
    requires Proper(rows) && k < 12 && j < 21 && Live(rows[k][j]) && !DotSlot(k, j)
    ensures |Listing(rows)| > 2
  {
    var rows1 := Put(rows, k, j, NO_ENTRY);
    ListingUpdate(rows, k, j, NO_ENTRY);
    ListingMember(rows1, rows1[0][0]);
    ListingMember(rows1, rows1[0][1]);
    var l := Listing(rows1);
    var a :| 0 <= a < |l| && l[a] == rows[0][0];
    var b :| 0 <= b < |l| && l[b] == rows[0][1];
    assert a != b;
  }

  lemma TwoListed(rows: seq<seq<Entry>>)
    requires Proper(rows)
    ensures |Listing(rows)| == 2 <==> OnlyDots(rows)
  {
    if OnlyDots(rows) {
      OnlyDotsListed(rows);
    } else {
      var k, j :| 0 <= k < 12 && 0 <= j < 21 && Live(rows[k][j]) && !DotSlot(k, j);
      MoreThanDots(rows, k, j);
    }
  }

  /** dir_is_empty tells the truth. */
  lemma EmptyBySize(disk: Disk, ino: Inode)
    requires DirShape(disk, ino)
    ensures ino.size == 48 <==> OnlyDots(Image(disk, ino))
  {
    TwoListed(Image(disk, ino));
  }

  /** The assertions of dir_remove hold: an empty directory has its first block only. */
  lemma EmptyHasOneBlock(disk: Disk, ino: Inode, k: nat)
    requires DirShape(disk, ino) && ino.size == 48 && 1 <= k < 13
    ensures ino.sectors[k] == 0
  {
    EmptyBySize(disk, ino);
    assert k < 12 ==> !HasLive(Image(disk, ino)[k]);
  }
}
