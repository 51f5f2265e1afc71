/**
 The byte image of what the file system keeps in sectors: little-endian 32-bit words, tables of
 block addresses, 24-byte directory entries (fs/dir.h) and 76-byte inodes (fs/inode.h).

 Sizes are written as numbers: a sector has 512 bytes, 128 words or 21 entries; an entry has a name of
 16 bytes, an inode number and a type; an inode has 19 words, 13 of them block addresses.
 */
module Sectors {

  type Byte = b: int | 0 <= b < 256
  type Sector = s: seq<Byte> | |s| == 512 witness Zeros(512)
  type Word = w: int | 0 <= w < 0x1_0000_0000

  function Zeros(n: nat): (s: seq<Byte>)
    ensures |s| == n && forall i :: 0 <= i < n ==> s[i] == 0
  {
    seq(n, _ => 0)
  }

  /** memcpy(s + o, bs, |bs|) */
  function Patch(s: seq<Byte>, o: nat, bs: seq<Byte>): (r: seq<Byte>)
    requires o + |bs| <= |s|
    ensures |r| == |s|
    ensures forall i :: 0 <= i < |s| ==> r[i] == if o <= i < o + |bs| then bs[i - o] else s[i]
  {
    s[..o] + bs + s[o + |bs|..]
  }

  // ----- words

  function WordAt(s: seq<Byte>, o: nat): (w: Word)
    requires o + 4 <= |s|
  {
    (s[o] as int) + 0x100 * (s[o + 1] as int) + 0x10000 * (s[o + 2] as int) + 0x1000000 * (s[o + 3] as int)
  }

  function WordBytes(w: Word): (bs: seq<Byte>)
    ensures |bs| == 4
  {
    [w % 0x100, w / 0x100 % 0x100, w / 0x10000 % 0x100, w / 0x1000000]
  }

  lemma WordRoundTrip(w: Word, s: seq<Byte>, o: nat)
    requires o + 4 <= |s| && s[o..o + 4] == WordBytes(w)
    ensures WordAt(s, o) == w
  {
    var bs := WordBytes(w);
    assert s[o] == s[o..o + 4][0] && s[o + 1] == s[o..o + 4][1];
    assert s[o + 2] == s[o..o + 4][2] && s[o + 3] == s[o..o + 4][3];
    assert w / 0x100 / 0x100 == w / 0x10000;
    assert w / 0x10000 / 0x100 == w / 0x1000000;
    assert w == w % 0x100 + 0x100 * (w / 0x100);
    assert w / 0x100 == w / 0x100 % 0x100 + 0x100 * (w / 0x10000);
    assert w / 0x10000 == w / 0x10000 % 0x100 + 0x100 * (w / 0x1000000);
  }

  /** The image of an array of words. */
  function EncWords(ws: seq<Word>): (bs: seq<Byte>)
    ensures |bs| == 4 * |ws|
  {
    if ws == [] then [] else EncWords(ws[..|ws| - 1]) + WordBytes(ws[|ws| - 1])
  }

  lemma {:induction false} EncWordsAt(ws: seq<Word>, k: nat)
    requires k < |ws|
    ensures EncWords(ws)[4 * k..4 * k + 4] == WordBytes(ws[k])
    ensures WordAt(EncWords(ws), 4 * k) == ws[k]
  {
    var n := |ws| - 1;
    if k < n {
      EncWordsAt(ws[..n], k);
      assert EncWords(ws)[4 * k..4 * k + 4] == EncWords(ws[..n])[4 * k..4 * k + 4];
    }
    WordRoundTrip(ws[k], EncWords(ws), 4 * k);
  }

  // ----- tables of block addresses: 128 words in a sector

  function TableAt(s: Sector, k: nat): (w: Word)
    requires k < 128
  {
    WordAt(s, 4 * k)
  }

  function EncTable(ws: seq<Word>): (s: Sector)
    requires |ws| == 128
    ensures forall k :: 0 <= k < 128 ==> TableAt(s, k) == ws[k]
  {
    assert forall k | 0 <= k < 128 :: WordAt(EncWords(ws), 4 * k) == ws[k] by {
      forall k | 0 <= k < 128 ensures WordAt(EncWords(ws), 4 * k) == ws[k] { EncWordsAt(ws, k); }
    }
    EncWords(ws)
  }

  // ----- directory entries

  datatype Entry = Entry(name: string, ino: nat, ftype: nat)

  const FT_UNKNOWN := 0
  const FT_REGULAR := 1
  const FT_DIRECTORY := 2

  const NO_ENTRY := Entry("", 0, FT_UNKNOWN)

  /** A name that fits the entry with its terminating zero. */
  predicate FitsName(n: string) {
    |n| < 16 && forall i :: 0 <= i < |n| ==> 0 < n[i] as int < 256
  }

  predicate FitsEntry(e: Entry) {
    FitsName(e.name) && e.ino < 0x1_0000_0000 && e.ftype < 0x1_0000_0000
  }

  /** The C string in a buffer: the bytes before the first zero. */
  function CString(s: seq<Byte>): (r: string)
    ensures |r| <= |s|
  {
    if s == [] || s[0] == 0 then "" else [s[0] as char] + CString(s[1..])
  }

  function NameBytes(n: string): (bs: seq<Byte>)
    requires FitsName(n)
    ensures |bs| == |n|
  {
    seq(|n|, i requires 0 <= i < |n| => n[i] as int)
  }

  function EncEntry(e: Entry): (bs: seq<Byte>)
    requires FitsEntry(e)
    ensures |bs| == 24
  {
    NameBytes(e.name) + Zeros(16 - |e.name|) + WordBytes(e.ino) + WordBytes(e.ftype)
  }

  function DecEntry(bs: seq<Byte>): (e: Entry)
    requires |bs| == 24
  {
    Entry(CString(bs[..16]), WordAt(bs, 16), WordAt(bs, 20))
  }

  lemma {:induction false} CStringOf(bs: seq<Byte>, name: string)
    requires |name| < |bs| && FitsName(name) && bs[..|name|] == NameBytes(name) && bs[|name|] == 0
    ensures CString(bs) == name
  {
    if name != "" {
      assert bs[0] == bs[..|name|][0] == name[0] as int;
      assert bs[1..][..|name[1..]|] == bs[..|name|][1..] == NameBytes(name)[1..] == NameBytes(name[1..]);
      CStringOf(bs[1..], name[1..]);
      assert name == [name[0]] + name[1..];
    }
  }

  lemma EntryRoundTrip(e: Entry)
    requires FitsEntry(e)
    ensures DecEntry(EncEntry(e)) == e
  {
    var bs := EncEntry(e);
    assert bs[..16] == NameBytes(e.name) + Zeros(16 - |e.name|);
    CStringOf(bs[..16], e.name);
    assert bs[16..20] == WordBytes(e.ino);
    WordRoundTrip(e.ino, bs, 16);
    assert bs[20..24] == WordBytes(e.ftype);
    WordRoundTrip(e.ftype, bs, 20);
  }

  function EntryAt(s: Sector, j: nat): (e: Entry)
    requires j < 21
  {
    DecEntry(s[24 * j..24 * j + 24])
  }

  /** memcpy of one entry into slot `j` of a sector. */
  function PutEntry(s: Sector, j: nat, e: Entry): (r: Sector)
    requires j < 21 && FitsEntry(e)
  {
    Patch(s, 24 * j, EncEntry(e))
  }

  lemma PutEntryAt(s: Sector, j: nat, e: Entry, k: nat)
    requires j < 21 && k < 21 && FitsEntry(e)
    ensures EntryAt(PutEntry(s, j, e), k) == if k == j then e else EntryAt(s, k)
  {
    var r := PutEntry(s, j, e);
    var lo, hi := 24 * k, 24 * k + 24;
    if k == j {
      assert r[lo..hi] == EncEntry(e);
      EntryRoundTrip(e);
    } else {
      assert r[lo..hi] == s[lo..hi];
    }
  }

  /** memset of one slot to zero is the same as putting the empty entry. */
  lemma ClearEntry(s: Sector, j: nat)
    requires j < 21
    ensures Patch(s, 24 * j, Zeros(24)) == PutEntry(s, j, NO_ENTRY)
  {
    assert EncEntry(NO_ENTRY) == Zeros(24);
  }

  lemma ZeroSectorEntry(s: Sector, j: nat)
    requires s == Zeros(512) && j < 21
    ensures EntryAt(s, j) == NO_ENTRY
  {
    assert s[24 * j..24 * j + 24] == Zeros(24) == EncEntry(NO_ENTRY);
    EntryRoundTrip(NO_ENTRY);
  }

  /** All entries in a buffer. */
  function EntriesOf(bs: seq<Byte>): (es: seq<Entry>)
    ensures 24 * |es| <= |bs| < 24 * |es| + 24
  {
    if |bs| < 24 then []
    else if |bs| < 48 then [DecEntry(bs[..24])]
    else EntriesOf(bs[..24]) + EntriesOf(bs[24..])
  }

  lemma {:induction false} EntriesAt(bs: seq<Byte>, j: nat)
    requires 24 * j + 24 <= |bs|
    ensures j < |EntriesOf(bs)| && EntriesOf(bs)[j] == DecEntry(bs[24 * j..24 * j + 24])
  {
    if j > 0 {
      EntriesAt(bs[24..], j - 1);
      assert bs[24..][24 * (j - 1)..24 * (j - 1) + 24] == bs[24 * j..24 * j + 24];
    } else if |bs| >= 48 {
      assert bs[..24][..24] == bs[..24];
      assert EntriesOf(bs[..24]) == [DecEntry(bs[..24])];
    }
  }

  lemma EntriesPut(s: Sector, j: nat, e: Entry)
    requires j < 21 && FitsEntry(e)
    ensures |EntriesOf(s)| == 21 && EntriesOf(PutEntry(s, j, e)) == EntriesOf(s)[j := e]
  {
    var es, es1 := EntriesOf(s), EntriesOf(PutEntry(s, j, e));
    forall k | 0 <= k < 21 ensures es1[k] == es[j := e][k] {
      PutEntryAt(s, j, e, k);
      EntriesAt(s, k);
      EntriesAt(PutEntry(s, j, e), k);
    }
  }

  lemma EntriesZero(s: Sector)
    requires s == Zeros(512)
    ensures EntriesOf(s) == seq(21, _ => NO_ENTRY)
  {
    forall k | 0 <= k < 21 ensures EntriesOf(s)[k] == NO_ENTRY {
      ZeroSectorEntry(s, k);
      EntriesAt(s, k);
    }
  }

  // ----- inodes

  datatype Inode = Inode(no: nat, size: nat, sectors: seq<nat>)

  predicate FitsInode(i: Inode) {
    && |i.sectors| == 13 && i.no < 0x1_0000_0000 && i.size < 0x1_0000_0000
    && forall k :: 0 <= k < 13 ==> i.sectors[k] < 0x1_0000_0000
  }

  /** The inode as it goes to disk: open count, write-deny flag and list links cleared. */
  function InodeWords(i: Inode): (ws: seq<Word>)
    requires FitsInode(i)
    ensures |ws| == 19
  {
    var sectors: seq<Word> := seq(13, k requires 0 <= k < 13 => i.sectors[k]);
    [i.no, i.size, 0, 0] + sectors + [0, 0]
  }

  function EncInode(i: Inode): (bs: seq<Byte>)
    requires FitsInode(i)
    ensures |bs| == 76
  {
    EncWords(InodeWords(i))
  }

  function DecInode(bs: seq<Byte>): (i: Inode)
    requires |bs| == 76
  {
    Inode(WordAt(bs, 0), WordAt(bs, 4), seq(13, k requires 0 <= k < 13 => WordAt(bs, 16 + 4 * k)))
  }

  lemma InodeRoundTrip(i: Inode)
    requires FitsInode(i)
    ensures DecInode(EncInode(i)) == i
  {
    var bs, ws := EncInode(i), InodeWords(i);
    EncWordsAt(ws, 0);
    EncWordsAt(ws, 1);
    forall k | 0 <= k < 13
      ensures DecInode(bs).sectors[k] == i.sectors[k]
    {
      EncWordsAt(ws, 4 + k);
      assert 4 * (4 + k) == 16 + 4 * k;
      assert ws[4 + k] == i.sectors[k];
    }
    assert DecInode(bs).sectors == i.sectors;
  }
}
