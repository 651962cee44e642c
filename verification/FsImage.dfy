/** The file system as blocks of a disk: bitmap, inode blocks (`struct dinode`) and data. */
module FsImage {
  import opened Words
  import opened FsLayout
  import opened FsCache
  import opened FsChunks

  // ----- bitmap blocks -----

  function BitOf(x: nat, i: nat): bool { if i == 0 then x % 2 == 1 else BitOf(x / 2, i - 1) }

  /** x with bit i set or cleared. */
  function PutBit(x: nat, i: nat, on: bool): nat {
    if i == 0 then x / 2 * 2 + (if on then 1 else 0) else x % 2 + 2 * PutBit(x / 2, i - 1, on)
  }

  function Pow2(n: nat): nat { if n == 0 then 1 else 2 * Pow2(n - 1) }

  lemma {:induction false} PutBitFits(x: nat, i: nat, on: bool, n: nat)
    requires x < Pow2(n) && i < n
    ensures PutBit(x, i, on) < Pow2(n)
  {
    if i > 0 { PutBitFits(x / 2, i - 1, on, n - 1); }
  }

  lemma {:induction false} BitAfterPut(x: nat, i: nat, on: bool, j: nat)
    ensures BitOf(PutBit(x, i, on), j) == if j == i then on else BitOf(x, j)
  {
    if i > 0 && j > 0 { BitAfterPut(x / 2, i - 1, on, j - 1); }
  }

  lemma ByteFits(x: byte, i: nat, on: bool)
    requires i < 8
    ensures PutBit(x, i, on) < 256
  {
    assert Pow2(2) == 4 && Pow2(4) == 16 && Pow2(6) == 64 && Pow2(8) == 256;
    PutBitFits(x, i, on, 8);
  }

  function BitAt(v: Block, k: nat): bool
    requires k < BPB
  {
    BitOf(v[k / 8], k % 8)
  }

  /** What balloc() and bfree() do to a bitmap block. */
  function SetBit(v: Block, k: nat, on: bool): Block
    requires k < BPB
  {
    ByteFits(v[k / 8], k % 8, on);
    v[k / 8 := PutBit(v[k / 8], k % 8, on)]
  }

  /** Setting or clearing a bit changes that bit and no other. */
  lemma BitAfterSet(v: Block, k: nat, on: bool, j: nat)
    requires k < BPB && j < BPB
    ensures BitAt(SetBit(v, k, on), j) == if j == k then on else BitAt(v, j)
  {
    if j / 8 == k / 8 { BitAfterPut(v[k / 8], k % 8, on, j % 8); }
  }

  // ----- inode blocks -----

  /** Words of a `struct dinode`: type and major, minor and nlink, size, addresses. */
  const DWORDS := 16

  function InodeAt(v: Block, s: nat): Inode
    requires s < IPB
  {
    Inode(Word(v, At(s, 0)) % 0x1_0000, Word(v, At(s, 1)) / 0x1_0000, Word(v, At(s, 2)),
          seq<nat>(NDIRECT + 1, k requires 0 <= k <= NDIRECT => Word(v, At(s, k + 3))))
  }

  /** Word k of inode s. */
  function At(s: nat, k: nat): nat { DWORDS * s + k }

  function SetWords(v: Block, at: nat, ws: seq<uint>): Block
    requires at + |ws| <= WORDS
    decreases |ws|
  {
    if ws == [] then v else SetWords(SetWord(v, at, ws[0]), at + 1, ws[1..])
  }

  lemma {:induction false} WordAfterSets(v: Block, at: nat, ws: seq<uint>, j: nat)
    requires at + |ws| <= WORDS && j < WORDS
    ensures Word(SetWords(v, at, ws), j) == if at <= j < at + |ws| then ws[j - at] else Word(v, j)
    decreases |ws|
  {
    if ws != [] {
      WordAfterSets(SetWord(v, at, ws[0]), at + 1, ws[1..], j);
      WordAfterSet(v, at, ws[0], j);
    }
  }

  /** The inode's fields fit those of a `struct dinode`. */
  ghost predicate InodeFits(ip: Inode) {
    && ip.kind < 0x1_0000 && ip.nlink < 0x1_0000 && ip.size < 0x1_0000_0000 && |ip.addrs| == NDIRECT + 1
    && forall k :: 0 <= k <= NDIRECT ==> ip.addrs[k] < 0x1_0000_0000
  }

  /** The words iupdate() stores; major and minor stay. */
  ghost function InodeWords(v: Block, s: nat, ip: Inode): (ws: seq<uint>)
    requires s < IPB && InodeFits(ip)
    ensures |ws| == DWORDS
  {
    [Word(v, At(s, 0)) / 0x1_0000 * 0x1_0000 + ip.kind, Word(v, At(s, 1)) % 0x1_0000 + 0x1_0000 * ip.nlink, ip.size]
    + seq(NDIRECT + 1, k requires 0 <= k <= NDIRECT => ip.addrs[k])
  }

  ghost function SetInode(v: Block, s: nat, ip: Inode): Block
    requires s < IPB && InodeFits(ip)
  {
    SetWords(v, DWORDS * s, InodeWords(v, s, ip))
  }

  /** Storing an inode changes that inode and no other. */
  lemma InodeAfterSet(v: Block, s: nat, ip: Inode, u: nat)
    requires s < IPB && u < IPB && InodeFits(ip)
    ensures InodeAt(SetInode(v, s, ip), u) == if u == s then ip else InodeAt(v, u)
  {
    var ws, v' := InodeWords(v, s, ip), SetInode(v, s, ip);
    forall k | 0 <= k < DWORDS
      ensures Word(v', At(u, k)) == if u == s then ws[k] else Word(v, At(u, k))
    {
      WordAfterSets(v, DWORDS * s, ws, At(u, k));
    }
    assert InodeAt(v', u).addrs == if u == s then ip.addrs else InodeAt(v, u).addrs;
  }

  // ----- disks -----

  /** v is what block b of a disk with the file system fs is; the log and the boot block can be anything. */
  ghost predicate BlockHolds(sb: Super, fs: Fs, b: nat, v: Block) {
    && (sb.datastart <= b < |fs.data| ==> v == fs.data[b])
    && (forall c :: 0 <= c < |fs.bits| && BBlock(sb, c) == b ==> BitAt(v, c % BPB) == fs.bits[c])
    && (forall i :: 0 <= i < |fs.inodes| && IBlock(sb, i) == b ==> InodeAt(v, i % IPB) == fs.inodes[i])
  }

  ghost predicate DiskHolds(sb: Super, fs: Fs, d: seq<Block>) {
    |d| == |fs.data| == |fs.bits| && forall b :: 0 <= b < |d| ==> BlockHolds(sb, fs, b, d[b])
  }

  /** n inodes, then the bitmap, then the data, none of it in the first `low` blocks. */
  ghost predicate Placed(sb: Super, n: nat, low: nat) {
    && low <= sb.inodestart <= sb.bmapstart <= sb.datastart <= sb.size
    && (forall i :: 0 <= i < n ==> IBlock(sb, i) < sb.bmapstart)
    && (forall c :: 0 <= c < sb.size ==> BBlock(sb, c) < sb.datastart)
  }

  /** Blocks a call did not log are the same before and after it. */
  lemma Unlogged(sb: Super, fs: Fs, fs': Fs, logged: set<nat>, b: nat, v: Block)
    requires RecordedAll(sb, fs, fs', logged) && b !in logged && BlockHolds(sb, fs, b, v)
    ensures BlockHolds(sb, fs', b, v)
  {}

  /** The file system on a disk. */
  ghost function FsOn(sb: Super, n: nat, d: seq<Block>): Fs
    requires Placed(sb, n, 0) && |d| == sb.size
  {
    Fs(seq(|d|, c requires 0 <= c < |d| => BitAt(d[BBlock(sb, c)], c % BPB)), d,
       seq(n, i requires 0 <= i < n => InodeAt(d[IBlock(sb, i)], i % IPB)))
  }

  /** The disk determines the files. */
  lemma DiskFiles(sb: Super, fs: Fs, d: seq<Block>)
    requires Sound(sb, fs) && Placed(sb, |fs.inodes|, 0) && DiskHolds(sb, fs, d) && |d| == sb.size
    ensures AllMapped(sb, fs) && AllMapped(sb, FsOn(sb, |fs.inodes|, d))
    ensures Files(sb, FsOn(sb, |fs.inodes|, d)) == Files(sb, fs)
  {
    var fs' := FsOn(sb, |fs.inodes|, d);
    forall i | 0 <= i < |fs.inodes|
      ensures fs'.inodes[i] == fs.inodes[i]
    {
      assert BlockHolds(sb, fs, IBlock(sb, i), d[IBlock(sb, i)]);
    }
    assert fs'.inodes == fs.inodes;
    forall b | sb.datastart <= b < sb.size
      ensures d[b] == fs.data[b]
    {
      assert BlockHolds(sb, fs, b, d[b]);
    }
    var owner :| FsInv(sb, fs, owner);
    SameFiles(sb, fs, owner, fs');
  }

  /** Files are a matter of the inodes and the data blocks. */
  lemma SameFiles(sb: Super, fs: Fs, owner: map<nat, Slot>, fs': Fs)
    requires FsInv(sb, fs, owner) && |fs'.bits| == |fs'.data| == sb.size && fs'.inodes == fs.inodes
    requires forall b :: sb.datastart <= b < sb.size ==> fs'.data[b] == fs.data[b]
    ensures AllMapped(sb, fs') && Files(sb, fs') == Files(sb, fs)
  {
    forall i, k | IsSlot(fs, i, k)
      ensures Ref(sb, fs', i, k) == Ref(sb, fs, i, k)
    {
      assert IsSlot(fs, i, INDIRECT) && Ref(sb, fs, i, INDIRECT) == fs.inodes[i].addrs[INDIRECT];
    }
    forall i | 0 <= i < |fs.inodes|
      ensures Mapped(sb, fs', i) && Content(sb, fs', i) == Content(sb, fs, i)
    {
      assert Mapped(sb, fs, i);
      forall n | 0 <= n < MAXFILE && n * BSIZE < fs.inodes[i].size
        ensures Ref(sb, fs', i, SlotOf(n)) != 0
      {
        assert IsSlot(fs, i, SlotOf(n));
      }
      forall p | 0 <= p < fs.inodes[i].size
        ensures ByteAt(sb, fs', i, p) == ByteAt(sb, fs, i, p)
      {
        assert IsSlot(fs, i, SlotOf(p / BSIZE));
      }
    }
    assert AllMapped(sb, fs');
  }

  // ----- a disk for the next version -----

  /** Inodes are in the same place only if they are the same. */
  lemma PlaceOf(a: nat, b: nat, n: nat)
    requires n > 0 && a / n == b / n && a % n == b % n
    ensures a == b
  {
    assert a == a / n * n + a % n && b == b / n * n + b % n;
  }

  lemma {:induction false} InodeBlock(sb: Super, fs: Fs, n: nat, b: nat, v: Block) returns (v': Block)
    requires n <= |fs.inodes| && forall i :: 0 <= i < |fs.inodes| ==> InodeFits(fs.inodes[i])
    ensures forall i :: 0 <= i < n && IBlock(sb, i) == b ==> InodeAt(v', i % IPB) == fs.inodes[i]
  {
    if n == 0 { return v; }
    v' := InodeBlock(sb, fs, n - 1, b, v);
    if IBlock(sb, n - 1) == b {
      var before := v';
      v' := SetInode(before, (n - 1) % IPB, fs.inodes[n - 1]);
      forall i | 0 <= i < n && IBlock(sb, i) == b
        ensures InodeAt(v', i % IPB) == fs.inodes[i]
      {
        InodeAfterSet(before, (n - 1) % IPB, fs.inodes[n - 1], i % IPB);
        if i % IPB == (n - 1) % IPB { PlaceOf(i, n - 1, IPB); }
      }
    }
  }

  lemma {:induction false} BitBlock(sb: Super, fs: Fs, n: nat, b: nat, v: Block) returns (v': Block)
    requires n <= |fs.bits|
    ensures forall c :: 0 <= c < n && BBlock(sb, c) == b ==> BitAt(v', c % BPB) == fs.bits[c]
  {
    if n == 0 { return v; }
    v' := BitBlock(sb, fs, n - 1, b, v);
    if BBlock(sb, n - 1) == b {
      var before := v';
      v' := SetBit(before, (n - 1) % BPB, fs.bits[n - 1]);
      forall c | 0 <= c < n && BBlock(sb, c) == b
        ensures BitAt(v', c % BPB) == fs.bits[c]
      {
        BitAfterSet(before, (n - 1) % BPB, fs.bits[n - 1], c % BPB);
        if c % BPB == (n - 1) % BPB { PlaceOf(c, n - 1, BPB); }
      }
    }
  }

  /** Stores of inodes and bits make any block what it should be. */
  lemma BlockImage(sb: Super, fs: Fs, b: nat, v: Block) returns (v': Block)
    requires Placed(sb, |fs.inodes|, 0) && |fs.data| == |fs.bits| == sb.size
    requires forall i :: 0 <= i < |fs.inodes| ==> InodeFits(fs.inodes[i])
    ensures BlockHolds(sb, fs, b, v')
  {
    if sb.datastart <= b < |fs.data| {
      v' := fs.data[b];
    } else if b < sb.bmapstart {
      v' := InodeBlock(sb, fs, |fs.inodes|, b, v);
    } else {
      v' := BitBlock(sb, fs, |fs.bits|, b, v);
    }
  }

  /** Writing the blocks that a call logged, and no other, takes a disk to the version after the call. */
  lemma NextDisk(sb: Super, fs: Fs, fs': Fs, logged: set<nat>, d: seq<Block>) returns (d': seq<Block>)
    requires Placed(sb, |fs.inodes|, 0) && |fs.data| == |fs.bits| == sb.size
    requires DiskHolds(sb, fs, d) && RecordedAll(sb, fs, fs', logged)
    requires forall i :: 0 <= i < |fs'.inodes| ==> InodeFits(fs'.inodes[i])
    ensures DiskHolds(sb, fs', d') && forall b :: 0 <= b < |d| && b !in logged ==> d'[b] == d[b]
  {
    d' := [];
    for b := 0 to |d|
      invariant |d'| == b
      invariant forall c :: 0 <= c < b ==> BlockHolds(sb, fs', c, d'[c]) && (c !in logged ==> d'[c] == d[c])
    {
      assert BlockHolds(sb, fs, b, d[b]);
      if b in logged {
        var v := BlockImage(sb, fs', b, d[b]);
        d' := d' + [v];
      } else {
        Unlogged(sb, fs, fs', logged, b, d[b]);
        d' := d' + [d[b]];
      }
    }
  }
}
