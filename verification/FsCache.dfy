/**
 Writes cut short. When the source of a write() faults, writei() gives up the
 buffer of the block it was filling without log_write(): some of the bytes are in
 the buffer, but not in the log. If the buffer is recycled they are gone, and if the
 block gets into a transaction they are there to stay.
 */
module FsCache {
  import opened Words
  import opened FsLayout

  // ----- buffers that differ from the log -----

  /** `stale[b]` is what was logged last of block b, whose buffer has changed since: a data block, or a free one. */
  ghost predicate StaleOk(sb: Super, fs: Fs, owner: map<nat, Slot>, stale: map<nat, Block>) {
    forall b :: b in stale ==> sb.datastart <= b < sb.size && (b in owner ==> owner[b].k != INDIRECT)
  }

  /** The file system with other contents of one block. */
  function WithBlock(fs: Fs, b: nat, v: Block): Fs
    requires b < |fs.data|
  {
    fs.(data := fs.data[b := v])
  }

  /** The file system as it is in the log and on disk. */
  ghost function Settled(fs: Fs, stale: map<nat, Block>): Fs {
    fs.(data := seq(|fs.data|, b requires 0 <= b < |fs.data| => if b in stale then stale[b] else fs.data[b]))
  }

  lemma SettledOne(fs: Fs, b: nat, v: Block)
    requires b < |fs.data|
    ensures Settled(fs, map[b := v]) == WithBlock(fs, b, v) && Settled(fs, map[]) == fs
  {}

  ghost predicate LoggedAs(sb: Super, fs: Fs, stale: map<nat, Block>, files: seq<File>) {
    AllMapped(sb, Settled(fs, stale)) && Files(sb, Settled(fs, stale)) == files
  }

  /** What is stale after a call: blocks that it logged are not, and the one it left half written is. */
  function Restale(stale: map<nat, Block>, logged: set<nat>, hit: nat, was: Block): map<nat, Block> {
    var kept := map b | b in stale && b !in logged :: stale[b];
    if hit == 0 then kept else if hit in kept then kept else kept[hit := was]
  }

  lemma StaleStays(sb: Super, fs0: Fs, owner0: map<nat, Slot>, fs: Fs, owner: map<nat, Slot>, b: nat)
    requires Owned(sb, fs0, owner0) && Owned(sb, fs, owner) && |fs.inodes| == |fs0.inodes|
    requires forall j, l :: IsSlot(fs0, j, l) && Ref(sb, fs0, j, l) != 0 ==> Ref(sb, fs, j, l) == Ref(sb, fs0, j, l)
    requires sb.datastart <= b < sb.size && (b in owner0 ==> owner0[b].k != INDIRECT) && (fs.bits[b] ==> fs0.bits[b])
    ensures b in owner ==> owner[b].k != INDIRECT
  {
    if b in owner {
      assert b in owner0;
      var s := owner0[b];
      assert IsSlot(fs0, s.inum, s.k) && Ref(sb, fs0, s.inum, s.k) == b;
      assert IsSlot(fs, s.inum, s.k) && Ref(sb, fs, s.inum, s.k) == b;
    }
  }

  lemma RestaleOk(sb: Super, fs0: Fs, owner0: map<nat, Slot>, fs: Fs, owner: map<nat, Slot>,
                  stale: map<nat, Block>, logged: set<nat>, hit: nat, was: Block)
    requires Owned(sb, fs0, owner0) && Owned(sb, fs, owner) && |fs.inodes| == |fs0.inodes|
    requires forall j, l :: IsSlot(fs0, j, l) && Ref(sb, fs0, j, l) != 0 ==> Ref(sb, fs, j, l) == Ref(sb, fs0, j, l)
    requires StaleOk(sb, fs0, owner0, stale) && (hit != 0 ==> hit in owner && owner[hit].k != INDIRECT)
    requires RecordedBut(sb, fs0, fs, logged, hit, was)
    ensures StaleOk(sb, fs, owner, Restale(stale, logged, hit, was))
  {
    forall b | b in Restale(stale, logged, hit, was)
      ensures sb.datastart <= b < sb.size && (b in owner ==> owner[b].k != INDIRECT)
    {
      if b != hit || hit == 0 { StaleStays(sb, fs0, owner0, fs, owner, b); }
    }
  }

  /** All changes were logged, but that of the block `hit`, if it is not 0, which was `was` before. */
  ghost predicate RecordedBut(sb: Super, fs0: Fs, fs: Fs, logged: set<nat>, hit: nat, was: Block) {
    if hit == 0 then Recorded(sb, fs0, fs, logged)
    else hit < |fs.data| && Recorded(sb, fs0, WithBlock(fs, hit, was), logged)
  }

  /** Inodes too. */
  ghost predicate RecordedAll(sb: Super, fs: Fs, fs': Fs, logged: set<nat>) {
    && Recorded(sb, fs, fs', logged) && |fs'.inodes| == |fs.inodes|
    && forall i :: 0 <= i < |fs.inodes| && fs'.inodes[i] != fs.inodes[i] ==> IBlock(sb, i) in logged
  }

  /** In the log, nothing has changed but what the call logged. */
  lemma SettledRecorded(sb: Super, fs0: Fs, stale: map<nat, Block>, fs: Fs, logged: set<nat>, hit: nat, was: Block)
    requires RecordedBut(sb, fs0, fs, logged, hit, was)
    ensures Recorded(sb, Settled(fs0, stale), Settled(fs, Restale(stale, logged, hit, was)), logged)
  {
    var stale' := Restale(stale, logged, hit, was);
    forall b | 0 <= b < |fs.data| && b !in logged
      ensures Settled(fs, stale').data[b] == Settled(fs0, stale).data[b]
    {
      if b !in stale && b != hit { assert fs.data[b] == fs0.data[b]; }
    }
  }

  lemma TruncateRecorded(sb: Super, fs0: Fs, fs: Fs, stale: map<nat, Block>, owner: map<nat, Slot>, i: nat,
                         logged: set<nat>)
    requires i < |fs0.inodes| && fs.data == fs0.data && fs.inodes == fs0.inodes[i := Truncate(fs0.inodes[i])]
    requires Freed(sb, fs0, fs.bits, owner, i, NDIRECT + 1, NINDIRECT) && BitsRecorded(sb, fs0.bits, fs.bits, logged)
    ensures RecordedAll(sb, Settled(fs0, stale), Settled(fs, stale), logged + {IBlock(sb, i)})
  {
    assert Settled(fs, stale).data == Settled(fs0, stale).data;
  }

  /** The log's view of the file system is consistent too. */
  lemma SettledInv(sb: Super, fs: Fs, owner: map<nat, Slot>, stale: map<nat, Block>)
    requires FsInv(sb, fs, owner) && StaleOk(sb, fs, owner, stale)
    ensures FsInv(sb, Settled(fs, stale), owner)
  {
    var fs' := Settled(fs, stale);
    forall j, l | IsSlot(fs, j, l)
      ensures Ref(sb, fs', j, l) == Ref(sb, fs, j, l)
    {
      var ind := fs.inodes[j].addrs[INDIRECT];
      assert IsSlot(fs, j, INDIRECT) && Ref(sb, fs, j, INDIRECT) == ind;
      if ind != 0 { assert ind in owner && ind !in stale; }
    }
    forall j | 0 <= j < |fs.inodes|
      ensures Mapped(sb, fs', j)
    {
      assert Mapped(sb, fs, j);
      forall n | 0 <= n < MAXFILE && n * BSIZE < fs.inodes[j].size
        ensures Ref(sb, fs', j, SlotOf(n)) != 0
      {
        assert IsSlot(fs, j, SlotOf(n));
      }
    }
  }

  // ----- recycling such a buffer -----

  /** The files with other contents of block bn of file i. */
  ghost function Reblocked(files: seq<File>, i: nat, bn: nat, v: Block): seq<File>
    requires i < |files|
  {
    var c := files[i].content;
    var c' := seq(|c|, p requires 0 <= p < |c| => if p / BSIZE == bn then v[p % BSIZE] else c[p]);
    files[i := files[i].(content := c')]
  }

  /** The file block that a data slot is for. */
  function BlockOf(k: nat): (bn: nat)
    requires k < SLOTS && k != INDIRECT
    ensures bn < MAXFILE && SlotOf(bn) == k
  {
    if k < NDIRECT then k else k - 1
  }

  lemma RevertedMapped(sb: Super, fs: Fs, owner: map<nat, Slot>, b: nat, v: Block, i: nat, bn: nat, j: nat)
    requires FsInv(sb, fs, owner) && bn < MAXFILE && b in owner && owner[b] == Slot(i, SlotOf(bn)) && j < |fs.inodes|
    ensures Shape(sb, WithBlock(fs, b, v)) && Mapped(sb, WithBlock(fs, b, v), j)
  {
    DataWrite(sb, fs, owner, i, bn, v);
    var fs' := WithBlock(fs, b, v);
    assert Mapped(sb, fs, j);
    forall n | 0 <= n < MAXFILE && n * BSIZE < fs.inodes[j].size
      ensures Ref(sb, fs', j, SlotOf(n)) != 0
    {
      assert IsSlot(fs, j, SlotOf(n));
    }
  }

  /** File j with other contents of a block of file i. */
  lemma RevertedContent(sb: Super, fs: Fs, owner: map<nat, Slot>, b: nat, v: Block, i: nat, bn: nat, j: nat)
    requires FsInv(sb, fs, owner) && bn < MAXFILE && b in owner && owner[b] == Slot(i, SlotOf(bn)) && j < |fs.inodes|
    requires Shape(sb, WithBlock(fs, b, v)) && Mapped(sb, WithBlock(fs, b, v), j)
    ensures var c := Content(sb, fs, j);
            Content(sb, WithBlock(fs, b, v), j) ==
              if j == i then seq(|c|, p requires 0 <= p < |c| => if p / BSIZE == bn then v[p % BSIZE] else c[p]) else c
  {
    DataWrite(sb, fs, owner, i, bn, v);
    var c, fs' := Content(sb, fs, j), WithBlock(fs, b, v);
    forall p | 0 <= p < |c|
      ensures Content(sb, fs', j)[p] == if j == i && p / BSIZE == bn then v[p % BSIZE] else c[p]
    {
      assert ByteAt(sb, fs', j, p) == if j == i && p / BSIZE == bn then v[p % BSIZE] else ByteAt(sb, fs, j, p);
    }
  }

  lemma RevertOwned(sb: Super, fs: Fs, owner: map<nat, Slot>, b: nat, v: Block)
    requires FsInv(sb, fs, owner) && b in owner && owner[b].k != INDIRECT
    ensures FsInv(sb, WithBlock(fs, b, v), owner)
    ensures Files(sb, WithBlock(fs, b, v)) == Reblocked(Files(sb, fs), owner[b].inum, BlockOf(owner[b].k), v)
  {
    var i, bn := owner[b].inum, BlockOf(owner[b].k);
    DataWrite(sb, fs, owner, i, bn, v);
    forall j | 0 <= j < |fs.inodes|
      ensures Mapped(sb, WithBlock(fs, b, v), j)
      ensures FileAt(sb, fs, j).(content := Content(sb, WithBlock(fs, b, v), j)) == Reblocked(Files(sb, fs), i, bn,
                v)[j]
    {
      RevertedMapped(sb, fs, owner, b, v, i, bn, j);
      RevertedContent(sb, fs, owner, b, v, i, bn, j);
    }
    assert AllMapped(sb, WithBlock(fs, b, v));
    assert Files(sb, WithBlock(fs, b, v)) == Reblocked(Files(sb, fs), i, bn, v);
  }

  lemma RevertFree(sb: Super, fs: Fs, owner: map<nat, Slot>, b: nat, v: Block)
    requires FsInv(sb, fs, owner) && sb.datastart <= b < sb.size && b !in owner
    ensures FsInv(sb, WithBlock(fs, b, v), owner)
    ensures Files(sb, WithBlock(fs, b, v)) == Files(sb, fs)
  {
    var fs' := WithBlock(fs, b, v);
    forall j, l | IsSlot(fs, j, l)
      ensures Ref(sb, fs', j, l) == Ref(sb, fs, j, l) && Ref(sb, fs, j, l) != b
    {
      assert IsSlot(fs, j, INDIRECT) && Ref(sb, fs, j, INDIRECT) == fs.inodes[j].addrs[INDIRECT];
    }
    forall j | 0 <= j < |fs.inodes|
      ensures Mapped(sb, fs', j) && Content(sb, fs', j) == Content(sb, fs, j)
    {
      assert Mapped(sb, fs, j);
      forall p | 0 <= p < fs.inodes[j].size
        ensures ByteAt(sb, fs', j, p) == ByteAt(sb, fs, j, p)
      {
        assert IsSlot(fs, j, SlotOf(p / BSIZE));
      }
      forall n | 0 <= n < MAXFILE && n * BSIZE < fs.inodes[j].size
        ensures Ref(sb, fs', j, SlotOf(n)) != 0
      {
        assert IsSlot(fs, j, SlotOf(n));
      }
    }
    assert AllMapped(sb, fs');
    assert Files(sb, fs') == Files(sb, fs);
  }

  /** One block of one file has other contents, at most. */
  ghost predicate OneBlockBack(files: seq<File>, files': seq<File>) {
    files' == files || exists j: nat, bn: nat, v :: j < |files| && files' == Reblocked(files, j, bn, v)
  }

  lemma Reverts(sb: Super, fs: Fs, owner: map<nat, Slot>, stale: map<nat, Block>, b: nat)
    requires FsInv(sb, fs, owner) && StaleOk(sb, fs, owner, stale)
    ensures b in stale ==> b < |fs.data| && FsInv(sb, WithBlock(fs, b, stale[b]), owner)
    ensures b in stale ==> OneBlockBack(Files(sb, fs), Files(sb, WithBlock(fs, b, stale[b])))
    ensures b in stale ==> Settled(WithBlock(fs, b, stale[b]), stale - {b}) == Settled(fs, stale)
    ensures stale.Keys <= {b} ==> Settled(fs, stale) == if b in stale then WithBlock(fs, b, stale[b]) else fs
  {
    if b in stale {
      if b in owner { RevertOwned(sb, fs, owner, b, stale[b]); } else { RevertFree(sb, fs, owner, b, stale[b]); }
      SettledOne(fs, b, stale[b]);
      assert stale.Keys <= {b} ==> stale == map[b := stale[b]];
    } else {
      SettledOne(fs, 0, ZeroBlock());
      assert stale.Keys <= {b} ==> stale == map[];
    }
  }

  // ----- where a write stops -----

  /** Of avail bytes written at offset off, how many come before the last block boundary. */
  function Boundary(off: nat, avail: nat): nat {
    var start := (off + avail) / BSIZE * BSIZE;
    if start <= off then 0 else start - off
  }

  /**
   A write of n bytes, of which `avail` can be read, to a file of `size` bytes reports r bytes and
   has changed the file up to byte reach: all of it is done, or the disk is full at a block the file
   does not have, or the source has faulted within the block that r reaches.
   */
  ghost predicate StopsAt(fs: Fs, size: nat, off: nat, n: nat, avail: nat, r: nat, reach: nat) {
    || (r == reach == n <= avail)
    || (r == reach < n && r <= avail && Full(fs) && off + r >= size && (r == 0 || (off + r) % BSIZE == 0))
    || (r == Boundary(off, avail) && reach == avail < n)
  }

  lemma BoundaryIs(off: nat, avail: nat, tot: nat)
    requires tot <= avail < tot + BSIZE - (off + tot) % BSIZE && (tot == 0 || (off + tot) % BSIZE == 0)
    ensures tot == Boundary(off, avail)
  {
    assert (off + avail) / BSIZE == (off + tot) / BSIZE;
  }

  lemma BoundaryLast(off: nat, avail: nat, r: nat)
    requires r <= avail && (r == 0 || (off + r) % BSIZE == 0)
    ensures r <= Boundary(off, avail) <= avail
  {
    if r > 0 {
      assert (off + r) / BSIZE * BSIZE == off + r;
      assert (off + r) / BSIZE <= (off + avail) / BSIZE;
    }
  }

  // ----- what a faulting write does to the file -----

  /** The bytes of s beyond the first r repeat what the file holds there already, as far as it goes. */
  ghost predicate Repeats(c: seq<byte>, off: nat, s: seq<byte>, r: nat) {
    forall k :: r <= k < |s| && off + k < |c| ==> s[k] == c[off + k]
  }

  /**
   writei() reports r bytes of the |s| that reached the block before a copy
   faulted. The file is as if just those r had been written if and only if the
   others repeat what was there, or fall beyond the end of the file.
   */
  lemma ExactReplacementIff(files: seq<File>, i: nat, off: nat, s: seq<byte>, r: nat)
    requires i < |files| && off <= |files[i].content| && r <= |s|
    ensures WriteFile(files, i, off, s, r) == WriteFile(files, i, off, s[..r], r) <==>
              Repeats(files[i].content, off, s, r)
  {
    var c := files[i].content;
    var size := Max(|c|, off + r);
    var part, exact := Overwritten(c, off, s, size), Overwritten(c, off, s[..r], size);
    if Repeats(c, off, s, r) {
      assert part == exact;
    } else {
      var k :| r <= k < |s| && off + k < |c| && s[k] != c[off + k];
      assert part[off + k] != exact[off + k];
      assert WriteFile(files, i, off, s, r)[i].content != WriteFile(files, i, off, s[..r], r)[i].content;
    }
  }

  /**
   All of src can be read, or those bytes of it that can, from the last block boundary on,
   repeat what the file has there.
   */
  ghost predicate Harmless(c: seq<byte>, off: nat, src: seq<byte>, avail: nat) {
    avail >= |src| || Repeats(c, off, src[..avail], Boundary(off, avail))
  }

  /** A write replaces exactly the bytes it reports if and only if it is harmless, as the caller can tell beforehand. */
  lemma HarmlessIff(fs: Fs, files: seq<File>, i: nat, off: nat, src: seq<byte>, avail: nat, r: nat, reach: nat)
    requires i < |files| && off <= |files[i].content| && StopsAt(fs, |files[i].content|, off, |src|, avail, r, reach)
    ensures r <= reach <= |src|
    ensures WriteFile(files, i, off, src[..reach], r) == WriteFile(files, i, off, src[..r], r)
            <==> Harmless(files[i].content, off, src, avail)
  {
    var c := files[i].content;
    BoundaryLast(off, avail, 0);
    ExactReplacementIff(files, i, off, src[..reach], r);
    assert src[..reach][..r] == src[..r];
    if reach == r && avail < |src| {
      if r != Boundary(off, avail) { BoundaryLast(off, avail, r); }
    }
  }

  // ----- the loop of writei() -----

  /** The bytes a pass of the loop moves: what is left, or what fits in the block. */
  function ChunkSize(n: nat, off: nat, tot: nat): (m: nat)
    requires tot < n
    ensures 0 < m <= n - tot && m <= BSIZE - (off + tot) % BSIZE
  {
    Min(n - tot, BSIZE - (off + tot) % BSIZE)
  }

  /** A pass ends at a block boundary, unless it is the last. */
  lemma ChunkEnds(n: nat, off: nat, tot: nat, end: nat)
    requires tot < n && end == tot + ChunkSize(n, off, tot)
    ensures end < n ==> (off + end) % BSIZE == 0
  {}

  /** After t passes, tot bytes were written; what they logged is in the budget. */
  ghost predicate Writing(sb: Super, fs0: Fs, fs: Fs, owner: map<nat, Slot>, i: nat, off: nat, src: seq<byte>,
                          avail: nat, tot: nat,
                          t: nat, before: set<nat>, logged: set<nat>, maps: set<nat>, blocks: set<nat>)
    requires Shape(sb, fs0) && i < |fs0.inodes| && off + |src| <= MAXFILE * BSIZE && off / BSIZE < MAXFILE
  {
    && tot <= |src| && tot <= avail && Owned(sb, fs, owner) && Written(sb, fs0, fs, i, off, src, tot)
    && Recorded(sb, fs0, fs, logged)
    && Budget(sb, fs0, fs, i, off, t, before, logged, maps, blocks)
    && (t == 0 ==> tot == 0) && (t > 0 ==> (off / BSIZE + t - 1) * BSIZE < off + tot)
    && (t > 0 && tot < |src| ==> off + tot == (off / BSIZE + t) * BSIZE)
  }

  /** The block `hit` was left half written by a copy that faulted after tot bytes; its contents were `was`. */
  ghost predicate HalfWritten(sb: Super, fs0: Fs, fs: Fs, owner: map<nat, Slot>, i: nat, off: nat, src: seq<byte>,
                              tot: nat, hit: nat, was: Block)
    requires Shape(sb, fs0) && i < |fs0.inodes| && off + |src| <= MAXFILE * BSIZE && tot <= |src|
  {
    && hit in owner && owner[hit].k != INDIRECT && hit < |fs.data|
    && Owned(sb, WithBlock(fs, hit, was), owner) && Written(sb, fs0, WithBlock(fs, hit, was), i, off, src, tot)
  }

  /** The loop has ended early, after t passes: tot bytes are counted, and the file is changed up to byte reach. */
  ghost predicate Ended(sb: Super, fs0: Fs, fs: Fs, owner: map<nat, Slot>, i: nat, off: nat, src: seq<byte>,
                        avail: nat, tot: nat,
                        reach: nat, hit: nat, was: Block, t: nat, before: set<nat>, logged: set<nat>, maps: set<nat>,
                              blocks: set<nat>)
    requires Shape(sb, fs0) && i < |fs0.inodes| && off + |src| <= MAXFILE * BSIZE && off / BSIZE < MAXFILE
  {
    && tot <= reach <= |src| && tot < |src| && Owned(sb, fs, owner) && Written(sb, fs0, fs, i, off, src, reach)
    && StopsAt(fs, fs0.inodes[i].size, off, |src|, avail, tot, reach)
    && (if hit == 0 then reach == tot else avail < |src| && HalfWritten(sb, fs0, fs, owner, i, off, src, tot, hit, was))
    && RecordedBut(sb, fs0, fs, logged, hit, was)
    && Budget(sb, fs0, fs, i, off, t, before, logged, maps, blocks)
    && (t > 0 ==> (off / BSIZE + t - 1) * BSIZE < off + |src|)
  }

  lemma WritingNext(sb: Super, fs0: Fs, fs: Fs, owner: map<nat, Slot>, i: nat, off: nat, src: seq<byte>, avail: nat,
                    tot: nat, tot': nat,
                    t: nat, t': nat, before: set<nat>, logged: set<nat>, maps: set<nat>, blocks: set<nat>)
    requires Shape(sb, fs0) && i < |fs0.inodes| && off + |src| <= MAXFILE * BSIZE && off / BSIZE < MAXFILE
    requires (t == 0 ==> tot == 0) && (t > 0 ==> off + tot == (off / BSIZE + t) * BSIZE) && t' == t + 1
    requires tot < |src| && tot' == tot + ChunkSize(|src|, off, tot) && tot' <= avail
    requires Owned(sb, fs, owner) && Written(sb, fs0, fs, i, off, src, tot') && Recorded(sb, fs0, fs, logged)
    requires Budget(sb, fs0, fs, i, off, t', before, logged, maps, blocks)
    ensures Writing(sb, fs0, fs, owner, i, off, src, avail, tot', t', before, logged, maps, blocks)
  {
    NextBlock(off, tot, ChunkSize(|src|, off, tot), t);
    ChunkEnds(|src|, off, tot, tot');
  }

  lemma WritingFails(sb: Super, fs0: Fs, fs: Fs, owner: map<nat, Slot>, i: nat, off: nat, src: seq<byte>, avail: nat,
                     tot: nat, reach: nat,
                     hit: nat, was: Block, t: nat, t': nat, before: set<nat>, logged: set<nat>, maps: set<nat>,
                           blocks: set<nat>)
    requires Shape(sb, fs0) && i < |fs0.inodes| && Mapped(sb, fs0, i) && off + |src| <= MAXFILE * BSIZE
             && off / BSIZE < MAXFILE
    requires (t == 0 ==> tot == 0) && (t > 0 ==> off + tot == (off / BSIZE + t) * BSIZE) && t' == t + 1
    requires tot < |src| && tot <= avail && tot <= reach <= |src| && Owned(sb, fs, owner)
             && Written(sb, fs0, fs, i, off, src, reach)
    requires hit == 0 ==> reach == tot && Full(fs) && Ref(sb, fs, i, SlotOf((off + tot) / BSIZE)) == 0
    requires hit != 0 ==> reach == avail && avail < tot + ChunkSize(|src|, off, tot)
    requires hit != 0 ==> HalfWritten(sb, fs0, fs, owner, i, off, src, tot, hit, was)
    requires RecordedBut(sb, fs0, fs, logged, hit, was)
    requires Budget(sb, fs0, fs, i, off, t', before, logged, maps, blocks)
    ensures Ended(sb, fs0, fs, owner, i, off, src, avail, tot, reach, hit, was, t', before, logged, maps, blocks)
  {
    NextBlock(off, tot, 1, t);
    assert (off / BSIZE + t) * BSIZE % BSIZE == 0;
    Stopped(sb, fs0, fs, i, off, src, avail, tot, reach - tot, hit);
  }

  /** A block that was filled and logged. */
  lemma CopyRecorded(sb: Super, fs0: Fs, fs1: Fs, log1: set<nat>, fs: Fs, logged: set<nat>, addr: nat)
    requires Recorded(sb, fs0, fs1, log1) && addr < |fs1.data| && addr < |fs.data|
    requires fs == WithBlock(fs1, addr, fs.data[addr])
    ensures logged == log1 + {addr} ==> RecordedBut(sb, fs0, fs, logged, 0, fs1.data[addr])
    ensures logged == log1 ==> addr != 0 ==> RecordedBut(sb, fs0, fs, logged, addr, fs1.data[addr])
  {
    assert WithBlock(fs, addr, fs1.data[addr]) == fs1;
    if logged == log1 + {addr} {
      RecordedBlock(sb, fs1, fs, addr, fs.data[addr], logged);
      RecordedTwice(sb, fs0, fs1, log1, fs, logged);
    }
  }

  /** Filling a block of the file, which was `was` before, leaves it half written if it is not logged. */
  lemma HalfIs(sb: Super, fs0: Fs, fs: Fs, owner: map<nat, Slot>, i: nat, off: nat, src: seq<byte>, tot: nat,
               addr: nat, v: Block)
    requires Shape(sb, fs0) && i < |fs0.inodes| && off + |src| <= MAXFILE * BSIZE && tot < |src|
    requires Owned(sb, fs, owner) && Written(sb, fs0, fs, i, off, src, tot)
             && addr == Ref(sb, fs, i, SlotOf((off + tot) / BSIZE)) != 0
    ensures addr < |fs.data|
            && HalfWritten(sb, fs0, WithBlock(fs, addr, v), owner, i, off, src, tot, addr, fs.data[addr])
  {
    assert IsSlot(fs, i, SlotOf((off + tot) / BSIZE)) && addr in owner;
    assert WithBlock(WithBlock(fs, addr, v), addr, fs.data[addr]) == fs;
  }

  /** Why a pass of the loop fails. */
  lemma Stopped(sb: Super, fs0: Fs, fs: Fs, i: nat, off: nat, src: seq<byte>, avail: nat, tot: nat, m: nat, hit: nat)
    requires Shape(sb, fs0) && i < |fs0.inodes| && Mapped(sb, fs0, i) && off + |src| <= MAXFILE * BSIZE
    requires tot < |src| && tot <= avail && tot + m <= |src| && Written(sb, fs0, fs, i, off, src, tot + m)
    requires tot == 0 || (off + tot) % BSIZE == 0
    requires hit == 0 ==> m == 0 && Full(fs) && Ref(sb, fs, i, SlotOf((off + tot) / BSIZE)) == 0
    requires hit != 0 ==> m == avail - tot && avail < |src| && avail < tot + BSIZE - (off + tot) % BSIZE
    ensures StopsAt(fs, fs0.inodes[i].size, off, |src|, avail, tot, tot + m)
  {
    if hit != 0 {
      BoundaryIs(off, avail, tot);
    } else {
      var bn := (off + tot) / BSIZE;
      assert IsSlot(fs0, i, SlotOf(bn));
      assert bn * BSIZE <= off + tot;
    }
  }

  // ----- the end of writei() -----

  /**
   What writei() does: the files are as if src[..reach] had been written, of which r bytes count.
   If no buffer differed from the log before, then in the log just the r bytes are written.
   */
  ghost predicate Wrote(sb: Super, fs0: Fs, stale0: map<nat, Block>, fs: Fs, stale: map<nat, Block>,
                        i: nat, off: nat, src: seq<byte>, avail: nat, r: nat, reach: nat)
    requires AllMapped(sb, fs0) && AllMapped(sb, fs) && i < |fs0.inodes|
  {
    && r <= reach <= |src| && StopsAt(fs, fs0.inodes[i].size, off, |src|, avail, r, reach)
    && Files(sb, fs) == WriteFile(Files(sb, fs0), i, off, src[..reach], r)
    && (stale0 == map[] ==> LoggedAs(sb, fs, stale, WriteFile(Files(sb, fs0), i, off, src[..r], r)))
    && (stale0 == map[] && (r == |src| || avail >= |src|) ==> stale == map[])
  }

  lemma WriteEnds(sb: Super, fs0: Fs, owner0: map<nat, Slot>, stale: map<nat, Block>, fs: Fs, owner: map<nat, Slot>,
                  logged: set<nat>, i: nat, off: nat, src: seq<byte>, avail: nat, r: nat, reach: nat, hit: nat,
                  was: Block)
    requires FsInv(sb, fs0, owner0) && StaleOk(sb, fs0, owner0, stale) && i < |fs0.inodes|
    requires r <= reach <= |src| && off + |src| <= MAXFILE * BSIZE && off <= fs0.inodes[i].size
    requires Written(sb, fs0, fs, i, off, src, reach) && Owned(sb, fs, owner)
    requires StopsAt(fs, fs0.inodes[i].size, off, |src|, avail, r, reach)
             && (hit != 0 ==> r < |src| && avail < |src|)
    requires if hit == 0 then reach == r else HalfWritten(sb, fs0, fs, owner, i, off, src, r, hit, was)
    requires RecordedBut(sb, fs0, fs, logged, hit, was)
    ensures var fs', stale' := Resized(fs, i, off, r), Restale(stale, logged, hit, was);
            FsInv(sb, fs', owner) && StaleOk(sb, fs', owner, stale')
            && Wrote(sb, fs0, stale, fs', stale', i, off, src, avail, r, reach)
  {
    var fs', stale' := Resized(fs, i, off, r), Restale(stale, logged, hit, was);
    WriteCompletes(sb, fs0, fs, owner, i, off, src, r, reach);
    RestaleOk(sb, fs0, owner0, fs, owner, stale, logged, hit, was);
    if hit == 0 {
      SettledOne(fs', 0, was);
    } else {
      WriteCompletes(sb, fs0, WithBlock(fs, hit, was), owner, i, off, src, r, r);
      SettledOne(fs', hit, was);
      assert WithBlock(fs', hit, was) == Resized(WithBlock(fs, hit, was), i, off, r);
    }
    RestaleClean(logged, hit, was);
  }

  /** All that is left of writei() is the size, the inode and the changed buffers. */
  ghost predicate NearlyDone(sb: Super, fs0: Fs, stale: map<nat, Block>, fs: Fs, owner: map<nat, Slot>,
                             logged: set<nat>,
                             i: nat, off: nat, src: seq<byte>, avail: nat, r: nat, reach: nat, hit: nat, was: Block) {
    && AllMapped(sb, fs0) && i < |fs0.inodes| == |fs.inodes|
    && var fs', stale' := Resized(fs, i, off, r), Restale(stale, logged, hit, was);
    && FsInv(sb, fs', owner) && StaleOk(sb, fs', owner, stale')
    && Wrote(sb, fs0, stale, fs', stale', i, off, src, avail, r, reach)
    && RecordedAll(sb, Settled(fs0, stale), Settled(fs', stale'), logged + {IBlock(sb, i)})
    && fs0.inodes[i := fs'.inodes[i]] == fs'.inodes
  }

  /** What was written, the inode included, is in the log. */
  lemma WriteRecorded(sb: Super, fs0: Fs, stale: map<nat, Block>, fs: Fs, logged: set<nat>, i: nat, off: nat, r: nat,
                      hit: nat, was: Block)
    requires RecordedBut(sb, fs0, fs, logged, hit, was) && i < |fs0.inodes| == |fs.inodes|
    requires forall j :: 0 <= j < |fs.inodes| && j != i ==> fs.inodes[j] == fs0.inodes[j]
    ensures RecordedAll(sb, Settled(fs0, stale), Settled(Resized(fs, i, off, r), Restale(stale, logged, hit, was)),
                        logged + {IBlock(sb, i)})
    ensures fs0.inodes[i := Resized(fs, i, off, r).inodes[i]] == Resized(fs, i, off, r).inodes
  {
    SettledRecorded(sb, fs0, stale, fs, logged, hit, was);
    var fs' := Resized(fs, i, off, r);
    assert Settled(fs', Restale(stale, logged, hit, was)).data == Settled(fs, Restale(stale, logged, hit, was)).data;
  }

  lemma RestaleClean(logged: set<nat>, hit: nat, was: Block)
    ensures Restale(map[], logged, hit, was) == if hit == 0 then map[] else map[hit := was]
  {}

  /** After a write whose source can all be read, the file has the bytes written where they were to go. */
  lemma WroteBack(sb: Super, fs0: Fs, stale0: map<nat, Block>, fs: Fs, stale: map<nat, Block>, i: nat, off: nat,
                  src: seq<byte>, r: nat, reach: nat)
    requires AllMapped(sb, fs0) && AllMapped(sb, fs) && i < |fs0.inodes| == |fs.inodes| && off <= fs0.inodes[i].size
    requires Wrote(sb, fs0, stale0, fs, stale, i, off, src, |src|, r, reach)
    ensures off + r <= |Content(sb, fs, i)| <= MAXFILE * BSIZE && Content(sb, fs, i)[off..off + r] == src[..r]
    ensures r < |src| ==> Full(fs)
  {
    var c := Content(sb, fs0, i);
    assert Files(sb, fs)[i].content == Overwritten(c, off, src[..r], Max(|c|, off + r));
    ReadBack(c, off, src[..r]);
    assert Mapped(sb, fs, i);
  }

  lemma FirstByteChanges(sb: Super, fs0: Fs, stale0: map<nat, Block>, fs: Fs, stale: map<nat, Block>, i: nat, x: byte,
                         r: nat, reach: nat)
    requires AllMapped(sb, fs0) && AllMapped(sb, fs) && i < |fs0.inodes| == |fs.inodes|
    requires Content(sb, fs0, i) != [] && Content(sb, fs0, i)[0] != x
             && Wrote(sb, fs0, stale0, fs, stale, i, 0, [x, x], 1, r, reach)
    ensures r == 0 && |Files(sb, fs)[i].content| > 0 && Files(sb, fs)[i].content[0] == x != Files(sb, fs0)[i].content[0]
  {
    var c := Content(sb, fs0, i);
    assert Boundary(0, 1) == 0;
    assert Files(sb, fs)[i].content == Overwritten(c, 0, [x, x][..reach], Max(|c|, r));
  }

  // ----- reading -----

  /** What readi() returns of a file. */
  ghost predicate ReadAs(c: seq<byte>, avail: nat, off: uint, n: uint, ret: int, bytes: seq<byte>) {
    if off > |c| || (off + n) % 0x1_0000_0000 < off then ret == 0 && bytes == []
    else
      var m := Min(n, |c| - off);
      if m <= avail then ret == m && bytes == c[off..off + m] else ret == -1
  }

  lemma ReadAll(c: seq<byte>, n: uint, off: uint, ret: int, bytes: seq<byte>)
    requires off + n <= |c| < 0x1_0000_0000 && ReadAs(c, n, off, n, ret, bytes)
    ensures ret == n && bytes == c[off..off + n]
  {}
}
