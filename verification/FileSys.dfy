/**
 kernel/fs.c's block allocator, block map, and file reading and writing, and the
 chunked writes of kernel/file.c, as methods that update the file system in place.
 */
module FileSys {
  import opened Words
  import opened FsLayout
  import opened FsCache
  import opened FsChunks
  import opened FsSession
  import opened FsTruncate

  class FileSystem {
    const sb: Super
    var fs: Fs                 // free map, block contents and in-memory inodes
    var dinodes: seq<Inode>    // the inodes' copies on disk
    var logged: set<nat>       // blocks log_written by the current operation
    var stale: map<nat, Block> // blocks whose buffer has unlogged changes, with what was logged
    ghost var owner: map<nat, Slot>

    ghost predicate Valid()
      reads this
    {
      FsInv(sb, fs, owner) && dinodes == fs.inodes && StaleOk(sb, fs, owner, stale)
    }

    /** Allocate the first free block, zeroed; 0 if there is none. */
    method Balloc() returns (addr: nat)
      requires |fs.bits| == |fs.data| == sb.size && 0 < sb.size && fs.bits[0]
      modifies `fs, `logged
      ensures addr == 0 ==> fs == old(fs) && logged == old(logged) && Full(fs)
      ensures addr != 0 ==> addr < sb.size && FirstFree(old(fs), addr)
      ensures addr != 0 ==> fs == Allocated(old(fs), addr) && logged == old(logged) + {BBlock(sb, addr), addr}
    {
      var b := 0;
      while b < sb.size
        invariant fs == old(fs) && logged == old(logged)
        invariant forall c :: 0 <= c < b && c < sb.size ==> fs.bits[c]
      {
        var bi := 0;
        while bi < BPB && b + bi < sb.size
          invariant 0 <= bi <= BPB && fs == old(fs) && logged == old(logged)
          invariant forall c :: 0 <= c < b + bi && c < sb.size ==> fs.bits[c]
        {
          if !fs.bits[b + bi] {
            fs := fs.(bits := fs.bits[b + bi := true]);
            logged := logged + {BBlock(sb, b + bi)};
            Bzero(b + bi);
            return b + bi;
          }
          bi := bi + 1;
        }
        b := b + BPB;
      }
      return 0;
    }

    method Bzero(b: nat)
      requires b < |fs.data|
      modifies `fs, `logged
      ensures fs == old(fs).(data := old(fs).data[b := ZeroBlock()]) && logged == old(logged) + {b}
    {
      fs := fs.(data := fs.data[b := ZeroBlock()]);
      logged := logged + {b};
    }

    /** Free a block; freeing a free block is a panic, so callers must own it. */
    method Bfree(b: nat)
      requires b < |fs.bits| && fs.bits[b]
      modifies `fs, `logged
      ensures fs == old(fs).(bits := old(fs).bits[b := false]) && logged == old(logged) + {BBlock(sb, b)}
    {
      if !fs.bits[b] {
        assert false;
      }
      fs := fs.(bits := fs.bits[b := false]);
      logged := logged + {BBlock(sb, b)};
    }

    /** iupdate(): copy the in-memory inode to disk. */
    method Iupdate(i: nat)
      requires i < |fs.inodes| == |dinodes|
      modifies `dinodes, `logged
      ensures dinodes == old(dinodes)[i := fs.inodes[i]] && logged == old(logged) + {IBlock(sb, i)}
    {
      dinodes := dinodes[i := fs.inodes[i]];
      logged := logged + {IBlock(sb, i)};
    }

    /** Allocate a block for the empty address slot k of inode i. */
    method AllocAddr(i: nat, k: nat) returns (addr: nat)
      requires Owned(sb, fs, owner) && i < |fs.inodes| && k <= NDIRECT && fs.inodes[i].addrs[k] == 0
      modifies `fs, `logged, `owner
      ensures Owned(sb, fs, owner) && Grown(sb, old(fs), fs, i) && fs.inodes[i].addrs[k] == addr
      ensures addr == 0 ==> fs == old(fs) && owner == old(owner) && logged == old(logged) && Full(fs)
      ensures addr != 0 ==> Attached(sb, old(fs), fs, i, k, addr) && logged == old(logged) + {BBlock(sb, addr), addr}
      ensures Recorded(sb, old(fs), fs, logged)
    {
      ghost var fs0 := fs;
      addr := Balloc();
      if addr == 0 {
        GrownSelf(sb, fs0, owner, i);
        return;
      }
      var ip := fs.inodes[i];
      fs := fs.(inodes := fs.inodes[i := ip.(addrs := ip.addrs[k := addr])]);
      RecordedAlloc(sb, fs0, fs, addr, logged);
      NewAddr(sb, fs0, owner, i, k, addr);
      AttachKeeps(sb, fs0, fs, owner, i, k, addr);
      owner := owner[addr := Slot(i, k)];
    }

    /** The indirect block of inode i, allocated if necessary; 0 if the disk is full. */
    method EnsureIndirect(i: nat) returns (ind: nat, ghost maps: set<nat>)
      requires Owned(sb, fs, owner) && i < |fs.inodes|
      modifies `fs, `logged, `owner
      ensures Owned(sb, fs, owner) && Grown(sb, old(fs), fs, i) && SameData(sb, old(fs), fs, i)
      ensures fs.inodes[i].addrs[INDIRECT] == ind
      ensures old(fs).inodes[i].addrs[INDIRECT] != 0 || ind == 0 ==>
                fs == old(fs) && owner == old(owner) && logged == old(logged) && maps == {}
      ensures ind == 0 ==> Full(fs)
      ensures Covers(logged, old(logged), maps, {}, ind) && |maps| <= 1
      ensures Recorded(sb, old(fs), fs, logged) && old(logged) <= logged
    {
      maps := {};
      ind := fs.inodes[i].addrs[INDIRECT];
      if ind != 0 {
        GrownSelf(sb, fs, owner, i);
      } else {
        ind := AllocAddr(i, INDIRECT);
        maps := if ind == 0 then {} else {BBlock(sb, ind)};
      }
    }

    /** The block of entry e of the indirect block of inode i, allocated if necessary. */
    method AllocEntry(i: nat, e: nat, ghost k: nat) returns (addr: nat)
      requires Owned(sb, fs, owner) && i < |fs.inodes| && e < NINDIRECT && k == NDIRECT + 1 + e
      requires fs.inodes[i].addrs[INDIRECT] != 0
      modifies `fs, `logged, `owner
      ensures Owned(sb, fs, owner) && Grown(sb, old(fs), fs, i) && fs.inodes == old(fs).inodes
      ensures OneSlot(sb, old(fs), fs, i, k, addr)
      ensures old(Ref(sb, fs, i, k)) != 0 || addr == 0 ==> fs == old(fs) && owner == old(owner) && logged == old(logged)
      ensures old(Ref(sb, fs, i, k)) == 0 && addr != 0 ==>
                logged == old(logged) + {BBlock(sb, addr), addr, fs.inodes[i].addrs[INDIRECT]}
      ensures addr == 0 ==> Full(fs)
      ensures Recorded(sb, old(fs), fs, logged)
    {
      ghost var fs0 := fs;
      var ind := fs.inodes[i].addrs[INDIRECT];
      addr := Word(fs.data[ind], e);
      if addr != 0 {
        GrownSelf(sb, fs, owner, i);
        return;
      }
      addr := Balloc();
      if addr == 0 {
        GrownSelf(sb, fs, owner, i);
        return;
      }
      ghost var fs1, log1 := fs, logged;
      fs := fs.(data := fs.data[ind := SetWord(fs.data[ind], e, addr)]);
      logged := logged + {ind};
      RecordedAlloc(sb, fs0, fs1, addr, log1);
      RecordedBlock(sb, fs1, fs, ind, fs.data[ind], logged);
      RecordedTwice(sb, fs0, fs1, log1, fs, logged);
      NewEntry(sb, fs0, owner, i, e, addr);
      AttachKeeps(sb, fs0, fs, owner, i, k, addr);
      owner := owner[addr := Slot(i, k)];
    }

    /** The part of bmap() for blocks past the direct ones. */
    method BmapIndirect(i: nat, bn: nat) returns (addr: nat, ghost maps: set<nat>)
      requires Owned(sb, fs, owner) && i < |fs.inodes| && NDIRECT <= bn < MAXFILE
      modifies `fs, `logged, `owner
      ensures Owned(sb, fs, owner) && Grown(sb, old(fs), fs, i) && OneSlot(sb, old(fs), fs, i, SlotOf(bn), addr)
      ensures old(Ref(sb, fs, i, SlotOf(bn))) != 0 ==> fs == old(fs) && owner == old(owner)
      ensures Covers(logged, old(logged), maps, NonZero(addr), fs.inodes[i].addrs[INDIRECT])
      ensures |maps| <= NewBlocks(sb, old(fs), fs, i, SlotOf(bn))
      ensures addr == 0 ==> Full(fs)
      ensures Recorded(sb, old(fs), fs, logged) && old(logged) <= logged
    {
      ghost var fs0 := fs;
      var ind;
      ind, maps := EnsureIndirect(i);
      ghost var fs1, log1 := fs, logged;
      if ind == 0 {
        addr := 0;
        IndirectNeeded(sb, fs0, i, bn);
        OneSlotAfter(sb, fs0, fs1, fs1, i, SlotOf(bn), 0);
        return;
      }
      IndirectNeeded(sb, fs0, i, bn);
      addr := AllocEntry(i, bn - NDIRECT, SlotOf(bn));
      GrownTransitive(sb, fs0, fs1, fs, i);
      RecordedTwice(sb, fs0, fs1, log1, fs, logged);
      OneSlotAfter(sb, fs0, fs1, fs, i, SlotOf(bn), addr);
      if logged != log1 {
        CoversMore(old(logged), log1, maps, BBlock(sb, addr), addr, ind);
        maps := maps + {BBlock(sb, addr)};
      }
    }

    /**
     bmap(): the block holding file block bn of inode i, allocating it (and the
     indirect block) if there is none; 0 if the disk is full. `maps` are the
     bitmap blocks it logs.
     */
    method Bmap(i: nat, bn: nat) returns (addr: nat, ghost maps: set<nat>)
      requires Owned(sb, fs, owner) && i < |fs.inodes| && bn < MAXFILE
      modifies `fs, `logged, `owner
      ensures Owned(sb, fs, owner) && Grown(sb, old(fs), fs, i) && OneSlot(sb, old(fs), fs, i, SlotOf(bn), addr)
      ensures old(Ref(sb, fs, i, SlotOf(bn))) != 0 ==> fs == old(fs) && owner == old(owner)
      ensures Covers(logged, old(logged), maps, NonZero(addr), fs.inodes[i].addrs[INDIRECT])
      ensures |maps| <= NewBlocks(sb, old(fs), fs, i, SlotOf(bn))
      ensures addr == 0 ==> Full(fs)
      ensures Recorded(sb, old(fs), fs, logged) && old(logged) <= logged
    {
      if bn < NDIRECT {
        maps := {};
        addr := fs.inodes[i].addrs[bn];
        if addr != 0 {
          GrownSelf(sb, fs, owner, i);
        } else {
          addr := AllocAddr(i, bn);
          maps := if addr == 0 then {} else {BBlock(sb, addr)};
        }
      } else {
        addr, maps := BmapIndirect(i, bn);
      }
    }

    /** Map the block at offset off + tot for writing. */
    method MapForWrite(i: nat, ghost src: seq<byte>, off: nat, tot: nat, ghost fs0: Fs)
        returns (addr: nat, ghost maps: set<nat>)
      requires Shape(sb, fs0) && Owned(sb, fs, owner) && i < |fs0.inodes|
      requires tot < |src| && off + |src| <= MAXFILE * BSIZE && Written(sb, fs0, fs, i, off, src, tot)
      modifies `fs, `logged, `owner
      ensures Owned(sb, fs, owner) && Written(sb, fs0, fs, i, off, src, tot)
      ensures addr == Ref(sb, fs, i, SlotOf((off + tot) / BSIZE)) && (addr == 0 ==> Full(fs))
      ensures old(fs).inodes[i].addrs[INDIRECT] == 0
              || fs.inodes[i].addrs[INDIRECT] == old(fs).inodes[i].addrs[INDIRECT]
      ensures Covers(logged, old(logged), maps, NonZero(addr), fs.inodes[i].addrs[INDIRECT])
      ensures |maps| <= NewBlocks(sb, old(fs), fs, i, SlotOf((off + tot) / BSIZE))
      ensures Recorded(sb, old(fs), fs, logged) && old(logged) <= logged
    {
      ghost var fs1 := fs;
      addr, maps := Bmap(i, (off + tot) / BSIZE);
      assert Ref(sb, fs1, i, INDIRECT) == fs1.inodes[i].addrs[INDIRECT];
      WrittenGrown(sb, fs0, fs1, fs, i, off, src, tot);
    }

    /**
     Copy into the mapped block as much of src as fits. `avail` bytes of src are
     readable; a copy that faults has by then changed the block up to the last
     readable byte and is not logged.
     */
    method CopyBlock(i: nat, src: seq<byte>, avail: nat, off: nat, tot: nat, addr: nat, ghost fs0: Fs)
        returns (end: nat, ok: bool)
      requires Shape(sb, fs0) && Owned(sb, fs, owner) && i < |fs0.inodes|
      requires tot < |src| && off + |src| <= MAXFILE * BSIZE && Written(sb, fs0, fs, i, off, src, tot)
      requires addr == Ref(sb, fs, i, SlotOf((off + tot) / BSIZE)) != 0
      modifies `fs, `logged
      ensures Owned(sb, fs, owner) && tot <= end <= |src| && Written(sb, fs0, fs, i, off, src, end)
      ensures ok ==> end == tot + ChunkSize(|src|, off, tot) && end <= avail
      ensures !ok ==> end == Max(tot, avail) && avail < tot + ChunkSize(|src|, off, tot)
      ensures fs.inodes == old(fs).inodes && addr < |old(fs).data| && fs == WithBlock(old(fs), addr, fs.data[addr])
      ensures logged == if ok then old(logged) + {addr} else old(logged)
    {
      var m := ChunkSize(|src|, off, tot);
      ok := tot + m <= avail;
      if !ok {
        m := Max(tot, avail) - tot;
      }
      end := tot + m;
      WrittenMore(sb, fs0, fs, owner, i, off, src, tot, m);
      fs := fs.(data := fs.data[addr := Splice(fs.data[addr], (off + tot) % BSIZE, src[tot..tot + m])]);
      if ok {
        logged := logged + {addr};
      }
    }

    /** The mapping of a pass of writei()'s loop, and what it logs. */
    method MapInBudget(i: nat, ghost src: seq<byte>, off: nat, tot: nat, ghost fs0: Fs,
                       ghost t: nat, ghost before: set<nat>, ghost maps: set<nat>, ghost blocks: set<nat>)
        returns (addr: nat, ghost maps': set<nat>, ghost blocks': set<nat>)
      requires Shape(sb, fs0) && Owned(sb, fs, owner) && i < |fs0.inodes|
      requires tot < |src| && off + |src| <= MAXFILE * BSIZE && Written(sb, fs0, fs, i, off, src, tot)
      requires Budget(sb, fs0, fs, i, off, t, before, logged, maps, blocks) && (t == 0 ==> tot == 0)
      requires Recorded(sb, fs0, fs, logged)
      modifies `fs, `logged, `owner
      ensures Owned(sb, fs, owner) && Written(sb, fs0, fs, i, off, src, tot)
      ensures addr == Ref(sb, fs, i, SlotOf((off + tot) / BSIZE)) && (addr == 0 ==> Full(fs))
      ensures Budget(sb, fs0, fs, i, off, t + 1, before, logged, maps', blocks') && (addr != 0 ==> addr in blocks')
      ensures Recorded(sb, fs0, fs, logged)
    {
      ghost var fs1, log1, more := fs, logged, {};
      addr, more := MapForWrite(i, src, off, tot, fs0);
      BudgetStep(sb, fs0, fs1, fs, i, off, src, tot, t, before, log1, logged, maps, more, blocks, addr);
      RecordedTwice(sb, fs0, fs1, log1, fs, logged);
      maps', blocks' := maps + more, blocks + NonZero(addr);
    }

    /**
     One pass of writei()'s loop. It fails if the disk is full (`hit` is 0) or if the source
     faults, which leaves the block `hit`, until then `was`, with the bytes up to `avail`.
     */
    method WritePass(i: nat, src: seq<byte>, avail: nat, off: nat, tot: nat, ghost fs0: Fs,
                     ghost t: nat, ghost before: set<nat>, ghost maps: set<nat>, ghost blocks: set<nat>)
        returns (ok: bool, tot': nat, hit: nat, was: Block, ghost reach: nat, ghost t': nat, ghost maps': set<nat>,
                   ghost blocks': set<nat>)
      requires Shape(sb, fs0) && i < |fs0.inodes| && off + |src| <= MAXFILE * BSIZE && off / BSIZE < MAXFILE
               && tot < |src|
      requires Mapped(sb, fs0, i)
               && Writing(sb, fs0, fs, owner, i, off, src, avail, tot, t, before, logged, maps, blocks)
      modifies `fs, `logged, `owner
      ensures ok ==> hit == 0 && tot < tot' && reach == tot'
      ensures ok ==> Writing(sb, fs0, fs, owner, i, off, src, avail, tot', t', before, logged, maps', blocks')
      ensures !ok ==>
                tot' == tot
                && Ended(sb, fs0, fs, owner, i, off, src, avail, tot, reach, hit, was, t', before, logged, maps',
                  blocks')
    {
      var addr;
      addr, maps', blocks' := MapInBudget(i, src, off, tot, fs0, t, before, maps, blocks);
      t' := t + 1;
      if addr == 0 {
        ok, tot', hit, was, reach := false, tot, 0, ZeroBlock(), tot;
        WritingFails(sb, fs0, fs, owner, i, off, src, avail, tot, reach, hit, was, t, t', before, logged, maps',
              blocks');
      } else {
        ok, tot', hit, was, reach := CopyPass(i, src, avail, off, tot, addr, fs0, t, t', before, maps', blocks');
      }
    }

    /** The copying of a pass. */
    method CopyPass(i: nat, src: seq<byte>, avail: nat, off: nat, tot: nat, addr: nat, ghost fs0: Fs,
                    ghost t: nat, ghost t': nat, ghost before: set<nat>, ghost maps: set<nat>, ghost blocks: set<nat>)
        returns (ok: bool, tot': nat, hit: nat, was: Block, ghost reach: nat)
      requires Shape(sb, fs0) && i < |fs0.inodes| && off + |src| <= MAXFILE * BSIZE && off / BSIZE < MAXFILE
               && tot < |src|
      requires Mapped(sb, fs0, i) && Owned(sb, fs, owner) && Written(sb, fs0, fs, i, off, src, tot) && tot <= avail
      requires addr == Ref(sb, fs, i, SlotOf((off + tot) / BSIZE)) != 0 && addr in blocks && t' == t + 1
      requires (t == 0 ==> tot == 0) && (t > 0 ==> off + tot == (off / BSIZE + t) * BSIZE)
      requires Budget(sb, fs0, fs, i, off, t', before, logged, maps, blocks) && Recorded(sb, fs0, fs, logged)
      modifies `fs, `logged
      ensures ok ==> hit == 0 && tot < tot' && reach == tot'
      ensures ok ==> Writing(sb, fs0, fs, owner, i, off, src, avail, tot', t', before, logged, maps, blocks)
      ensures !ok ==>
                tot' == tot
                && Ended(sb, fs0, fs, owner, i, off, src, avail, tot, reach, hit, was, t', before, logged, maps, blocks)
    {
      ghost var fs1, log1 := fs, logged;
      hit, was := 0, fs.data[addr];
      tot', ok := CopyBlock(i, src, avail, off, tot, addr, fs0);
      reach := tot';
      BudgetAgain(sb, fs0, fs1, fs, i, off, t', before, log1, maps, blocks, addr);
      CopyRecorded(sb, fs0, fs1, log1, fs, logged, addr);
      if ok {
        WritingNext(sb, fs0, fs, owner, i, off, src, avail, tot, tot', t, t', before, logged, maps, blocks);
      } else {
        tot', hit := tot, addr;
        HalfIs(sb, fs0, fs1, owner, i, off, src, tot, addr, fs.data[addr]);
        WritingFails(sb, fs0, fs, owner, i, off, src, avail, tot, reach, hit, was, t, t', before, logged, maps, blocks);
      }
    }

    /**
     The loop of writei(). It stops after `tot` bytes if the disk is full or the
     source faults; a faulting copy has changed the file up to byte `reach`. `t`
     counts the passes, `blocks` are the file blocks visited and `maps` the
     bitmap blocks logged.
     */
    method WriteLoop(i: nat, src: seq<byte>, avail: nat, off: nat)
        returns (tot: nat, hit: nat, was: Block, ghost reach: nat, ghost t: nat, ghost blocks: set<nat>,
                   ghost maps: set<nat>)
      requires Owned(sb, fs, owner) && i < |fs.inodes| && off + |src| <= MAXFILE * BSIZE && off / BSIZE < MAXFILE
      requires Mapped(sb, fs, i)
      modifies `fs, `logged, `owner
      ensures tot <= reach <= |src| && Written(sb, old(fs), fs, i, off, src, reach) && Owned(sb, fs, owner)
      ensures StopsAt(fs, old(fs).inodes[i].size, off, |src|, avail, tot, reach)
              && (hit != 0 ==> tot < |src| && avail < |src|)
      ensures if hit == 0 then reach == tot else HalfWritten(sb, old(fs), fs, owner, i, off, src, tot, hit, was)
      ensures Budget(sb, old(fs), fs, i, off, t, old(logged), logged, maps, blocks)
      ensures RecordedBut(sb, old(fs), fs, logged, hit, was)
      ensures t > 0 ==> (off / BSIZE + t - 1) * BSIZE < off + |src|
    {
      tot, hit, was, reach, t, blocks, maps := 0, 0, ZeroBlock(), 0, 0, {}, {};
      var ok := true;
      while ok && tot < |src|
        invariant tot <= |src|
        invariant ok ==> reach == tot && hit == 0
        invariant ok ==> Writing(sb, old(fs), fs, owner, i, off, src, avail, tot, t, old(logged), logged, maps, blocks)
        invariant !ok ==>
                    Ended(sb, old(fs), fs, owner, i, off, src, avail, tot, reach, hit, was, t, old(logged), logged,
                      maps, blocks)
        decreases ok, |src| - tot
      {
        ok, tot, hit, was, reach, t, maps, blocks :=
          WritePass(i, src, avail, off, tot, old(fs), t, old(logged), maps, blocks);
      }
    }

    /** What writei() refuses outright: a gap, or a file too long, which covers a range that overflows. */
    ghost predicate Refused(i: nat, off: uint, n: uint)
      reads this
      requires i < |fs.inodes|
    {
      off > fs.inodes[i].size || off + n > MAXFILE * BSIZE
    }

    /**
     writei(): write src at offset off of file i; `avail` bytes of src are readable.
     Returns -1 if refused, else the number of bytes written. It replaces exactly
     those bytes if and only if the write is harmless.
     */
    method Writei(i: nat, src: seq<byte>, avail: nat, off: uint) returns (r: int, ghost reach: nat)
      requires Valid() && i < |fs.inodes| && |src| < 0x1_0000_0000
      modifies `fs, `logged, `owner, `dinodes, `stale
      ensures Valid() && |fs.inodes| == |old(fs).inodes|
      ensures r == -1 <==> old(Refused(i, off, |src|))
      ensures r == -1 ==> fs == old(fs) && dinodes == old(dinodes) && logged == old(logged) && stale == old(stale)
      ensures r != -1 ==> 0 <= r <= |src| && off + r <= MAXFILE * BSIZE && off <= old(fs).inodes[i].size
      ensures r != -1 ==> dinodes == old(dinodes)[i := fs.inodes[i]]
      ensures r != -1 ==> Wrote(sb, old(fs), old(stale), fs, stale, i, off, src, avail, r, reach)
      ensures RecordedAll(sb, Settled(old(fs), old(stale)), Settled(fs, stale), logged)
      ensures r != -1 ==> (Files(sb, fs) == WriteFile(Files(sb, old(fs)), i, off, src[..r], r)
                           <==> Harmless(Content(sb, old(fs), i), off, src, avail))
      ensures old(logged) == {} && |src| <= 3 * BSIZE ==> |logged| <= MAXOPBLOCKS
    {
      reach := 0;
      var n := |src|;
      if off > fs.inodes[i].size || (off + n) % 0x1_0000_0000 < off {
        return -1, 0;
      }
      if off + n > MAXFILE * BSIZE {
        return -1, 0;
      }
      r, reach := WriteRange(i, src, avail, off);
      HarmlessIff(fs, Files(sb, old(fs)), i, off, src, avail, r, reach);
    }

    /** The part of writei() after its checks. */
    method WriteRange(i: nat, src: seq<byte>, avail: nat, off: nat) returns (r: nat, ghost reach: nat)
      requires Valid() && i < |fs.inodes| && off <= fs.inodes[i].size && off + |src| <= MAXFILE * BSIZE
      modifies `fs, `logged, `owner, `dinodes, `stale
      ensures Valid() && |fs.inodes| == |old(fs).inodes| && dinodes == old(dinodes)[i := fs.inodes[i]]
      ensures Wrote(sb, old(fs), old(stale), fs, stale, i, off, src, avail, r, reach)
      ensures RecordedAll(sb, Settled(old(fs), old(stale)), Settled(fs, stale), logged)
      ensures old(logged) == {} && |src| <= 3 * BSIZE ==> |logged| <= MAXOPBLOCKS
    {
      var hit, was;
      r, hit, was, reach := WriteData(i, src, avail, off);
      Finish(i, off, r, hit, was);
    }

    /** The loop of writei(), and what it leaves to be done. */
    method WriteData(i: nat, src: seq<byte>, avail: nat, off: nat)
        returns (r: nat, hit: nat, was: Block, ghost reach: nat)
      requires Valid() && i < |fs.inodes| && off <= fs.inodes[i].size && off + |src| <= MAXFILE * BSIZE
      modifies `fs, `logged, `owner
      ensures NearlyDone(sb, old(fs), stale, fs, owner, logged, i, off, src, avail, r, reach, hit, was)
      ensures old(logged) == {} && |src| <= 3 * BSIZE ==> |logged + {IBlock(sb, i)}| <= MAXOPBLOCKS
    {
      ghost var fs0, owner0 := fs, owner;
      r, hit, was, reach := WriteBlocks(i, src, avail, off);
      WriteEnds(sb, fs0, owner0, stale, fs, owner, logged, i, off, src, avail, r, reach, hit, was);
      WriteRecorded(sb, fs0, stale, fs, logged, i, off, r, hit, was);
    }

    /** The end of writei(): the size, the inode, and what has become of changed buffers. */
    method Finish(i: nat, off: nat, r: nat, hit: nat, was: Block)
      requires i < |fs.inodes| == |dinodes|
      modifies `fs, `logged, `dinodes, `stale
      ensures fs == Resized(old(fs), i, off, r) && logged == old(logged) + {IBlock(sb, i)}
      ensures stale == Restale(old(stale), old(logged), hit, was)
              && dinodes == old(dinodes)[i := fs.inodes[i]]
    {
      stale := Restale(stale, logged, hit, was);
      if off + r > fs.inodes[i].size {
        fs := fs.(inodes := fs.inodes[i := fs.inodes[i].(size := off + r)]);
      }
      Iupdate(i);
    }

    method WriteBlocks(i: nat, src: seq<byte>, avail: nat, off: nat)
        returns (r: nat, hit: nat, was: Block, ghost reach: nat)
      requires FsInv(sb, fs, owner) && i < |fs.inodes| && off <= fs.inodes[i].size && off + |src| <= MAXFILE * BSIZE
      modifies `fs, `logged, `owner
      ensures r <= reach <= |src| && Written(sb, old(fs), fs, i, off, src, reach) && Owned(sb, fs, owner)
      ensures StopsAt(fs, old(fs).inodes[i].size, off, |src|, avail, r, reach)
              && (hit != 0 ==> r < |src| && avail < |src|)
      ensures if hit == 0 then reach == r else HalfWritten(sb, old(fs), fs, owner, i, off, src, r, hit, was)
      ensures old(logged) == {} && |src| <= 3 * BSIZE ==> |logged + {IBlock(sb, i)}| <= MAXOPBLOCKS
      ensures RecordedBut(sb, old(fs), fs, logged, hit, was)
    {
      if |src| == 0 {
        WrittenNothing(sb, fs, owner, i, off, src);
        return 0, 0, ZeroBlock(), 0;
      }
      ghost var fs0, t, blocks, maps := fs, 0, {}, {};
      r, hit, was, reach, t, blocks, maps := WriteLoop(i, src, avail, off);
      if old(logged) == {} && |src| <= 3 * BSIZE {
        TransactionBound(sb, fs0, fs, i, off, |src|, t, logged, maps, blocks, IBlock(sb, i));
      }
    }

    /** A buffer with unlogged changes is recycled: the next bread() finds what was logged. */
    method Evict(b: nat)
      requires Valid()
      modifies `fs, `stale
      ensures Valid() && stale == old(stale) - {b}
      ensures fs == if b in old(stale) then WithBlock(old(fs), b, old(stale)[b]) else old(fs)
      ensures OneBlockBack(Files(sb, old(fs)), Files(sb, fs)) && Settled(fs, stale) == Settled(old(fs), old(stale))
      ensures old(stale).Keys <= {b} ==> fs == Settled(old(fs), old(stale))
    {
      Reverts(sb, fs, owner, stale, b);
      if b in stale {
        fs := fs.(data := fs.data[b := stale[b]]);
      }
      stale := stale - {b};
    }

    /** A buffer with unlogged changes is written to the log, with a transaction that its block is in. */
    method Keep(b: nat)
      requires Valid()
      modifies `stale
      ensures Valid() && stale == old(stale) - {b}
    {
      stale := stale - {b};
    }

    /** Reading back what was just written gives it, as far as it was written. */
    method WriteThenRead(i: nat, src: seq<byte>, off: uint) returns (r: int, out: seq<byte>)
      requires Valid() && i < |fs.inodes| && |src| < 0x1_0000_0000
      modifies `fs, `logged, `owner, `dinodes, `stale
      ensures Valid() && (r == -1 <==> old(Refused(i, off, |src|)))
      ensures r != -1 ==> 0 <= r <= |src| && out == src[..r] && (r < |src| ==> Full(fs))
    {
      out := [];
      ghost var reach;
      r, reach := Writei(i, src, |src|, off);
      if r != -1 {
        WroteBack(sb, old(fs), old(stale), fs, stale, i, off, src, r, reach);
        ghost var c := Content(sb, fs, i);
        var n;
        n, out := Readi(i, r, off, r);
        ReadAll(c, r, off, n, out);
      }
    }

    /** A write whose source faults after one byte reports 0 and yet changes the file. */
    method FaultShows(i: nat) returns (r: int)
      requires Valid() && i < |fs.inodes| && Content(sb, fs, i) != []
      modifies `fs, `logged, `owner, `dinodes, `stale
      ensures Valid() && r == 0 && Files(sb, fs) != Files(sb, old(fs))
      ensures |fs.inodes| == |old(fs).inodes| && |Files(sb, fs)[i].content| > 0
      ensures Files(sb, fs)[i].content[0] != Content(sb, old(fs), i)[0]
    {
      var n, out := Readi(i, 1, 0, 1);
      var x: byte := if out[0] == 0 then 1 else 0;
      ghost var reach;
      r, reach := Writei(i, [x, x], 1, 0);
      FirstByteChanges(sb, old(fs), old(stale), fs, stale, i, x, r, reach);
    }

    /**
     itrunc(): free every block of file i, each exactly once, and empty the inode.
     The panic of bfree() is never reached.
     */
    method Itrunc(i: nat)
      requires Valid() && i < |fs.inodes|
      modifies `fs, `logged, `owner, `dinodes
      ensures Valid() && |fs.inodes| == |old(fs).inodes|
      ensures fs.inodes == old(fs).inodes[i := Truncate(old(fs).inodes[i])]
              && dinodes == old(dinodes)[i := fs.inodes[i]]
      ensures fs.data == old(fs).data && owner == Without(old(owner), i)
      ensures Files(sb, fs) == Files(sb, old(fs))[i := Files(sb, old(fs))[i].(content := [])]
      ensures RecordedAll(sb, Settled(old(fs), stale), Settled(fs, stale), logged)
      ensures logged == old(logged) + FileMaps(sb, old(owner), i) + {IBlock(sb, i)}
      ensures old(logged) == {} ==> |logged| <= Span(sb) + 1
    {
      ghost var fs0 := fs;
      FreeBlocks(i);
      TruncateOwns(sb, fs0, fs, owner, i);
      TruncateRecorded(sb, fs0, fs, stale, owner, i, logged);
      TruncationBound(sb, fs0, owner, i);
      owner := Without(owner, i);
      Iupdate(i);
    }

    /** The part of itrunc() before iupdate(). */
    method FreeBlocks(i: nat)
      requires Valid() && i < |fs.inodes|
      modifies `fs, `logged
      ensures fs.data == old(fs).data && fs.inodes == old(fs).inodes[i := Truncate(old(fs).inodes[i])]
      ensures AllFreed(sb, old(fs), fs.bits, owner, i, old(logged), logged)
    {
      ghost var fs0 := fs;
      FreeDirect(i);
      FreeIndirect(i, fs0, old(logged));
      fs := fs.(inodes := fs.inodes[i := fs.inodes[i].(size := 0)]);
      assert fs.inodes[i].addrs == Truncate(fs0.inodes[i]).addrs;
      assert fs.inodes == fs0.inodes[i := Truncate(fs0.inodes[i])];
    }

    /** Clear address k of inode i. */
    method ClearAddr(i: nat, k: nat)
      requires i < |fs.inodes| && k < |fs.inodes[i].addrs|
      modifies `fs
      ensures fs == SetAddr(old(fs), i, k, 0)
    {
      fs := fs.(inodes := fs.inodes[i := fs.inodes[i].(addrs := fs.inodes[i].addrs[k := 0])]);
    }

    method FreeDirect(i: nat)
      requires Valid() && i < |fs.inodes|
      modifies `fs, `logged
      ensures fs == old(fs).(bits := fs.bits, inodes := fs.inodes) && |fs.inodes| == |old(fs).inodes|
      ensures fs.inodes == old(fs).inodes[i := old(fs).inodes[i].(addrs := fs.inodes[i].addrs)]
      ensures |fs.inodes[i].addrs| == NDIRECT + 1 && (forall k :: 0 <= k < NDIRECT ==> fs.inodes[i].addrs[k] == 0)
      ensures fs.inodes[i].addrs[INDIRECT] == old(fs).inodes[i].addrs[INDIRECT]
      ensures Freeing(sb, old(fs), fs.bits, owner, i, NDIRECT, 0, old(logged), logged)
    {
      ghost var fs0 := fs;
      ghost var ip0 := fs.inodes[i];
      var k := 0;
      while k < NDIRECT
        invariant 0 <= k <= NDIRECT && fs == fs0.(bits := fs.bits, inodes := fs.inodes)
        invariant |fs.inodes| == |fs0.inodes| && fs.inodes == fs0.inodes[i := ip0.(addrs := fs.inodes[i].addrs)]
        invariant |fs.inodes[i].addrs| == NDIRECT + 1
        invariant forall l :: 0 <= l <= NDIRECT ==> fs.inodes[i].addrs[l] == if l < k then 0 else ip0.addrs[l]
        invariant Freeing(sb, fs0, fs.bits, owner, i, k, 0, old(logged), logged)
      {
        var b := fs.inodes[i].addrs[k];
        DirectNext(sb, fs0, fs.bits, owner, i, k, b, k + 1, old(logged), logged);
        if b != 0 {
          Bfree(b);
          ClearAddr(i, k);
        }
        k := k + 1;
      }
    }

    method FreeIndirect(i: nat, ghost fs0: Fs, ghost log0: set<nat>)
      requires FsInv(sb, fs0, owner) && i < |fs0.inodes| == |fs.inodes|
      requires fs.data == fs0.data && |fs.inodes[i].addrs| == NDIRECT + 1
      requires fs.inodes[i].addrs[INDIRECT] == fs0.inodes[i].addrs[INDIRECT]
      requires Freeing(sb, fs0, fs.bits, owner, i, NDIRECT, 0, log0, logged)
      modifies `fs, `logged
      ensures fs.data == fs0.data
      ensures fs.inodes == old(fs).inodes[i := old(fs).inodes[i].(addrs := old(fs).inodes[i].addrs[INDIRECT := 0])]
      ensures AllFreed(sb, fs0, fs.bits, owner, i, log0, logged)
    {
      var ind := fs.inodes[i].addrs[INDIRECT];
      if ind != 0 {
        FreeEntries(i, ind, fs0, log0);
        IndirectLast(sb, fs0, fs.bits, owner, i, ind, log0, logged);
        Bfree(ind);
        ClearAddr(i, INDIRECT);
      } else {
        NoIndirect(sb, fs0, fs.bits, owner, i, log0, logged);
        assert fs.inodes[i].addrs == fs.inodes[i].addrs[INDIRECT := 0];
      }
    }

    /** Free what entry j of the indirect block ind refers to. */
    method FreeEntry(i: nat, ind: nat, j: nat, ghost fs0: Fs, ghost log0: set<nat>)
      requires FsInv(sb, fs0, owner) && i < |fs0.inodes| && ind == fs0.inodes[i].addrs[INDIRECT] != 0 && j < NINDIRECT
      requires fs.data == fs0.data && Freeing(sb, fs0, fs.bits, owner, i, NDIRECT, j, log0, logged)
      modifies `fs, `logged
      ensures fs == old(fs).(bits := fs.bits) && Freeing(sb, fs0, fs.bits, owner, i, NDIRECT, j + 1, log0, logged)
    {
      var b := Word(fs.data[ind], j);
      EntryNext(sb, fs0, fs.bits, owner, i, j, b, j + 1, log0, logged);
      if b != 0 {
        Bfree(b);
      }
    }

    /** Free what the indirect block ind refers to. */
    method FreeEntries(i: nat, ind: nat, ghost fs0: Fs, ghost log0: set<nat>)
      requires FsInv(sb, fs0, owner) && i < |fs0.inodes| && ind == fs0.inodes[i].addrs[INDIRECT] != 0
      requires fs.data == fs0.data && Freeing(sb, fs0, fs.bits, owner, i, NDIRECT, 0, log0, logged)
      modifies `fs, `logged
      ensures fs == old(fs).(bits := fs.bits) && Freeing(sb, fs0, fs.bits, owner, i, NDIRECT, NINDIRECT, log0, logged)
    {
      var j := 0;
      while j < NINDIRECT
        invariant 0 <= j <= NINDIRECT && fs == old(fs).(bits := fs.bits)
        invariant Freeing(sb, fs0, fs.bits, owner, i, NDIRECT, j, log0, logged)
      {
        FreeEntry(i, ind, j, fs0, log0);
        j := j + 1;
      }
    }

    /**
     readi(): read up to n bytes at offset off of file i into a destination of which
     `avail` bytes are writable. Returns -1 on a fault, else the bytes read. As all
     bytes of the file are mapped, the calls of bmap() allocate nothing.
     */
    method Readi(i: nat, avail: nat, off: uint, n: uint) returns (r: int, out: seq<byte>)
      requires Valid() && i < |fs.inodes|
      modifies `fs, `logged, `owner
      ensures fs == old(fs) && owner == old(owner) && Valid()
      ensures ReadAs(Content(sb, fs, i), avail, off, n, r, out)
    {
      var size := fs.inodes[i].size;
      if off > size || (off + n) % 0x1_0000_0000 < off {
        return 0, [];
      }
      var m := Min(n, size - off);
      r, out := ReadRange(i, avail, off, m);
    }

    /** The loop of readi(). */
    method ReadRange(i: nat, avail: nat, off: nat, m: nat) returns (r: int, out: seq<byte>)
      requires Owned(sb, fs, owner) && i < |fs.inodes| && Mapped(sb, fs, i) && off + m <= fs.inodes[i].size
      modifies `fs, `logged, `owner
      ensures fs == old(fs) && owner == old(owner)
      ensures if m <= avail then r == m && out == Content(sb, fs, i)[off..off + m] else r == -1
    {
      ghost var c := Content(sb, fs, i);
      var tot := 0;
      out := [];
      while tot < m
        invariant tot <= m && fs == old(fs) && owner == old(owner)
        invariant out == c[off..off + tot] && tot <= avail
      {
        var k := ChunkSize(m, off, tot);
        var bytes := ReadBlock(i, off + tot, k);
        if tot + k > avail {
          return -1, out;
        }
        JoinSlices(c, off, off + tot, off + tot + k);
        out := out + bytes;
        tot := tot + k;
      }
      return tot, out;
    }

    static lemma JoinSlices(c: seq<byte>, i: nat, j: nat, k: nat)
      requires i <= j <= k <= |c|
      ensures c[i..j] + c[j..k] == c[i..k]
    {}

    /** bmap() and bread() of one pass of readi()'s loop. */
    method ReadBlock(i: nat, start: nat, m: nat) returns (bytes: seq<byte>)
      requires Owned(sb, fs, owner) && i < |fs.inodes| && Mapped(sb, fs, i)
      requires 0 < m <= BSIZE - start % BSIZE && start + m <= fs.inodes[i].size
      modifies `fs, `logged, `owner
      ensures fs == old(fs) && owner == old(owner)
      ensures bytes == Content(sb, fs, i)[start..start + m]
    {
      ReadChunk(sb, fs, owner, i, start, m);
      var addr;
      ghost var maps;
      addr, maps := Bmap(i, start / BSIZE);
      if addr == 0 {
        assert false;
      }
      bytes := fs.data[addr][start % BSIZE..start % BSIZE + m];
    }

    /** One transaction of filewrite(), after src[..k] has been written over `files`; then it is src[..done]. */
    method WriteChunk(i: nat, src: seq<byte>, avail: nat, start: nat, k: nat, n1: nat, at: uint, left: nat,
                      ghost files: seq<File>)
        returns (r: int, ghost more: nat, ghost done: nat, ghost reach: nat)
      requires Valid() && i < |fs.inodes| == |files| && k + n1 <= |src| && 0 < n1 <= CHUNK
      requires at == start + k && left == avail - k
      requires Files(sb, fs) == WriteFile(files, i, start, src[..k], k) && (k > 0 ==> start <= |files[i].content|)
      modifies `fs, `logged, `owner, `dinodes, `stale
      ensures Valid() && |fs.inodes| == |files| && |logged| <= MAXOPBLOCKS
      ensures done == (if r > 0 then k + r else k) && reach == k + more
      ensures Advanced(sb, fs, stale, old(stale), files, i, start, src, avail, done, reach)
      ensures ChunkStops(fs, old(fs).inodes[i].size, at, n1, left, r, more)
      ensures old(stale) == map[] && (r == n1 || avail >= |src|) ==> stale == map[]
      ensures RecordedAll(sb, Settled(old(fs), old(stale)), Settled(fs, stale), logged)
    {
      logged := {};
      var piece := src[k..k + n1];
      assert |piece| == n1;
      r, more := Writei(i, piece, left, at);
      if r == -1 {
        more, done, reach := 0, k, k;
        NoAdvance(sb, fs, stale, files, i, start, src, avail, k);
      } else {
        done, reach := k + r, k + more;
        PieceAdvances(sb, old(fs), old(stale), fs, stale, files, i, start, src, avail, k, n1, at, piece, left, r, more,
              done, reach);
      }
    }

    /** One pass of filewrite()'s loop: the next chunk. */
    method FilePass(i: nat, src: seq<byte>, avail: nat, start: nat, k: nat, ghost files: seq<File>,
                    ghost stale0: map<nat, Block>, ghost done: nat, ghost reach: nat)
        returns (r: int, k': nat, go: bool, ghost done': nat, ghost reach': nat)
      requires Valid() && i < |fs.inodes| == |files| && k < |src| < 0x8000_0000 && start < 0x1_0000_0000
      requires Chunked(sb, fs, stale, stale0, files, i, start, src, avail, k, done, reach, true)
      modifies `fs, `logged, `owner, `dinodes, `stale
      ensures Valid() && |fs.inodes| == |files| && |logged| <= MAXOPBLOCKS && k' <= |src|
      ensures Chunked(sb, fs, stale, stale0, files, i, start, src, avail, k', done', reach', go)
      ensures done' == (if r > 0 then k + r else k) && k' == (if go then done' else k) && (go ==> k < k')
      ensures RecordedAll(sb, Settled(old(fs), old(stale)), Settled(fs, stale), logged)
    {
      var n1 := |src| - k;
      if n1 > CHUNK {
        n1 := CHUNK;
      }
      SizeNow(sb, fs, files, i, start, src, k);
      ghost var size, more := fs.inodes[i].size, 0;
      var at: nat, left: nat := start + k, avail - k;
      r, more, done', reach' := WriteChunk(i, src, avail, start, k, n1, at, left, files);
      go := r == n1;
      k' := if go then k + n1 else k;
      ChunkedNext(sb, fs, stale, stale0, files, i, start, src, avail, k, n1, size, r, more, done', reach', go, k');
    }

    /** A pass and its transaction. */
    method FileStep(i: nat, src: seq<byte>, avail: nat, start: nat, k: nat, off: nat, ghost files: seq<File>,
                    ghost stale0: map<nat, Block>, ghost v0: Fs, ghost p: Progress)
        returns (k': nat, off': nat, go: bool, ghost p': Progress)
      requires Valid() && i < |fs.inodes| == |files| && k < |src| < 0x8000_0000 && start < 0x1_0000_0000
      requires off == start + p.done
      requires InProgress(sb, fs, stale, stale0, v0, files, i, start, src, avail, k, p, true)
      modifies `fs, `logged, `owner, `dinodes, `stale
      ensures Valid() && |fs.inodes| == |files| && k' <= |src| && off' == start + p'.done && (go ==> k < k')
      ensures InProgress(sb, fs, stale, stale0, v0, files, i, start, src, avail, k', p', go)
    {
      var r;
      ghost var done, reach;
      r, k', go, done, reach := FilePass(i, src, avail, start, k, files, stale0, p.done, p.reach);
      off' := if r > 0 then off + r else off;
      SettledInv(sb, fs, owner, stale);
      ghost var tx := Tx(Settled(fs, stale), logged);
      p' := Progress(done, reach, p.txs + [tx], p.marks + [done]);
      ChunkHistoryMore(sb, v0, p.txs, p.marks, stale0 == map[], files, i, start, src, Settled(old(fs), old(stale)), tx,
            done);
    }

    /**
     filewrite() on an inode: write src at offset `start` in chunks, each its own
     transaction. Returns |src| or -1 and the new file offset. It writes as much as is
     wanted unless the disk fills up, and none of its transactions exceeds the log's budget.
     */
    method FileWrite(i: nat, src: seq<byte>, avail: nat, start: uint) returns (ret: int, off: nat, ghost p: Progress)
      requires Valid() && i < |fs.inodes| && |src| < 0x8000_0000
      modifies `fs, `logged, `owner, `dinodes, `stale
      ensures Valid() && |fs.inodes| == |old(fs).inodes|
      ensures off == start + p.done && p.done <= p.reach <= |src| && ret == if p.done == |src| then |src| else -1
      ensures FileStops(Full(fs), |Files(sb, old(fs))[i].content|, start, |src|, avail, p.done, p.reach)
      ensures Files(sb, fs) == WriteFile(Files(sb, old(fs)), i, start, src[..p.reach], p.done)
      ensures old(stale) == map[] ==>
                LoggedAs(sb, fs, stale, WriteFile(Files(sb, old(fs)), i, start, src[..p.done], p.done))
      ensures old(stale) == map[] && avail >= |src| ==> stale == map[]
      ensures ChunkHistory(sb, Settled(old(fs), old(stale)), p.txs, p.marks, old(stale) == map[], Files(sb, old(fs)), i,
                           start, src, Settled(fs, stale))
    {
      ghost var files, v0, stale0 := Files(sb, fs), Settled(fs, stale), stale;
      var k: nat, more := 0, true;
      off, p := start, Progress(0, 0, [], []);
      NotBegun(sb, fs, stale, files, i, start, src, avail);
      while more && k < |src|
        invariant k <= |src| && Valid() && |fs.inodes| == |files| && off == start + p.done
        invariant InProgress(sb, fs, stale, stale0, v0, files, i, start, src, avail, k, p, more)
        decreases more, |src| - k
      {
        k, off, more, p := FileStep(i, src, avail, start, k, off, files, stale0, v0, p);
      }
      ProgressEnds(sb, fs, stale, stale0, v0, files, i, start, src, avail, k, p, more);
      ret := if k == |src| then |src| else -1;
    }

    /** filewrite() as a call. */
    method ServePut(i: nat, src: seq<byte>, avail: nat, start: uint) returns (reply: Reply, ghost txs: seq<Tx>)
      requires Valid() && i < |fs.inodes| && |src| < 0x8000_0000
      modifies `fs, `logged, `owner, `dinodes, `stale
      ensures Valid() && |fs.inodes| == |old(fs).inodes|
      ensures Answered(sb, old(fs), old(stale), Put(i, src, avail, start), reply, txs, fs, stale)
    {
      var ret, off;
      ghost var p;
      ret, off, p := FileWrite(i, src, avail, start);
      WriteAnswers(sb, old(fs), old(stale), i, src, avail, start, ret, p, fs, stale);
      reply, txs := Stored(ret, off - start), p.txs;
    }

    /** itrunc() in a transaction of its own. */
    method ServeEmpty(i: nat) returns (reply: Reply, ghost txs: seq<Tx>)
      requires Valid() && i < |fs.inodes|
      modifies `fs, `logged, `owner, `dinodes
      ensures Valid() && |fs.inodes| == |old(fs).inodes|
      ensures Answered(sb, old(fs), stale, Empty(i), reply, txs, fs, stale)
    {
      logged := {};
      Itrunc(i);
      reply := Emptied;
      txs := OneCall(sb, Settled(old(fs), stale), fs, owner, stale, logged, ViewOf(sb, old(fs)), Empty(i));
    }

    /** A transaction that takes the changed buffer of block b as it is. */
    method ServeAbsorb(b: nat) returns (reply: Reply, ghost txs: seq<Tx>)
      requires Valid()
      modifies `logged, `stale
      ensures Valid() && Answered(sb, fs, old(stale), Absorb(b), reply, txs, fs, stale)
    {
      logged := {b};
      Keep(b);
      reply := Nothing;
      txs := OneCall(sb, Settled(fs, old(stale)), fs, owner, stale, logged, ViewOf(sb, fs), Absorb(b));
    }

    /** One call, and its transactions. */
    method Serve(req: Request) returns (reply: Reply, ghost txs: seq<Tx>)
      requires Valid() && Answerable(|fs.inodes|, req)
      modifies `fs, `logged, `owner, `dinodes, `stale
      ensures Valid() && |fs.inodes| == |old(fs).inodes|
      ensures Answered(sb, old(fs), old(stale), req, reply, txs, fs, stale)
    {
      match req
      case Put(i, src, avail, start) =>
        reply, txs := ServePut(i, src, avail, start);
      case Empty(i) =>
        reply, txs := ServeEmpty(i);
      case Get(i, avail, off, n) =>
        var ret, bytes := Readi(i, avail, off, n);
        reply, txs := Got(ret, bytes), [];
      case Recycle(b) =>
        Evict(b);
        reply, txs := Nothing, [];
      case Absorb(b) =>
        reply, txs := ServeAbsorb(b);
    }

    /**
     Any sequence of calls of filewrite(), itrunc() and readi(), whatever becomes of
     changed buffers in between, does to the files what the same operations on plain
     byte sequences do. `run` has the files after each call, and its transactions.
     */
    method Session(requests: seq<Request>) returns (replies: seq<Reply>, ghost run: Run)
      requires Valid() && forall k :: 0 <= k < |requests| ==> Answerable(|fs.inodes|, requests[k])
      modifies `fs, `logged, `owner, `dinodes, `stale
      ensures Valid() && replies == run.replies && IsTrace(ViewOf(sb, old(fs)), requests, run, ViewOf(sb, fs))
      ensures old(stale) == map[] && AllClean(requests) ==> stale == map[] && Tidy(sb, requests, run)
      ensures History(sb, Settled(old(fs), old(stale)), Flat(run.spans))
      ensures Last(Settled(old(fs), old(stale)), Flat(run.spans)) == Settled(fs, stale)
      ensures Span(sb) < MAXOPBLOCKS ==> SmallTxs(Flat(run.spans))
    {
      ghost var v, v0 := ViewOf(sb, fs), Settled(fs, stale);
      ghost var tidy := stale == map[] && AllClean(requests);
      replies, run := [], Run([], [v], []);
      for k := 0 to |requests|
        invariant Valid() && |fs.inodes| == |old(fs).inodes| && replies == run.replies
        invariant IsTrace(v, requests[..k], run, ViewOf(sb, fs))
        invariant tidy ==> stale == map[] && Tidy(sb, requests[..k], run)
        invariant History(sb, v0, Flat(run.spans)) && Last(v0, Flat(run.spans)) == Settled(fs, stale)
        invariant Span(sb) < MAXOPBLOCKS ==> SmallTxs(Flat(run.spans))
      {
        ghost var fs1, before, settled := fs, ViewOf(sb, fs), Settled(fs, stale);
        var reply;
        ghost var txs;
        reply, txs := Serve(requests[k]);
        TraceMore(v, requests, k, run, before, reply, ViewOf(sb, fs), txs);
        if tidy {
          CallLands(sb, fs1, txs, fs);
          TidyMore(sb, v, requests, k, run, before, reply, ViewOf(sb, fs), txs);
        }
        HistoryMore(sb, v0, run.spans, settled, txs);
        replies, run := replies + [reply], Extend(run, reply, ViewOf(sb, fs), txs);
      }
      assert requests[..|requests|] == requests;
    }
  }
}
